/**
 The Redis limiter: a counter that every request increments, rejected ones included, and whose expiry is set only
 by the increment that creates it. Expiry is immediate: at `expiresAt` the key is gone.
 */
module FixedWindow {
  import RateLimit

  const LIFETIME: real := RateLimit.WINDOW

  datatype Counter = Absent | Live(count: nat, expiresAt: real)

  /** INCR, and EXPIRE when it created the key. */
  function Hit(c: Counter, now: real): Counter {
    var count := if c.Live? && now < c.expiresAt then c.count + 1 else 1;
    Live(count, if count == 1 then now + LIFETIME else c.expiresAt)
  }

  class RateKey {
    var counter: Counter

    constructor ()
      ensures counter == Absent
    {
      counter := Absent;
    }

    /** The script as the server runs it, and the comparison with the limit. */
    method Limited(limit: nat, now: real) returns (limited: bool)
      modifies this
      ensures counter == Hit(old(counter), now)
      ensures counter == if old(counter).Live? && now < old(counter).expiresAt
                         then Live(old(counter).count + 1,
                                   if old(counter).count == 0 then now + 60.0 else old(counter).expiresAt)
                         else Live(1, now + 60.0)
      ensures limited <==> counter.count > limit
    {
      if counter.Absent? || now >= counter.expiresAt {
        counter := Live(0, now);
      }
      counter := counter.(count := counter.count + 1);
      if counter.count == 1 {
        counter := counter.(expiresAt := now + LIFETIME);
      }
      limited := counter.count > limit;
    }
  }

  function CounterAfter(times: seq<real>): Counter {
    if times == [] then Absent else Hit(CounterAfter(times[..|times| - 1]), times[|times| - 1])
  }

  /** The requests that were let through. */
  function Admitted(times: seq<real>, limit: nat): seq<real> {
    if times == [] then []
    else Admitted(times[..|times| - 1], limit)
         + if CounterAfter(times).count > limit then [] else [times[|times| - 1]]
  }

  ghost predicate ClockNeverBack(times: seq<real>) {
    forall i, j | 0 <= i < j < |times| :: times[i] <= times[j]
  }

  /** How many instants lie in the closed interval [lo, hi]. */
  function Between(times: seq<real>, lo: real, hi: real): nat {
    if times == [] then 0
    else Between(times[..|times| - 1], lo, hi) + if lo <= times[|times| - 1] <= hi then 1 else 0
  }

  lemma {:induction false} BetweenSplit(a: seq<real>, b: seq<real>, lo: real, hi: real)
    ensures Between(a + b, lo, hi) == Between(a, lo, hi) + Between(b, lo, hi)
  {
    if b == [] {
      assert a + b == a;
    } else {
      assert (a + b)[..|a + b| - 1] == a + b[..|b| - 1];
      BetweenSplit(a, b[..|b| - 1], lo, hi);
    }
  }

  lemma {:induction false} BetweenBounds(times: seq<real>, lo: real, hi: real)
    ensures Between(times, lo, hi) <= |times|
    ensures (forall i | 0 <= i < |times| :: times[i] < lo) ==> Between(times, lo, hi) == 0
  {
    if times != [] {
      BetweenBounds(times[..|times| - 1], lo, hi);
    }
  }

  /**
   The admissions fall into counter lifetimes: those of the running one, those of the one before it, and older ones.
   Lifetimes start at least a minute apart and admit at most `limit` requests each.
   */
  datatype Lifetimes = Lifetimes(older: seq<real>, previous: seq<real>, current: seq<real>, start: real, before: real)

  ghost predicate AllBelow(times: seq<real>, hi: real) {
    forall i | 0 <= i < |times| :: times[i] < hi
  }

  ghost predicate AllIn(times: seq<real>, lo: real, hi: real) {
    forall i | 0 <= i < |times| :: lo <= times[i] < hi
  }

  /** The running lifetime has admitted what its counter says, up to the limit. */
  ghost predicate Counts(c: Counter, limit: nat, l: Lifetimes) {
    c.Live? && c.expiresAt == l.start + LIFETIME && c.count >= 1
    && |l.current| == if c.count <= limit then c.count else limit
  }

  ghost predicate Splits(times: seq<real>, limit: nat, l: Lifetimes) {
    && Admitted(times, limit) == l.older + l.previous + l.current
    && |l.previous| <= limit && |l.current| <= limit
    && l.before + LIFETIME <= l.start
    && AllBelow(l.older, l.before)
    && AllIn(l.previous, l.before, l.before + LIFETIME)
    && AllIn(l.current, l.start, l.start + LIFETIME)
    && if times == [] then l.current == [] else Counts(CounterAfter(times), limit, l)
  }

  predicate Running(c: Counter, now: real) {
    c.Live? && now < c.expiresAt
  }

  /** The lifetimes after one more request. */
  ghost function NextLifetimes(times: seq<real>, limit: nat, l: Lifetimes, now: real): Lifetimes {
    var c := CounterAfter(times);
    var kept := if Hit(c, now).count > limit then [] else [now];
    if times == [] then Lifetimes([], [], kept, now, now - LIFETIME)
    else if Running(c, now) then l.(current := l.current + kept)
    else Lifetimes(l.older + l.previous, l.current, kept, now, l.start)
  }

  lemma OneMore(times: seq<real>, limit: nat, now: real)
    ensures CounterAfter(times + [now]) == Hit(CounterAfter(times), now)
    ensures Admitted(times + [now], limit)
            == Admitted(times, limit) + if Hit(CounterAfter(times), now).count > limit then [] else [now]
  {
    assert (times + [now])[..|times|] == times;
  }

  lemma BelowBoth(a: seq<real>, b: seq<real>, before: real, start: real)
    requires AllBelow(a, before) && AllIn(b, before, before + LIFETIME) && before + LIFETIME <= start
    ensures AllBelow(a + b, start)
  {
  }

  lemma InMore(times: seq<real>, more: seq<real>, lo: real, hi: real)
    requires AllIn(times, lo, hi) && AllIn(more, lo, hi)
    ensures AllIn(times + more, lo, hi)
  {
  }

  /** A further request in the running lifetime. */
  lemma SplitsSame(times: seq<real>, limit: nat, l: Lifetimes, now: real)
    requires Splits(times, limit, l) && times != [] && Running(CounterAfter(times), now) && l.start <= now
    ensures Splits(times + [now], limit, NextLifetimes(times, limit, l, now))
  {
    OneMore(times, limit, now);
    var kept := if Hit(CounterAfter(times), now).count > limit then [] else [now];
    Regroup(l.older + l.previous, l.current, kept);
    InMore(l.current, kept, l.start, l.start + LIFETIME);
  }

  /** The first request of a new lifetime. */
  lemma SplitsNew(times: seq<real>, limit: nat, l: Lifetimes, now: real)
    requires Splits(times, limit, l) && times != [] && !Running(CounterAfter(times), now)
    ensures Splits(times + [now], limit, NextLifetimes(times, limit, l, now))
  {
    OneMore(times, limit, now);
    BelowBoth(l.older, l.previous, l.before, l.start);
  }

  lemma Regroup(a: seq<real>, b: seq<real>, c: seq<real>)
    ensures a + b + c == a + (b + c)
  {
  }

  lemma SplitsNext(times: seq<real>, limit: nat, l: Lifetimes, now: real)
    requires Splits(times, limit, l) && (times != [] ==> l.start <= now)
    ensures Splits(times + [now], limit, NextLifetimes(times, limit, l, now))
    ensures NextLifetimes(times, limit, l, now).start <= now
  {
    if times == [] {
      OneMore(times, limit, now);
    } else if Running(CounterAfter(times), now) {
      SplitsSame(times, limit, l, now);
    } else {
      SplitsNew(times, limit, l, now);
    }
  }

  ghost function LifetimesOf(times: seq<real>, limit: nat): Lifetimes {
    if times == [] then Lifetimes([], [], [], LIFETIME, 0.0)
    else
      var front := times[..|times| - 1];
      NextLifetimes(front, limit, LifetimesOf(front, limit), times[|times| - 1])
  }

  lemma {:induction false} LifetimesSplit(times: seq<real>, limit: nat)
    requires ClockNeverBack(times)
    ensures Splits(times, limit, LifetimesOf(times, limit))
    ensures times != [] ==> LifetimesOf(times, limit).start <= times[|times| - 1]
  {
    if times != [] {
      var front, now := times[..|times| - 1], times[|times| - 1];
      LifetimesSplit(front, limit);
      SplitsNext(front, limit, LifetimesOf(front, limit), now);
      assert times == front + [now];
    }
  }

  /** At most `limit` requests pass during one lifetime of the counter. */
  lemma OneLifetimeBound(times: seq<real>, limit: nat)
    requires ClockNeverBack(times) && times != []
    ensures var l := LifetimesOf(times, limit);
            && Admitted(times, limit) == l.older + l.previous + l.current && |l.current| <= limit
            && (forall i | 0 <= i < |l.older + l.previous| :: (l.older + l.previous)[i] < l.start)
            && CounterAfter(times).expiresAt == l.start + LIFETIME
  {
    LifetimesSplit(times, limit);
  }

  /** An interval that reaches into the running lifetime misses everything before the previous one. */
  lemma RecentBound(times: seq<real>, limit: nat, lo: real)
    requires ClockNeverBack(times) && times != [] && lo <= times[|times| - 1] <= lo + LIFETIME
    requires LifetimesOf(times, limit).start <= lo + LIFETIME
    ensures Between(Admitted(times, limit), lo, lo + LIFETIME) <= 2 * limit
  {
    LifetimesSplit(times, limit);
    var l := LifetimesOf(times, limit);
    BetweenSplit(l.older + l.previous, l.current, lo, lo + LIFETIME);
    BetweenSplit(l.older, l.previous, lo, lo + LIFETIME);
    BetweenBounds(l.older, lo, lo + LIFETIME);
    BetweenBounds(l.previous, lo, lo + LIFETIME);
    BetweenBounds(l.current, lo, lo + LIFETIME);
  }

  /** A request outside the interval adds nothing to it. */
  lemma OutsideAddsNothing(front: seq<real>, limit: nat, now: real, lo: real)
    requires now < lo || lo + LIFETIME < now
    ensures Between(Admitted(front + [now], limit), lo, lo + LIFETIME)
            == Between(Admitted(front, limit), lo, lo + LIFETIME)
  {
    OneMore(front, limit, now);
    var kept := if Hit(CounterAfter(front), now).count > limit then [] else [now];
    BetweenSplit(Admitted(front, limit), kept, lo, lo + LIFETIME);
    assert Between(kept, lo, lo + LIFETIME) == 0;
  }

  /** Hence any closed interval of a minute sees at most twice the limit. */
  lemma {:induction false} FixedWindowBound(times: seq<real>, limit: nat, lo: real)
    requires ClockNeverBack(times)
    ensures Between(Admitted(times, limit), lo, lo + LIFETIME) <= 2 * limit
  {
    if times != [] {
      var front, now := times[..|times| - 1], times[|times| - 1];
      if lo <= now <= lo + LIFETIME {
        LifetimesSplit(times, limit);
        RecentBound(times, limit, lo);
      } else {
        FixedWindowBound(front, limit, lo);
        assert times == front + [now];
        OutsideAddsNothing(front, limit, now, lo);
      }
    }
  }
}
