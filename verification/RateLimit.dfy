/**
 The in-memory sliding-window limiter against a limiter that forgets nothing, and the bound of both limiters.
 Time is monotonic and real; admissions of a key are the instants at which its requests were let through.
 */
module RateLimit {
  const WINDOW: real := 60.0

  type History = map<string, seq<real>>

  function At(h: History, key: string): seq<real> {
    if key in h then h[key] else []
  }

  /** How many instants lie in the half-open interval (lo, hi]. */
  function Within(times: seq<real>, lo: real, hi: real): nat {
    if times == [] then 0
    else Within(times[..|times| - 1], lo, hi) + if lo < times[|times| - 1] <= hi then 1 else 0
  }

  /** The limiter that keeps every admission for ever and counts the ones of the last minute. */
  predicate NaiveExceeded(h: History, key: string, limit: int, now: real) {
    Within(At(h, key), now - WINDOW, now) >= limit
  }

  function NaiveNext(h: History, key: string, limit: int, now: real): History {
    if NaiveExceeded(h, key, limit, now) then h else h[key := At(h, key) + [now]]
  }

  ghost predicate Sorted(times: seq<real>) {
    forall i, j | 0 <= i < j < |times| :: times[i] <= times[j]
  }

  // ---------------------------------------------------------------- counting

  lemma {:induction false} WithinSplit(a: seq<real>, b: seq<real>, lo: real, hi: real)
    ensures Within(a + b, lo, hi) == Within(a, lo, hi) + Within(b, lo, hi)
  {
    if b == [] {
      assert a + b == a;
    } else {
      assert (a + b)[..|a + b| - 1] == a + b[..|b| - 1];
      WithinSplit(a, b[..|b| - 1], lo, hi);
    }
  }

  lemma {:induction false} WithinAll(times: seq<real>, lo: real, hi: real)
    requires forall i | 0 <= i < |times| :: lo < times[i] <= hi
    ensures Within(times, lo, hi) == |times|
  {
    if times != [] {
      WithinAll(times[..|times| - 1], lo, hi);
    }
  }

  lemma {:induction false} WithinNone(times: seq<real>, lo: real, hi: real)
    requires forall i | 0 <= i < |times| :: times[i] <= lo || hi < times[i]
    ensures Within(times, lo, hi) == 0
  {
    if times != [] {
      WithinNone(times[..|times| - 1], lo, hi);
    }
  }

  /** An interval that reaches further on both sides, as far as these instants go, holds no fewer of them. */
  lemma {:induction false} WithinGrows(times: seq<real>, lo: real, hi: real, lo': real, hi': real)
    requires forall i | 0 <= i < |times| :: lo < times[i] <= hi ==> lo' < times[i] <= hi'
    ensures Within(times, lo, hi) <= Within(times, lo', hi')
  {
    if times != [] {
      WithinGrows(times[..|times| - 1], lo, hi, lo', hi');
    }
  }

  // ---------------------------------------------------------------- the limiter

  /** The window of a key is what is left of its history after dropping instants that are at least a minute old. */
  ghost predicate Remembers(full: seq<real>, window: seq<real>, clock: real) {
    && |window| <= |full| && full[|full| - |window|..] == window
    && (forall i | 0 <= i < |full| - |window| :: full[i] <= clock - WINDOW)
    && Sorted(full) && (forall i | 0 <= i < |full| :: full[i] <= clock)
  }

  lemma RememberLater(full: seq<real>, window: seq<real>, clock: real, now: real)
    requires Remembers(full, window, clock) && clock <= now
    ensures Remembers(full, window, now)
  {
  }

  lemma ForgetOldest(full: seq<real>, window: seq<real>, now: real)
    requires Remembers(full, window, now) && window != [] && window[0] <= now - WINDOW
    ensures Remembers(full, window[1..], now)
  {
    var dropped := |full| - |window|;
    assert full[dropped] == window[0];
    assert full[dropped + 1..] == window[1..];
  }

  /** A window whose newest instant is at least a minute old can be dropped altogether. */
  lemma ForgetAll(full: seq<real>, window: seq<real>, now: real)
    requires Remembers(full, window, now) && (window == [] || window[|window| - 1] <= now - WINDOW)
    ensures Remembers(full, [], now)
  {
    if window != [] {
      assert full[|full| - 1] == window[|window| - 1];
    }
  }

  /** Once the old end is pruned, the length of the window is the naive count. */
  lemma PrunedCounts(full: seq<real>, window: seq<real>, now: real)
    requires Remembers(full, window, now) && (window == [] || window[0] > now - WINDOW)
    ensures Within(full, now - WINDOW, now) == |window|
  {
    var dropped := full[..|full| - |window|];
    assert full == dropped + window;
    WithinSplit(dropped, window, now - WINDOW, now);
    WithinNone(dropped, now - WINDOW, now);
    forall i | 0 <= i < |window| ensures now - WINDOW < window[i] <= now {
      assert window[i] == full[|full| - |window| + i];
      assert window[0] == full[|full| - |window|];
    }
    WithinAll(window, now - WINDOW, now);
  }

  lemma PrunedIsRecent(full: seq<real>, window: seq<real>, now: real)
    requires Remembers(full, window, now) && (window == [] || window[0] > now - WINDOW)
    ensures window == [] || window[|window| - 1] > now - WINDOW
  {
    if window != [] {
      assert full[|full| - 1] == window[|window| - 1];
      assert full[|full| - |window|] == window[0];
    }
  }

  lemma RememberNew(full: seq<real>, window: seq<real>, now: real)
    requires Remembers(full, window, now)
    ensures Remembers(full + [now], window + [now], now)
  {
    var n := |full| - |window|;
    assert (full + [now])[n..] == full[n..] + [now];
  }

  ghost predicate KeyRemembered(windows: History, h: History, clock: real, key: string) {
    Remembers(At(h, key), At(windows, key), clock)
  }

  /** All windows together. */
  ghost predicate Remembered(windows: History, h: History, clock: real) {
    forall key: string :: KeyRemembered(windows, h, clock, key)
  }

  /** The dictionary the periodic cleanup rebuilds: the windows whose newest instant is recent. */
  function Kept(windows: History, now: real): History {
    map key | key in windows && windows[key] != [] && windows[key][|windows[key]| - 1] > now - WINDOW :: windows[key]
  }

  lemma CleanupRemembers(windows: History, h: History, now: real)
    requires Remembered(windows, h, now)
    ensures Remembered(Kept(windows, now), h, now)
  {
    forall key: string ensures KeyRemembered(Kept(windows, now), h, now, key) {
      assert KeyRemembered(windows, h, now, key);
      if key !in Kept(windows, now) {
        ForgetAll(At(h, key), At(windows, key), now);
      }
    }
  }

  lemma LaterRemembers(windows: History, h: History, clock: real, now: real)
    requires Remembered(windows, h, clock) && clock <= now
    ensures Remembered(windows, h, now)
  {
    forall key: string ensures KeyRemembered(windows, h, now, key) {
      assert KeyRemembered(windows, h, clock, key);
      RememberLater(At(h, key), At(windows, key), clock, now);
    }
  }

  /** Nothing about a key changes when another one does. */
  lemma UpdateRemembers(windows: History, h: History, windows': History, h': History, key: string,
                        full: seq<real>, window: seq<real>, now: real)
    requires Remembered(windows, h, now) && Remembers(full, window, now)
    requires windows' == windows[key := window] && h' == h[key := full]
    ensures Remembered(windows', h', now)
  {
    forall k: string ensures KeyRemembered(windows', h', now, k) {
      if k == key {
        assert At(h', k) == full && At(windows', k) == window;
      } else {
        assert KeyRemembered(windows, h, now, k);
        assert At(h', k) == At(h, k) && At(windows', k) == At(windows, k);
      }
    }
  }

  lemma ReplaceRemembers(windows: History, h: History, windows': History, key: string, window: seq<real>, now: real)
    requires Remembered(windows, h, now) && Remembers(At(h, key), window, now)
    requires windows' == windows[key := window]
    ensures Remembered(windows', h, now)
  {
    forall k: string ensures KeyRemembered(windows', h, now, k) {
      if k == key {
        assert At(windows', k) == window;
      } else {
        assert KeyRemembered(windows, h, now, k);
        assert At(windows', k) == At(windows, k);
      }
    }
  }

  /** No key is kept for nothing: each has an admission less than a minute older than the last cleanup. */
  ghost predicate Compact(windows: History, lastCleanup: real) {
    forall key | key in windows ::
      windows[key] != [] && windows[key][|windows[key]| - 1] > lastCleanup - WINDOW
  }

  ghost predicate Bounded(windows: History, limit: int) {
    forall key | key in windows :: |windows[key]| <= limit
  }

  class MemoryRateLimiter {
    var windows: map<string, seq<real>>
    var lastCleanup: real
    /** Every admission ever made, and the time of the last call. */
    ghost var history: History
    ghost var clock: real

    ghost predicate Valid()
      reads this
    {
      lastCleanup <= clock && Remembered(windows, history, clock)
    }

    constructor (now: real)
      ensures Valid() && clock == now && history == map[] && windows == map[]
    {
      windows := map[];
      lastCleanup := now;
      history := map[];
      clock := now;
    }

    /** The periodic cleanup is not observable: the history is remembered as well as before. */
    method Cleanup(now: real)
      requires Valid() && clock <= now
      modifies this
      ensures Valid() && clock == now && history == old(history)
      ensures now - lastCleanup <= WINDOW
      ensures old(Compact(windows, lastCleanup)) ==> Compact(windows, lastCleanup)
      ensures old(lastCleanup) <= lastCleanup <= now
      ensures forall key | key in windows :: key in old(windows) && windows[key] == old(windows[key])
    {
      LaterRemembers(windows, history, clock, now);
      clock := now;
      if now - lastCleanup > WINDOW {
        CleanupRemembers(windows, history, now);
        windows := Kept(windows, now);
        lastCleanup := now;
      }
    }

    /** The deque of a key, created if need be, loses its instants of a minute ago and before. */
    method Prune(key: string, now: real)
      requires Valid() && clock == now
      modifies this
      ensures Valid() && clock == now && history == old(history) && lastCleanup == old(lastCleanup)
      ensures key in windows && windows == old(windows)[key := windows[key]]
      ensures |windows[key]| <= |At(old(windows), key)|
      ensures windows[key] == [] || windows[key][0] > now - WINDOW
    {
      var window := At(windows, key);
      ghost var full := At(history, key);
      assert KeyRemembered(windows, history, now, key);
      while window != [] && window[0] <= now - WINDOW
        invariant Remembers(full, window, now)
        invariant |window| <= |At(windows, key)|
        decreases |window|
        modifies {}
      {
        ForgetOldest(full, window, now);
        window := window[1..];
      }
      ReplaceRemembers(windows, history, windows[key := window], key, window, now);
      windows := windows[key := window];
    }

    /** For every call sequence, every mix of keys and limits: the answer is the naive one. */
    method Exceeded(key: string, limit: int, now: real) returns (limited: bool)
      requires Valid() && clock <= now
      modifies this
      ensures Valid() && clock == now
      ensures limited <==> Within(At(old(history), key), now - 60.0, now) >= limit
      ensures history == if limited then old(history) else old(history)[key := At(old(history), key) + [now]]
      ensures now - lastCleanup <= WINDOW
      ensures limit >= 1 && old(Compact(windows, lastCleanup)) ==> Compact(windows, lastCleanup)
      ensures limit >= 0 && old(Bounded(windows, limit)) ==> Bounded(windows, limit)
    {
      Cleanup(now);
      ghost var kept := windows;
      Prune(key, now);
      ghost var window := windows[key];
      WindowFacts(windows, history, key, now);
      if |windows[key]| >= limit {
        UpdateKeeps(kept, key, window, lastCleanup, limit);
        return true;
      }
      UpdateKeeps(kept, key, window + [now], lastCleanup, limit);
      AdmitRemembers(windows, history, key, At(history, key), window, now);
      windows := windows[key := windows[key] + [now]];
      history := history[key := At(history, key) + [now]];
      assert windows == kept[key := window + [now]];
      return false;
    }
  }

  lemma WindowFacts(windows: History, h: History, key: string, now: real)
    requires Remembered(windows, h, now) && key in windows
    requires windows[key] == [] || windows[key][0] > now - WINDOW
    ensures Within(At(h, key), now - WINDOW, now) == |windows[key]|
    ensures windows[key] == [] || windows[key][|windows[key]| - 1] > now - WINDOW
  {
    assert KeyRemembered(windows, h, now, key);
    PrunedCounts(At(h, key), windows[key], now);
    PrunedIsRecent(At(h, key), windows[key], now);
  }

  lemma AdmitRemembers(windows: History, h: History, key: string, full: seq<real>, window: seq<real>, now: real)
    requires Remembered(windows, h, now) && full == At(h, key) && window == At(windows, key)
    ensures Remembered(windows[key := window + [now]], h[key := full + [now]], now)
  {
    assert KeyRemembered(windows, h, now, key);
    RememberNew(full, window, now);
    var windows', h' := windows[key := window + [now]], h[key := full + [now]];
    UpdateRemembers(windows, h, windows', h', key, full + [now], window + [now], now);
  }

  lemma UpdateKeeps(windows: History, key: string, window: seq<real>, lastCleanup: real, limit: int)
    ensures Compact(windows, lastCleanup) && window != [] && window[|window| - 1] > lastCleanup - WINDOW ==>
              Compact(windows[key := window], lastCleanup)
    ensures Bounded(windows, limit) && |window| <= limit ==> Bounded(windows[key := window], limit)
  {
  }

  /** An admission within the last two minutes. */
  ghost predicate Recent(window: seq<real>, clock: real) {
    exists i :: 0 <= i < |window| && window[i] > clock - 120.0
  }

  lemma RetainedKeysAreRecent(windows: History, lastCleanup: real, clock: real)
    requires Compact(windows, lastCleanup) && clock - lastCleanup <= WINDOW
    ensures forall key | key in windows :: Recent(windows[key], clock)
  {
    forall key | key in windows ensures Recent(windows[key], clock) {
      assert windows[key][|windows[key]| - 1] > clock - 120.0;
    }
  }

  // ---------------------------------------------------------------- the sliding-window bound

  datatype Call = Call(key: string, now: real)

  ghost predicate ClockNeverBack(calls: seq<Call>) {
    forall i, j | 0 <= i < j < |calls| :: calls[i].now <= calls[j].now
  }

  /** The admissions after a call sequence under one limit. */
  function Admitted(calls: seq<Call>, limit: int): History {
    if calls == [] then map[]
    else
      var last := calls[|calls| - 1];
      NaiveNext(Admitted(calls[..|calls| - 1], limit), last.key, limit, last.now)
  }

  lemma {:induction false} AdmittedInThePast(calls: seq<Call>, limit: int, key: string, now: real)
    requires ClockNeverBack(calls) && forall i | 0 <= i < |calls| :: calls[i].now <= now
    ensures forall i | 0 <= i < |At(Admitted(calls, limit), key)| :: At(Admitted(calls, limit), key)[i] <= now
  {
    if calls != [] {
      var front, last := calls[..|calls| - 1], calls[|calls| - 1];
      AdmittedInThePast(front, limit, key, now);
      var times := At(Admitted(front, limit), key);
      assert At(Admitted(calls, limit), key) == times || At(Admitted(calls, limit), key) == times + [last.now];
    }
  }

  lemma OneMoreFits(times: seq<real>, limit: nat, now: real, t: real)
    requires Within(times, t - WINDOW, t) <= limit && Within(times, now - WINDOW, now) < limit
    requires forall i | 0 <= i < |times| :: times[i] <= now
    ensures Within(times + [now], t - WINDOW, t) <= limit
  {
    assert (times + [now])[..|times|] == times;
    if t - WINDOW < now <= t {
      WithinGrows(times, t - WINDOW, t, now - WINDOW, now);
    }
  }

  /** At every real t, the window (t - 60, t] holds at most `limit` admissions of each key. */
  lemma {:induction false} SlidingBound(calls: seq<Call>, limit: nat, key: string, t: real)
    requires ClockNeverBack(calls)
    ensures Within(At(Admitted(calls, limit), key), t - WINDOW, t) <= limit
  {
    if calls != [] {
      var front, last := calls[..|calls| - 1], calls[|calls| - 1];
      var before := Admitted(front, limit);
      SlidingBound(front, limit, key, t);
      AdmittedInThePast(front, limit, key, last.now);
      var times := At(before, key);
      if last.key != key || NaiveExceeded(before, key, limit, last.now) {
        assert At(Admitted(calls, limit), key) == times;
      } else {
        assert At(Admitted(calls, limit), key) == times + [last.now];
        OneMoreFits(times, limit, last.now, t);
      }
    }
  }
  // ---------------------------------------------------------------- whole call sequences

  ghost predicate WindowHolds(times: seq<real>, t: real, limit: nat) {
    Within(times, t - 60.0, t) <= limit
  }

  /** What the limiter that keeps every admission answers to call i. */
  ghost predicate NaiveAnswer(calls: seq<Call>, limit: int, i: nat)
    requires i < |calls|
  {
    Within(At(Admitted(calls[..i], limit), calls[i].key), calls[i].now - 60.0, calls[i].now) >= limit
  }

  ghost predicate Tidy(windows: History, lastCleanup: real, clock: real, limit: nat) {
    && Bounded(windows, limit) && (limit >= 1 ==> Compact(windows, lastCleanup))
    && (windows == map[] || clock - lastCleanup <= WINDOW)
  }

  lemma AdmittedNext(calls: seq<Call>, n: nat, limit: nat)
    requires n < |calls|
    ensures Admitted(calls[..n + 1], limit)
            == NaiveNext(Admitted(calls[..n], limit), calls[n].key, limit, calls[n].now)
  {
    assert calls[..n + 1][..n] == calls[..n];
  }

  lemma SlidingBoundForAll(calls: seq<Call>, limit: nat)
    requires ClockNeverBack(calls)
    ensures forall key: string, t: real :: WindowHolds(At(Admitted(calls, limit), key), t, limit)
  {
    forall key: string, t: real ensures WindowHolds(At(Admitted(calls, limit), key), t, limit) {
      SlidingBound(calls, limit, key, t);
    }
  }

  method ServeNext(limiter: MemoryRateLimiter, calls: seq<Call>, n: nat, limit: nat) returns (limited: bool)
    requires n < |calls| && limiter.Valid() && limiter.clock <= calls[n].now
    requires limiter.history == Admitted(calls[..n], limit)
    requires Tidy(limiter.windows, limiter.lastCleanup, limiter.clock, limit)
    modifies limiter
    ensures limiter.Valid() && limiter.clock == calls[n].now
    ensures limiter.history == Admitted(calls[..n + 1], limit)
    ensures Tidy(limiter.windows, limiter.lastCleanup, limiter.clock, limit)
    ensures limited <==> NaiveAnswer(calls, limit, n)
  {
    AdmittedNext(calls, n, limit);
    limited := limiter.Exceeded(calls[n].key, limit, calls[n].now);
  }

  /**
   A new limiter over a whole call sequence with one limit: every answer is the naive one, every window of a minute
   holds at most `limit` admissions of each key, no deque is longer than that, and every key that is stored after the
   last call has an admission within the last two minutes (a limit of zero keeps empty deques until a cleanup).
   */
  method Serve(limiter: MemoryRateLimiter, calls: seq<Call>, limit: nat) returns (limited: seq<bool>)
    requires limiter.Valid() && limiter.history == map[] && limiter.windows == map[]
    requires ClockNeverBack(calls) && (calls != [] ==> limiter.clock <= calls[0].now)
    modifies limiter
    ensures limiter.Valid() && limiter.history == Admitted(calls, limit)
    ensures |limited| == |calls| && forall i | 0 <= i < |calls| :: limited[i] <==> NaiveAnswer(calls, limit, i)
    ensures forall key: string, t: real :: WindowHolds(At(limiter.history, key), t, limit)
    ensures Bounded(limiter.windows, limit)
    ensures limit >= 1 ==> forall key | key in limiter.windows :: Recent(limiter.windows[key], limiter.clock)
  {
    limited := [];
    var n := 0;
    while n < |calls|
      invariant n == |limited| <= |calls| && limiter.Valid() && limiter.history == Admitted(calls[..n], limit)
      invariant n < |calls| ==> limiter.clock <= calls[n].now
      invariant forall i | 0 <= i < n :: limited[i] <==> NaiveAnswer(calls, limit, i)
      invariant Tidy(limiter.windows, limiter.lastCleanup, limiter.clock, limit)
    {
      var over := ServeNext(limiter, calls, n, limit);
      limited := limited + [over];
      n := n + 1;
    }
    assert calls[..|calls|] == calls;
    SlidingBoundForAll(calls, limit);
    if limit >= 1 && limiter.windows != map[] {
      RetainedKeysAreRecent(limiter.windows, limiter.lastCleanup, limiter.clock);
    }
  }
}
