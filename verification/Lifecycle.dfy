/**
 The life of an incident row under PATCH requests: its status, the three instants that go with it, its stored vector,
 and the timeline events that record the changes. Updates of one row are serialised by its row lock.
 */
module Lifecycle {
  import opened Options

  datatype Status = Open | Acknowledged | Investigating | Resolved
  datatype Event = Created | StatusChanged(from: Status, to: Status) | Updated

  /** The fields a request supplies; at least one is. */
  datatype Update = Update(
    status: Option<Status>, title: Option<string>, severity: Option<string>, description: Option<string>)
  {
    predicate Supplied() {
      status.Some? || title.Some? || severity.Some? || description.Some?
    }
  }

  /** The status reached from open by the recorded changes, if each starts where the one before it ended. */
  function Replay(events: seq<Event>): Option<Status> {
    if events == [] then Some(Open)
    else
      var before :- Replay(events[..|events| - 1]);
      match events[|events| - 1]
      case StatusChanged(from, to) => if from == before && from != to then Some(to) else None
      case _ => Some(before)
  }

  predicate Acknowledging(e: Event) {
    e.StatusChanged? && (e.to == Acknowledged || e.to == Investigating)
  }

  /** When the incident was first acknowledged or investigated, by its whole history. */
  function FirstAcknowledged(events: seq<Event>, times: seq<int>): Option<int>
    requires |times| == |events|
  {
    if events == [] then None
    else
      var n := |events| - 1;
      var before := FirstAcknowledged(events[..n], times[..n]);
      if before.None? && Acknowledging(events[n]) then Some(times[n]) else before
  }

  /** When the last status change resolved the incident, if it did. */
  function LastResolved(events: seq<Event>, times: seq<int>): Option<int>
    requires |times| == |events|
  {
    if events == [] then None
    else
      var n := |events| - 1;
      if events[n].StatusChanged? then (if events[n].to == Resolved then Some(times[n]) else None)
      else LastResolved(events[..n], times[..n])
  }

  predicate Ordered(times: seq<int>) {
    forall i, j | 0 <= i < j < |times| :: times[i] <= times[j]
  }

  lemma {:induction false} PastOnly(events: seq<Event>, times: seq<int>)
    requires |times| == |events| && Ordered(times)
    ensures var a := FirstAcknowledged(events, times);
            a.Some? ==> events != [] && times[0] <= a.value <= times[|times| - 1]
    ensures var r := LastResolved(events, times);
            r.Some? ==> events != [] && times[0] <= r.value <= times[|times| - 1]
  {
    if events != [] {
      PastOnly(events[..|events| - 1], times[..|times| - 1]);
    }
  }

  /**
   Over every history whose status changes chain up: there is a resolution instant exactly when the incident ends
   resolved, an acknowledged or investigated incident has an acknowledgement instant, and that instant is never after
   the resolution.
   */
  lemma {:induction false} HistoryIsConsistent(events: seq<Event>, times: seq<int>)
    requires |times| == |events| && Ordered(times) && Replay(events).Some?
    ensures LastResolved(events, times).Some? <==> Replay(events) == Some(Resolved)
    ensures Replay(events).value == Acknowledged || Replay(events).value == Investigating ==>
              FirstAcknowledged(events, times).Some?
    ensures var a, r := FirstAcknowledged(events, times), LastResolved(events, times);
            a.Some? && r.Some? ==> a.value <= r.value
  {
    if events != [] {
      var n := |events| - 1;
      HistoryIsConsistent(events[..n], times[..n]);
      PastOnly(events[..n], times[..n]);
      assert n > 0 ==> times[..n][n - 1] == times[n - 1];
    }
  }

  /** The lifecycle columns of a row. */
  datatype Row = Row(
    status: Status, createdAt: int, updatedAt: int, acknowledgedAt: Option<int>, resolvedAt: Option<int>)

  /** The row is what its history says: the status replays, and both instants are those of the history. */
  ghost predicate Tells(events: seq<Event>, times: seq<int>, row: Row) {
    && |times| == |events| > 0 && Ordered(times) && times[0] == row.createdAt && times[|times| - 1] == row.updatedAt
    && Replay(events) == Some(row.status)
    && row.acknowledgedAt == FirstAcknowledged(events, times)
    && row.resolvedAt == LastResolved(events, times)
  }

  /** The event an update records. */
  function Recorded(from: Status, to: Status): Event {
    if from != to then StatusChanged(from, to) else Updated
  }

  /** The row after an event. */
  function After(row: Row, e: Event, now: int): Row {
    Row(if e.StatusChanged? then e.to else row.status, row.createdAt, now,
        if row.acknowledgedAt.None? && Acknowledging(e) then Some(now) else row.acknowledgedAt,
        if !e.StatusChanged? then row.resolvedAt else if e.to == Resolved then Some(now) else None)
  }

  lemma AfterTells(events: seq<Event>, times: seq<int>, row: Row, e: Event, now: int)
    requires Tells(events, times, row) && row.updatedAt <= now
    requires e.StatusChanged? ==> e.from == row.status && e.to != row.status
    ensures Tells(events + [e], times + [now], After(row, e, now))
    ensures After(row, e, now).resolvedAt.Some? <==> After(row, e, now).status == Resolved
    ensures row.acknowledgedAt.Some? ==> After(row, e, now).acknowledgedAt == row.acknowledgedAt
  {
    OneMoreEvent(events, times, e, now);
    HistoryIsConsistent(events + [e], times + [now]);
  }

  lemma OneMoreEvent(events: seq<Event>, times: seq<int>, e: Event, t: int)
    requires |times| == |events|
    ensures Replay(events + [e])
            == match Replay(events)
               case None => None
               case Some(s) => if !e.StatusChanged? then Some(s)
                               else if e.from == s && e.from != e.to then Some(e.to) else None
    ensures FirstAcknowledged(events + [e], times + [t])
            == var before := FirstAcknowledged(events, times);
               if before.None? && Acknowledging(e) then Some(t) else before
    ensures LastResolved(events + [e], times + [t])
            == if e.StatusChanged? then (if e.to == Resolved then Some(t) else None) else LastResolved(events, times)
  {
    assert (events + [e])[..|events|] == events && (times + [t])[..|times|] == times;
  }

  class Incident {
    var title: string
    var severity: string
    var description: string
    var status: Status
    var createdAt: int
    var updatedAt: int
    var acknowledgedAt: Option<int>
    var resolvedAt: Option<int>
    var embedded: bool
    var events: seq<Event>
    /** The instants of the requests that recorded the events. */
    ghost var times: seq<int>

    function Columns(): Row
      reads this
    {
      Row(status, createdAt, updatedAt, acknowledgedAt, resolvedAt)
    }

    ghost predicate Valid()
      reads this
    {
      Tells(events, times, Columns())
    }

    constructor (title: string, severity: string, description: string, now: int)
      ensures Valid() && status == Open && events == [Created] && createdAt == now
      ensures this.title == title && this.severity == severity && this.description == description && !embedded
    {
      this.title, this.severity, this.description := title, severity, description;
      status := Open;
      createdAt, updatedAt := now, now;
      acknowledgedAt, resolvedAt := None, None;
      embedded := false;
      events := [Created];
      times := [now];
      new;
      assert [Created][..0] == [] && [now][..0] == [];
    }

    /** The status of the request takes effect, with the instants and the event that go with it. */
    method Move(to: Status, now: int)
      requires Valid() && updatedAt <= now
      modifies `status, `updatedAt, `acknowledgedAt, `resolvedAt, `events, `times
      ensures Valid() && status == to
      ensures events == old(events) + [Recorded(old(status), to)] && times == old(times) + [now]
      ensures Columns() == After(old(Columns()), Recorded(old(status), to), now)
    {
      ghost var e := Recorded(status, to);
      AfterTells(events, times, Columns(), e, now);
      var oldStatus := status;
      status := to;
      updatedAt := now;
      if oldStatus != to {
        if (to == Acknowledged || to == Investigating) && acknowledgedAt.None? {
          acknowledgedAt := Some(now);
        }
        resolvedAt := if to == Resolved then Some(now) else None;
        events := events + [StatusChanged(oldStatus, to)];
      } else {
        events := events + [Updated];
      }
      times := times + [now];
      assert events == old(events) + [e];
      assert Columns() == After(old(Columns()), e, now);
    }

    /** update_incident with a clock that does not run backwards. */
    method Patch(u: Update, now: int)
      requires Valid() && updatedAt <= now && u.Supplied()
      modifies this
      ensures Valid() && times == old(times) + [now]
      ensures status == u.status.GetOr(old(status)) && title == u.title.GetOr(old(title))
      ensures severity == u.severity.GetOr(old(severity)) && description == u.description.GetOr(old(description))
      ensures events == old(events) + [Recorded(old(status), status)]
      ensures Columns() == After(old(Columns()), Recorded(old(status), status), now)
      // A changed text makes the stored vector stale.
      ensures embedded <==> old(embedded) && u.title.GetOr("") == "" && u.description.None?
    {
      Move(u.status.GetOr(status), now);
      title, severity := u.title.GetOr(title), u.severity.GetOr(severity);
      description := u.description.GetOr(description);
      if u.title.GetOr("") != "" || u.description.Some? {
        embedded := false;
      }
    }
  }
}
