/**
 The webhook handler for the writer that has the database to itself, as SQLite's BEGIN IMMEDIATE gives it: the
 loop over the batch, the savepoint of each alert, and the rollback of the whole batch on an error.
 */
module IngestionEndpoint {
  import opened Options
  import opened Ingestion
  import opened IngestionSafety
  import opened IngestionRows

  datatype Response = Response(incident: IncidentId, duplicate: bool, results: seq<Outcome>)

  /** What becomes of queueing an analysis: published, refused by the queue, or the incident was deleted meanwhile. */
  datatype Enqueue = Published | Unpublished | Gone

  /** A job row; `failed` is the report that the queue was not available. */
  datatype Job = Job(incident: IncidentId, failed: bool)

  datatype Reply = Rejected | NotQueued(incident: IncidentId, why: Enqueue) | Answered(response: Response)

  /** The incidents a batch created, in the order of its alerts: the ones announced after the commit. */
  function NewIncidents(results: seq<Outcome>): seq<IncidentId> {
    if results == [] then []
    else
      var o := results[|results| - 1];
      NewIncidents(results[..|results| - 1]) + if o.duplicate then [] else [o.incident]
  }

  lemma {:induction false} FailedPrefix(
    s: Store, source: string, batch: seq<Alert>, ids: seq<IncidentId>, k: nat, n: nat)
    requires k <= n <= |batch| && n <= |ids| && Sequential(s, source, batch, ids, k).None?
    ensures Sequential(s, source, batch, ids, n).None?
  {
    if k < n {
      FailedPrefix(s, source, batch, ids, k, n - 1);
    }
  }

  // ---------------------------------------------------------------- what a batch alone means

  /** The key is neither stored nor carried by an earlier alert of the batch. */
  ghost predicate IsNew(s: Store, source: string, batch: seq<Alert>, k: nat)
    requires k < |batch|
  {
    Key(source, batch[k].externalId) !in Keys(s) && forall j | 0 <= j < k :: batch[j].externalId != batch[k].externalId
  }

  /** An alert that would have to be created with more logs than allowed. */
  ghost predicate Rejected(s: Store, source: string, batch: seq<Alert>, k: nat)
    requires k < |batch|
  {
    IsNew(s, source, batch, k) && |batch[k].logs| > MAX_LOGS
  }

  ghost function BatchKeys(source: string, batch: seq<Alert>, n: nat): set<Key>
    requires n <= |batch|
  {
    set j | 0 <= j < n :: Key(source, batch[j].externalId)
  }

  lemma NewAfter(s: Store, now: Store, source: string, batch: seq<Alert>, k: nat)
    requires k < |batch| && Keys(now) == Keys(s) + BatchKeys(source, batch, k)
    ensures IsNew(s, source, batch, k) <==> Key(source, batch[k].externalId) !in Keys(now)
  {
    var key := Key(source, batch[k].externalId);
    if key in BatchKeys(source, batch, k) {
      var j :| 0 <= j < k && Key(source, batch[j].externalId) == key;
    } else {
      forall j | 0 <= j < k ensures batch[j].externalId != batch[k].externalId {
        assert Key(source, batch[j].externalId) in BatchKeys(source, batch, k);
      }
    }
  }

  lemma OneAlertKeys(s: Store, o: Origin, id: IncidentId)
    requires Grounded(s)
    ensures IngestOne(s, o, id).None? <==> KeyOf(o) !in Keys(s) && |o.alert.logs| > MAX_LOGS
    ensures IngestOne(s, o, id).Some? ==>
              var q := IngestOne(s, o, id).value;
              Grounded(q.0) && Keys(q.0) == Keys(s) + {KeyOf(o)} && (q.1.duplicate <==> KeyOf(o) in Keys(s))
  {
    LookupMisses(s, KeyOf(o));
    if KeyOf(o) !in Keys(s) {
      KeysUnion(s, Bundle(id, o));
      assert AlertOf(id, o) in Bundle(id, o).alerts;
      assert Keys(Bundle(id, o)) == {KeyOf(o)};
    }
  }

  ghost predicate NoneRejected(s: Store, source: string, batch: seq<Alert>, n: nat)
    requires n <= |batch|
  {
    forall k | 0 <= k < n :: !Rejected(s, source, batch, k)
  }

  /** The batch is answered by its keys: a duplicate is what was stored before or came earlier in the batch. */
  ghost predicate AnsweredByKeys(s: Store, source: string, batch: seq<Alert>, n: nat, p: Progress)
    requires n <= |batch|
  {
    && Grounded(p.store) && Keys(p.store) == Keys(s) + BatchKeys(source, batch, n)
    && |p.results| == n && forall k | 0 <= k < n :: p.results[k].duplicate <==> !IsNew(s, source, batch, k)
  }

  lemma RejectedMore(s: Store, source: string, batch: seq<Alert>, k: nat)
    requires k < |batch|
    ensures NoneRejected(s, source, batch, k + 1) <==>
            NoneRejected(s, source, batch, k) && !Rejected(s, source, batch, k)
  {
  }

  lemma NextAnswered(s: Store, source: string, batch: seq<Alert>, k: nat, p: Progress, id: IncidentId)
    requires k < |batch| && AnsweredByKeys(s, source, batch, k, p)
    ensures var q := IngestOne(p.store, Origin(source, batch[k]), id);
            && (q.None? <==> Rejected(s, source, batch, k))
            && (q.Some? ==> AnsweredByKeys(s, source, batch, k + 1, Progress(q.value.0, p.results + [q.value.1])))
  {
    var o := Origin(source, batch[k]);
    NewAfter(s, p.store, source, batch, k);
    OneAlertKeys(p.store, o, id);
    assert BatchKeys(source, batch, k + 1) == BatchKeys(source, batch, k) + {KeyOf(o)};
  }

  /** The batch fails exactly on a rejected alert, and is answered by its keys otherwise. */
  ghost predicate FollowsKeys(s: Store, source: string, batch: seq<Alert>, n: nat, r: Option<Progress>)
    requires n <= |batch|
  {
    (r.Some? <==> NoneRejected(s, source, batch, n)) && (r.Some? ==> AnsweredByKeys(s, source, batch, n, r.value))
  }

  ghost function OneMore(p: Progress, o: Origin, id: IncidentId): Option<Progress> {
    var q :- IngestOne(p.store, o, id);
    Some(Progress(q.0, p.results + [q.1]))
  }

  lemma FollowsKeysNext(s: Store, source: string, batch: seq<Alert>, k: nat, p: Progress, id: IncidentId)
    requires k < |batch| && FollowsKeys(s, source, batch, k, Some(p))
    ensures FollowsKeys(s, source, batch, k + 1, OneMore(p, Origin(source, batch[k]), id))
  {
    NextAnswered(s, source, batch, k, p, id);
    RejectedMore(s, source, batch, k);
  }

  /**
   What ingesting a batch alone comes to, without running it: it fails exactly when some alert with a new key has too
   many logs, an alert is a duplicate exactly when its key was stored or came earlier in the batch, and afterwards the
   stored keys are the old ones and those of the batch.
   */
  lemma {:induction false} BatchAlone(s: Store, source: string, batch: seq<Alert>, ids: seq<IncidentId>, n: nat)
    requires n <= |batch| && n <= |ids| && Grounded(s)
    ensures FollowsKeys(s, source, batch, n, Sequential(s, source, batch, ids, n))
  {
    if n > 0 {
      BatchAlone(s, source, batch, ids, n - 1);
      var front := Sequential(s, source, batch, ids, n - 1);
      if front.Some? {
        FollowsKeysNext(s, source, batch, n - 1, front.value, ids[n - 1]);
      } else {
        RejectedMore(s, source, batch, n - 1);
      }
    }
  }

  // ---------------------------------------------------------------- the handler

  lemma BundleKeepsUnique(s: Store, id: IncidentId, o: Origin)
    requires UniqueKeys(s) && Lookup(s, KeyOf(o)).None?
    ensures UniqueKeys(Union(s, Bundle(id, o)))
  {
  }

  lemma NewIncidentsMore(results: seq<Outcome>, o: Outcome)
    ensures NewIncidents(results + [o]) == NewIncidents(results) + if o.duplicate then [] else [o.incident]
  {
    assert (results + [o])[..|results|] == results;
  }

  lemma FewerThanResults(results: seq<Outcome>)
    ensures |NewIncidents(results)| <= |results|
  {
  }

  /** The created incidents are those of the answers that are not duplicates. */
  lemma {:induction false} NewIncidentsExactly(results: seq<Outcome>, i: IncidentId)
    ensures i in NewIncidents(results) <==> Outcome(i, false) in results
  {
    if results != [] {
      var front, last := results[..|results| - 1], results[|results| - 1];
      NewIncidentsExactly(front, i);
      assert results == front + [last];
    }
  }

  lemma AllNewIncidents(results: seq<Outcome>)
    ensures forall i :: i in NewIncidents(results) <==> Outcome(i, false) in results
  {
    forall i ensures i in NewIncidents(results) <==> Outcome(i, false) in results {
      NewIncidentsExactly(results, i);
    }
  }

  /** The first of n attempts to queue that fails. */
  function FirstFailure(enqueue: seq<Enqueue>, n: nat): (k: Option<nat>)
    requires n <= |enqueue|
    ensures k.None? <==> forall j | 0 <= j < n :: enqueue[j] == Published
    ensures k.Some? ==>
              k.value < n && enqueue[k.value] != Published && forall j | 0 <= j < k.value :: enqueue[j] == Published
  {
    if n == 0 then None
    else
      var before := FirstFailure(enqueue, n - 1);
      if before.Some? then before else if enqueue[n - 1] != Published then Some(n - 1) else None
  }

  lemma FirstFailureStays(enqueue: seq<Enqueue>, k: nat, n: nat)
    requires k < n <= |enqueue| && FirstFailure(enqueue, k) == None && enqueue[k] != Published
    ensures FirstFailure(enqueue, n) == Some(k)
  {
  }

  /** One more alert was taken. */
  lemma SequentialTaken(
    s: Store, source: string, batch: seq<Alert>, ids: seq<IncidentId>, p: Progress, after: Store, o: Outcome)
    requires |p.results| < |batch| == |ids|
    requires Sequential(s, source, batch, ids, |p.results|) == Some(p)
    requires IngestOne(p.store, Origin(source, batch[|p.results|]), ids[|p.results|]) == Some((after, o))
    ensures Sequential(s, source, batch, ids, |p.results| + 1) == Some(Progress(after, p.results + [o]))
  {
  }

  /** One alert was refused, and with it the batch. */
  lemma SequentialRefused(s: Store, source: string, batch: seq<Alert>, ids: seq<IncidentId>, p: Progress)
    requires |p.results| < |batch| == |ids|
    requires Sequential(s, source, batch, ids, |p.results|) == Some(p)
    requires IngestOne(p.store, Origin(source, batch[|p.results|]), ids[|p.results|]) == None
    ensures Sequential(s, source, batch, ids, |batch|) == None
  {
    FailedPrefix(s, source, batch, ids, |p.results| + 1, |batch|);
  }

  /** The stored alert rows with the key of the alert. */
  ghost function KeyedRows(s: Store, source: string, alert: Alert): set<AlertRow> {
    set r | r in s.alerts && r.key.source == source && r.key.externalId == alert.externalId
  }

  /** The alert is known, but the incident of its row is gone. */
  ghost predicate DanglingRow(s: Store, source: string, alert: Alert) {
    exists r :: r in KeyedRows(s, source, alert) && r.incident !in s.incidents
  }

  /** Exactly one incident and one alert row came in, with the fields of the alert. */
  ghost predicate AddedRows(before: Store, after: Store, id: IncidentId, source: string, alert: Alert) {
    && after.incidents.Keys == before.incidents.Keys + {id} && Describes(after.incidents[id], source, alert)
    && (forall i | i in before.incidents && i != id :: after.incidents[i] == before.incidents[i])
    && exists r :: after.alerts == before.alerts + {r} && Records(r, id, source, alert)
  }

  lemma KeyedRowsOf(s: Store, source: string, alert: Alert)
    ensures forall r | r in s.alerts :: r.key == KeyOf(Origin(source, alert)) <==> r in KeyedRows(s, source, alert)
  {
  }

  class JobQueue {
    var jobs: seq<Job>

    constructor ()
      ensures jobs == []
    {
      jobs := [];
    }

    /**
     After the commit, one analysis job per created incident, until one cannot be queued. `jobs` grows by one row for
     each that was published, and by a failed one for a refused publication.
     */
    method QueueAll(created: seq<IncidentId>, enqueue: seq<Enqueue>) returns (failed: Option<nat>)
      requires |created| <= |enqueue|
      modifies `jobs
      ensures failed == FirstFailure(enqueue, |created|)
      ensures var n := failed.GetOr(|created|);
              jobs == old(jobs) + seq(n, k requires 0 <= k < |created| => Job(created[k], false))
                      + if failed.Some? && enqueue[n] == Unpublished then [Job(created[n], true)] else []
    {
      ghost var before := jobs;
      var n := 0;
      while n < |created|
        invariant n <= |created| && FirstFailure(enqueue, n) == None
        invariant jobs == before + seq(n, k requires 0 <= k < |created| => Job(created[k], false))
      {
        match enqueue[n] {
          case Gone =>
            FirstFailureStays(enqueue, n, |created|);
            return Some(n);
          case Published => jobs := jobs + [Job(created[n], false)];
          case Unpublished =>
            jobs := jobs + [Job(created[n], false)];
            jobs := jobs[|jobs| - 1 := Job(created[n], true)];
            FirstFailureStays(enqueue, n, |created|);
            return Some(n);
        }
        n := n + 1;
      }
      return None;
    }
  }

  class Database {
    var store: Store

    constructor ()
      ensures store == EMPTY
    {
      store := EMPTY;
    }

    /** One alert in its own savepoint. `id` is the identifier drawn for a new incident. */
    method IngestAlert(source: string, alert: Alert, id: IncidentId) returns (r: Option<Outcome>)
      requires UniqueKeys(store)
      modifies this
      ensures UniqueKeys(store)
      ensures r.None? ==> IngestOne(old(store), Origin(source, alert), id) == None && store == old(store)
      ensures r.Some? ==> IngestOne(old(store), Origin(source, alert), id) == Some((store, r.value))
      ensures r.None? <==> DanglingRow(old(store), source, alert)
                           || (|alert.logs| > 1000 && KeyedRows(old(store), source, alert) == {})
      ensures r.Some? ==> (r.value.duplicate <==> KeyedRows(old(store), source, alert) != {})
      ensures r.Some? && r.value.duplicate ==>
                store == old(store)
                  && exists row :: row in KeyedRows(store, source, alert) && row.incident == r.value.incident
      ensures r.Some? && !r.value.duplicate ==>
                r.value.incident == id && AddedRows(old(store), store, id, source, alert)
    {
      var o := Origin(source, alert);
      KeyedRowsOf(store, source, alert);
      NewAlertRows(store, o, id);
      if exists row :: row in store.alerts && row.key == KeyOf(o) {
        var row :| row in store.alerts && row.key == KeyOf(o);
        LookupFinds(store, row);
        return if row.incident in store.incidents then Some(Outcome(row.incident, true)) else None;
      }
      if |alert.logs| > MAX_LOGS {
        return None;
      }
      BundleKeepsUnique(store, id, o);
      store := store.(incidents := store.incidents[id := BareIncident(o)]);
      store := store.(alerts := store.alerts + {AlertOf(id, o)});
      store := store.(incidents := store.incidents[id := WithLogs(store.incidents[id], alert.logs)]);
      assert store == Union(old(store), Bundle(id, o));
      return Some(Outcome(id, false));
    }

    /** The next alert of the batch, and its answer. */
    method StoreNext(
      source: string, batch: seq<Alert>, ids: seq<IncidentId>, results: seq<Outcome>, ghost before: Store)
      returns (one: Option<Outcome>)
      requires UniqueKeys(store) && |results| < |batch| == |ids|
      requires Sequential(before, source, batch, ids, |results|) == Some(Progress(store, results))
      modifies this
      ensures UniqueKeys(store)
      ensures one.Some? ==>
                Sequential(before, source, batch, ids, |results| + 1) == Some(Progress(store, results + [one.value]))
      ensures one.None? ==> Sequential(before, source, batch, ids, |batch|) == None
    {
      ghost var p := Progress(store, results);
      one := IngestAlert(source, batch[|results|], ids[|results|]);
      if one.Some? {
        SequentialTaken(before, source, batch, ids, p, store, one.value);
      } else {
        SequentialRefused(before, source, batch, ids, p);
      }
    }

    /** The loop over the batch; the first error rolls back everything. */
    method StoreAll(source: string, batch: seq<Alert>, ids: seq<IncidentId>)
      returns (stored: bool, results: seq<Outcome>, created: seq<IncidentId>)
      requires UniqueKeys(store) && |ids| == |batch|
      modifies this
      ensures UniqueKeys(store) && created == NewIncidents(results)
      ensures stored ==> Sequential(old(store), source, batch, ids, |batch|) == Some(Progress(store, results))
      ensures stored ==> |results| == |batch|
      ensures !stored ==> Sequential(old(store), source, batch, ids, |batch|) == None && store == old(store)
    {
      var before := store;
      results, created := [], [];
      while |results| < |batch|
        invariant |results| <= |batch| && UniqueKeys(store) && created == NewIncidents(results)
        invariant Sequential(before, source, batch, ids, |results|) == Some(Progress(store, results))
      {
        var one := StoreNext(source, batch, ids, results, before);
        if one.None? {
          store := before;
          return false, results, created;
        }
        NewIncidentsMore(results, one.value);
        results := results + [one.value];
        if !one.value.duplicate {
          created := created + [one.value.incident];
        }
      }
      return true, results, created;
    }

    /**
     The whole request. A rejected batch leaves the rows as they were. Otherwise all its alerts are stored and stay
     stored, also when the answer is an error because a created incident could not be queued for analysis; the
     notifications run after the response, so that error loses them.
     */
    method Ingest(
      source: string, batch: seq<Alert>, ids: seq<IncidentId>, autoAnalyze: bool, enqueue: seq<Enqueue>,
      queue: JobQueue)
      returns (reply: Reply, notified: seq<IncidentId>)
      requires UniqueKeys(store) && |ids| == |batch| == |enqueue|
      modifies this, queue
      ensures UniqueKeys(store)
      ensures reply.Rejected? <==>
                !(1 <= |batch| <= 100 && Sequential(old(store), source, batch, ids, |batch|).Some?)
      ensures reply.Rejected? ==> store == old(store) && queue.jobs == old(queue.jobs) && notified == []
      ensures !reply.Rejected? ==>
                var p := Sequential(old(store), source, batch, ids, |batch|).value;
                var created := NewIncidents(p.results);
                && store == p.store && |p.results| == |batch| && |created| <= |batch|
                && (forall i :: i in created <==> Outcome(i, false) in p.results)
                && (reply.Answered? <==> !autoAnalyze || forall k | 0 <= k < |created| :: enqueue[k] == Published)
                && (reply.Answered? ==>
                      && reply.response.results == p.results && reply.response.incident == p.results[0].incident
                      && (reply.response.duplicate <==> forall o | o in p.results :: o.duplicate)
                      && notified == created)
                && (reply.NotQueued? ==>
                      var n := FirstFailure(enqueue, |created|).value;
                      reply.incident == created[n] && reply.why == enqueue[n] && notified == [])
                && (!autoAnalyze ==> queue.jobs == old(queue.jobs))
                && (autoAnalyze && reply.Answered? ==>
                      queue.jobs == old(queue.jobs)
                                    + seq(|created|, k requires 0 <= k < |created| => Job(created[k], false)))
    {
      if |batch| == 0 || |batch| > MAX_BATCH {
        return Rejected, [];
      }
      var stored, results, created := StoreAll(source, batch, ids);
      if !stored {
        return Rejected, [];
      }
      FewerThanResults(results);
      AllNewIncidents(results);
      if autoAnalyze {
        var failed := queue.QueueAll(created, enqueue);
        if failed.Some? {
          return NotQueued(created[failed.value], enqueue[failed.value]), [];
        }
      }
      return Answered(Response(results[0].incident, forall o | o in results :: o.duplicate, results)), created;
    }
  }
}
