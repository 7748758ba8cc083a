/**
 What is stored, row by row: the incident and the alert row of every answer that was not a duplicate hold the fields of
 the delivered alert, nothing else creates rows, and only a delete removes them.
 */
module IngestionRows {
  import opened Options
  import opened Ingestion
  import opened IngestionSafety

  /** The incident is stored with the fields of the alert, and exactly one alert row, which records it. */
  ghost predicate StoredFrom(s: Store, id: IncidentId, source: string, alert: Alert) {
    && id in s.incidents && Describes(s.incidents[id], source, alert)
    && exists r :: r in s.alerts && Records(r, id, source, alert) && OnlyRowOf(s, r)
  }

  ghost predicate OnlyRowOf(s: Store, r: AlertRow) {
    forall x | x in s.alerts && x.incident == r.incident :: x == r
  }

  lemma SoundRows(s: Store, origin: map<IncidentId, Origin>, id: IncidentId)
    requires Sound(s, origin) && id in s.incidents && id in origin
    ensures StoredFrom(s, id, origin[id].source, origin[id].alert)
  {
    var o := origin[id];
    var r := AlertOf(id, o);
    assert r in s.alerts && Records(r, id, o.source, o.alert);
    assert OnlyRowOf(s, r);
  }

  // ---------------------------------------------------------------- one alert taken alone

  lemma NewAlertRows(s: Store, o: Origin, id: IncidentId)
    ensures var rows := Bundle(id, o);
            && rows.incidents.Keys == {id} && Describes(rows.incidents[id], o.source, o.alert)
            && exists r :: rows.alerts == {r} && Records(r, id, o.source, o.alert)
  {
    assert Bundle(id, o).alerts == {AlertOf(id, o)};
    assert Records(AlertOf(id, o), id, o.source, o.alert);
  }

  // ---------------------------------------------------------------- answers and their alerts

  /** An answer that is not a duplicate names an incident that came from this alert. */
  ghost predicate Honest(origin: map<IncidentId, Origin>, source: string, alert: Alert, o: Outcome) {
    !o.duplicate ==> o.incident in origin && origin[o.incident].source == source && origin[o.incident].alert == alert
  }

  ghost predicate AllHonest(origin: map<IncidentId, Origin>, source: string, batch: seq<Alert>, results: seq<Outcome>) {
    |results| <= |batch| && forall j | 0 <= j < |results| :: Honest(origin, source, batch[j], results[j])
  }

  /** Every released incident was answered for. */
  ghost predicate Answered(rows: Store, results: seq<Outcome>) {
    forall i | i in rows.incidents :: Outcome(i, false) in results
  }

  ghost predicate TxHonest(origin: map<IncidentId, Origin>, tx: Tx) {
    AllHonest(origin, tx.source, tx.batch, tx.results) && Answered(tx.base, tx.results)
  }

  ghost predicate LogHonest(origin: map<IncidentId, Origin>, log: seq<CommittedBatch>) {
    forall k | 0 <= k < |log| :: |log[k].results| == |log[k].batch|
                                 && AllHonest(origin, log[k].source, log[k].batch, log[k].results)
  }

  ghost predicate InLog(log: seq<CommittedBatch>, i: IncidentId) {
    exists k :: 0 <= k < |log| && Outcome(i, false) in log[k].results
  }

  /** Stored incidents were there at the start or have been answered for. */
  ghost predicate Accounted(s0: Store, s: State) {
    forall i | i in s.store.incidents :: i in s0.incidents || InLog(s.log, i)
  }

  ghost predicate Kept(s0: Store, s: State) {
    && Safe(s) && (forall t | t in s.txs :: TxHonest(s.origin, s.txs[t]))
    && LogHonest(s.origin, s.log) && Accounted(s0, s)
  }

  ghost predicate Grows(origin: map<IncidentId, Origin>, more: map<IncidentId, Origin>) {
    origin.Keys <= more.Keys && forall i | i in origin :: more[i] == origin[i]
  }

  lemma HonestMore(origin: map<IncidentId, Origin>, more: map<IncidentId, Origin>,
                   source: string, batch: seq<Alert>, results: seq<Outcome>)
    requires Grows(origin, more) && AllHonest(origin, source, batch, results)
    ensures AllHonest(more, source, batch, results)
  {
    forall j | 0 <= j < |results| ensures Honest(more, source, batch[j], results[j]) {
      assert Honest(origin, source, batch[j], results[j]);
    }
  }

  lemma OriginGrows(s: State, a: Action)
    requires Enabled(s, a)
    ensures Grows(s.origin, Apply(s, a).origin)
  {
  }

  lemma OneMoreAnswer(
      origin: map<IncidentId, Origin>, source: string, batch: seq<Alert>, results: seq<Outcome>, o: Outcome)
    requires AllHonest(origin, source, batch, results) && |results| < |batch|
      && Honest(origin, source, batch[|results|], o)
    ensures AllHonest(origin, source, batch, results + [o])
  {
  }

  /** The statements of a transaction that answer nothing. */
  lemma SilentStep(s: State, a: Action)
    requires Safe(s) && Enabled(s, a) && (a.Check? || a.Reread? || a.InsertAlert? || a.CreateIncident?)
    requires TxHonest(s.origin, s.txs[a.t])
    ensures TxHonest(Apply(s, a).origin, Apply(s, a).txs[a.t])
  {
    var tx, tx' := s.txs[a.t], Apply(s, a).txs[a.t];
    assert tx'.source == tx.source && tx'.batch == tx.batch && tx'.results == tx.results && tx'.base == tx.base;
    OriginGrows(s, a);
    HonestMore(s.origin, Apply(s, a).origin, tx.source, tx.batch, tx.results);
  }

  lemma DuplicateStep(s: State, a: Action)
    requires Enabled(s, a) && a.ReadIncident? && TxHonest(s.origin, s.txs[a.t])
    ensures TxHonest(s.origin, Advance(s, a))
  {
    var tx := s.txs[a.t];
    OneMoreAnswer(s.origin, tx.source, tx.batch, tx.results, Outcome(tx.phase.incident, true));
  }

  /** The answer "not a duplicate" is given for the alert whose rows are released with it. */
  lemma CreatedStep(s: State, a: Action)
    requires Safe(s) && Enabled(s, a) && a.AttachLogs? && TxHonest(s.origin, s.txs[a.t])
    ensures TxHonest(s.origin, Advance(s, a))
  {
    var tx := s.txs[a.t];
    assert TxSafe(s.store, s.origin, tx);
    ReleaseAddsBundle(s, a);
    var o := Outcome(tx.phase.id, false);
    OneMoreAnswer(s.origin, tx.source, tx.batch, tx.results, o);
    forall i | i in Advance(s, a).base.incidents ensures Outcome(i, false) in tx.results + [o] {
      assert i in tx.base.incidents || i == tx.phase.id;
    }
  }

  lemma TxStep(s: State, a: Action)
    requires Safe(s) && Enabled(s, a) && !a.Begin? && !a.Commit? && !a.Abort? && !a.Delete?
    requires TxHonest(s.origin, s.txs[a.t])
    ensures TxHonest(Apply(s, a).origin, Apply(s, a).txs[a.t])
  {
    if a.ReadIncident? {
      DuplicateStep(s, a);
    } else if a.AttachLogs? {
      CreatedStep(s, a);
    } else {
      SilentStep(s, a);
    }
  }

  lemma LogMore(log: seq<CommittedBatch>, e: CommittedBatch, i: IncidentId)
    requires InLog(log, i) || Outcome(i, false) in e.results
    ensures InLog(log + [e], i)
  {
    if InLog(log, i) {
      var k :| 0 <= k < |log| && Outcome(i, false) in log[k].results;
      assert (log + [e])[k] == log[k];
    } else {
      assert (log + [e])[|log|] == e;
    }
  }

  lemma CommitStep(s0: Store, s: State, a: Action)
    requires Kept(s0, s) && Enabled(s, a) && a.Commit?
    ensures LogHonest(Apply(s, a).origin, Apply(s, a).log) && Accounted(s0, Apply(s, a))
  {
    var s', tx := Apply(s, a), s.txs[a.t];
    var e := CommittedBatch(tx.source, tx.batch, tx.ids, tx.results);
    assert TxSafe(s.store, s.origin, tx) && TxHonest(s.origin, tx);
    assert s'.log == s.log + [e] && tx.writes == tx.base;
    forall i | i in s'.store.incidents ensures i in s0.incidents || InLog(s'.log, i) {
      if i in tx.base.incidents || InLog(s.log, i) {
        LogMore(s.log, e, i);
      }
    }
  }

  lemma LogStays(origin: map<IncidentId, Origin>, more: map<IncidentId, Origin>, log: seq<CommittedBatch>)
    requires LogHonest(origin, log) && Grows(origin, more)
    ensures LogHonest(more, log)
  {
    forall k | 0 <= k < |log| ensures AllHonest(more, log[k].source, log[k].batch, log[k].results) {
      HonestMore(origin, more, log[k].source, log[k].batch, log[k].results);
    }
  }

  lemma OtherStays(s: State, a: Action, u: TxId)
    requires Enabled(s, a) && u in s.txs && u in Apply(s, a).txs && (a.Delete? || u != a.t)
    requires TxHonest(s.origin, s.txs[u])
    ensures TxHonest(Apply(s, a).origin, Apply(s, a).txs[u])
  {
    assert Apply(s, a).txs[u] == s.txs[u];
    OriginGrows(s, a);
    HonestMore(s.origin, Apply(s, a).origin, s.txs[u].source, s.txs[u].batch, s.txs[u].results);
  }

  lemma TxsStay(s: State, a: Action)
    requires Safe(s) && Enabled(s, a) && forall t | t in s.txs :: TxHonest(s.origin, s.txs[t])
    ensures forall t | t in Apply(s, a).txs :: TxHonest(Apply(s, a).origin, Apply(s, a).txs[t])
  {
    var s' := Apply(s, a);
    forall u | u in s'.txs ensures TxHonest(s'.origin, s'.txs[u]) {
      if u in s.txs && (a.Delete? || u != a.t) {
        OtherStays(s, a, u);
      } else if !a.Begin? {
        TxStep(s, a);
      }
    }
  }

  /** Only a commit adds to the log and to the stored incidents. */
  lemma LogStep(s0: Store, s: State, a: Action)
    requires Kept(s0, s) && Enabled(s, a)
    ensures LogHonest(Apply(s, a).origin, Apply(s, a).log) && Accounted(s0, Apply(s, a))
  {
    if a.Commit? {
      CommitStep(s0, s, a);
    } else {
      OriginGrows(s, a);
      LogStays(s.origin, Apply(s, a).origin, s.log);
      assert Apply(s, a).log == s.log && Apply(s, a).store.incidents.Keys <= s.store.incidents.Keys;
    }
  }

  lemma StepKeeps(s0: Store, s: State, a: Action)
    requires Kept(s0, s) && Enabled(s, a)
    ensures Kept(s0, Apply(s, a))
  {
    StepSafe(s, a);
    TxsStay(s, a);
    LogStep(s0, s, a);
  }

  lemma {:induction false} RunsKeep(s0: Store, s: State, run: seq<Action>)
    requires Kept(s0, s) && Feasible(s, run)
    ensures Kept(s0, Run(s, run))
    decreases |run|
  {
    if run != [] {
      StepKeeps(s0, s, run[0]);
      RunsKeep(s0, Apply(s, run[0]), run[1..]);
    }
  }

  /**
   Over every run, with aborts and deletes: the incident named by a committed answer that is not a duplicate, as long
   as it is stored, holds exactly what its alert delivered, and so does its one alert row; and there is no incident
   that was neither there at the start nor named by such an answer.
   */
  lemma StoredRowsAreDelivered(s: State, run: seq<Action>)
    requires s.txs == map[] && s.log == [] && Safe(s) && Feasible(s, run)
    ensures var end := Run(s, run);
            && (forall k, j | 0 <= k < |end.log| && 0 <= j < |end.log[k].results| ::
                  |end.log[k].results| == |end.log[k].batch|
                  && (!end.log[k].results[j].duplicate && end.log[k].results[j].incident in end.store.incidents ==>
                        StoredFrom(end.store, end.log[k].results[j].incident, end.log[k].source, end.log[k].batch[j])))
            && forall i | i in end.store.incidents :: i in s.store.incidents || InLog(end.log, i)
  {
    RunsKeep(s.store, s, run);
    var end := Run(s, run);
    forall k, j | 0 <= k < |end.log| && 0 <= j < |end.log[k].results|
      ensures |end.log[k].results| == |end.log[k].batch|
      ensures !end.log[k].results[j].duplicate && end.log[k].results[j].incident in end.store.incidents ==>
                StoredFrom(end.store, end.log[k].results[j].incident, end.log[k].source, end.log[k].batch[j])
    {
      var e := end.log[k];
      assert AllHonest(end.origin, e.source, e.batch, e.results);
      assert Honest(end.origin, e.source, e.batch[j], e.results[j]);
      if !e.results[j].duplicate && e.results[j].incident in end.store.incidents {
        SoundRows(end.store, end.origin, e.results[j].incident);
      }
    }
  }

  // ---------------------------------------------------------------- only a delete removes rows

  /** The incident and its alert rows are the same in both. */
  ghost predicate SameRows(before: Store, after: Store, id: IncidentId) {
    && id in before.incidents && id in after.incidents && after.incidents[id] == before.incidents[id]
    && forall r: AlertRow | r.incident == id :: r in after.alerts <==> r in before.alerts
  }

  lemma CommitLeaves(s: State, t: TxId, id: IncidentId)
    requires Safe(s) && Enabled(s, Commit(t)) && id in s.store.incidents
    ensures SameRows(s.store, Apply(s, Commit(t)).store, id)
  {
    var tx := s.txs[t];
    assert TxSafe(s.store, s.origin, tx);
    assert tx.writes == tx.base && id !in tx.base.incidents;
  }

  /** A deleted incident goes with all its rows. */
  lemma DeletedIsGone(s: State, id: IncidentId)
    requires Safe(s) && Enabled(s, Delete(id))
    ensures var s' := Apply(s, Delete(id));
            id !in s'.store.incidents && forall r | r in s'.store.alerts :: r.incident != id
  {
  }

  /** Rows that are committed stay as they are until their own incident is deleted. */
  lemma {:induction false} UndeletedStays(s: State, run: seq<Action>, id: IncidentId)
    requires Safe(s) && Feasible(s, run) && id in s.store.incidents && Delete(id) !in run
    ensures SameRows(s.store, Run(s, run).store, id)
    decreases |run|
  {
    if run != [] {
      var a := run[0];
      StepSafe(s, a);
      if a.Commit? {
        CommitLeaves(s, a.t, id);
      }
      assert SameRows(s.store, Apply(s, a).store, id);
      UndeletedStays(Apply(s, a), run[1..], id);
    }
  }
}
