/**
 Serialisability in commit order. In a run without deletes every committed batch answered, and wrote, exactly what
 it would have answered and written had it been ingested alone on the rows committed before it. The rows at the
 end are therefore the committed batches replayed one after the other.
 */
module IngestionSerial {
  import opened Options
  import opened Ingestion
  import opened IngestionSafety

  /** What an open transaction has done so far is what it would do alone on the rows committed now. */
  ghost predicate Serial(store: Store, tx: Tx)
    requires |tx.results| <= |tx.batch| && |tx.ids| == |tx.results|
  {
    Sequential(store, tx.source, tx.batch, tx.ids, |tx.results|) == Some(Progress(Union(store, tx.base), tx.results))
  }

  /** What the phase remembers about the current alert still holds. */
  ghost predicate PhaseTrue(store: Store, tx: Tx) {
    match tx.phase
    case Checking => true
    case Found(i) =>
      |tx.results| < |tx.batch|
      && exists r :: r in Union(store, tx.base).alerts && r.key == KeyOf(tx.Current()) && r.incident == i
    case Missing => |tx.results| < |tx.batch| && KeyOf(tx.Current()) !in Keys(tx.base)
    case Inserting(_) =>
      |tx.results| < |tx.batch| && KeyOf(tx.Current()) !in Keys(tx.base) && |tx.Current().alert.logs| <= MAX_LOGS
    case Attaching(_) => |tx.results| < |tx.batch| && |tx.Current().alert.logs| <= MAX_LOGS
    case Lost => |tx.results| < |tx.batch| && KeyOf(tx.Current()) in Keys(store)
  }

  ghost predicate TxSerial(store: Store, tx: Tx) {
    |tx.results| <= |tx.batch| && |tx.ids| == |tx.results| && Serial(store, tx) && PhaseTrue(store, tx)
  }

  ghost predicate Serialised(s0: Store, s: State) {
    && Safe(s)
    && (forall t | t in s.txs :: TxSerial(s.store, s.txs[t]))
    && Replay(s0, s.log) == Some(s.store)
  }

  // ---------------------------------------------------------------- Sequential is stable when others commit

  /** Only the identifiers up to n matter. */
  lemma {:induction false} SequentialPrefix(
    s: Store, source: string, batch: seq<Alert>, ids: seq<IncidentId>, more: seq<IncidentId>, n: nat)
    requires n <= |batch| && n <= |ids|
    ensures Sequential(s, source, batch, ids + more, n) == Sequential(s, source, batch, ids, n)
  {
    if n > 0 {
      SequentialPrefix(s, source, batch, ids, more, n - 1);
    }
  }

  /** After an alert was taken, its key is in the store; nothing is ever removed. */
  lemma OneGrows(s: Store, o: Origin, id: IncidentId)
    requires IngestOne(s, o, id).Some?
    ensures var s' := IngestOne(s, o, id).value.0;
            && s.alerts <= s'.alerts && s.incidents.Keys <= s'.incidents.Keys
            && KeyOf(o) in Keys(s') && Keys(s) <= Keys(s')
  {
    LookupMisses(s, KeyOf(o));
    if Lookup(s, KeyOf(o)).None? {
      assert AlertOf(id, o) in IngestOne(s, o, id).value.0.alerts;
    }
  }

  lemma UnionSwap(p: Store, b: Store, d: Store)
    requires b.incidents.Keys !! d.incidents.Keys
    ensures Union(Union(p, b), d) == Union(Union(p, d), b)
  {
    assert Union(Union(p, b), d).alerts == Union(Union(p, d), b).alerts;
    assert Union(Union(p, b), d).incidents == Union(Union(p, d), b).incidents;
  }

  /** Rows with other keys and other identifiers do not change how one alert is taken. */
  lemma OneStable(s: Store, d: Store, o: Origin, id: IncidentId)
    requires IngestOne(s, o, id).Some? && Apart(IngestOne(s, o, id).value.0, d) && UniqueKeys(s)
    ensures var q := IngestOne(s, o, id).value;
            IngestOne(Union(s, d), o, id) == Some((Union(q.0, d), q.1))
  {
    OneGrows(s, o, id);
    LookupMisses(s, KeyOf(o));
    KeysUnion(s, d);
    LookupMisses(Union(s, d), KeyOf(o));
    if r :| r in s.alerts && r.key == KeyOf(o) {
      LookupFinds(s, r);
      forall x | x in Union(s, d).alerts && x.key == r.key ensures x == r {
        assert x in d.alerts ==> x.key in Keys(d);
      }
      assert r in Union(s, d).alerts;
    } else {
      assert id in IngestOne(s, o, id).value.0.incidents;
      UnionSwap(s, Bundle(id, o), d);
    }
  }

  lemma {:induction false} SequentialStable(
    s: Store, d: Store, source: string, batch: seq<Alert>, ids: seq<IncidentId>, n: nat)
    requires n <= |batch| && n <= |ids|
    requires Sequential(s, source, batch, ids, n).Some?
    requires var p := Sequential(s, source, batch, ids, n).value; Apart(p.store, d) && UniqueKeys(p.store)
    ensures var p := Sequential(s, source, batch, ids, n).value;
            Sequential(Union(s, d), source, batch, ids, n) == Some(Progress(Union(p.store, d), p.results))
  {
    if n > 0 {
      var p := Sequential(s, source, batch, ids, n - 1).value;
      var o := Origin(source, batch[n - 1]);
      OneGrows(p.store, o, ids[n - 1]);
      SequentialStable(s, d, source, batch, ids, n - 1);
      OneStable(p.store, d, o, ids[n - 1]);
    }
  }

  // ---------------------------------------------------------------- one step

  /** A transaction that did not move stays serial when another one commits. */
  lemma OthersCommit(s: State, t: TxId, u: TxId)
    requires Safe(s) && t in s.txs && u in s.txs && t != u && s.txs[t].phase == Checking
    requires TxSerial(s.store, s.txs[u])
    ensures TxSerial(Union(s.store, s.txs[t].writes), s.txs[u])
  {
    var d, tx := s.txs[t].writes, s.txs[u];
    assert TxSafe(s.store, s.origin, s.txs[t]) && TxSafe(s.store, s.origin, tx);
    assert Apart(d, tx.writes);
    BaseWithin(s, u);
    assert Apart(s.store, tx.base) && Apart(d, tx.base);
    SoundUnion(s.store, tx.base, s.origin);
    KeysUnion(s.store, tx.base);
    assert Apart(Union(s.store, tx.base), d);
    SequentialStable(s.store, d, tx.source, tx.batch, tx.ids, |tx.results|);
    UnionSwap(s.store, tx.base, d);
    KeysUnion(s.store, d);
    if tx.phase.Found? {
      var r :| r in Union(s.store, tx.base).alerts && r.key == KeyOf(tx.Current()) && r.incident == tx.phase.incident;
      assert r in Union(Union(s.store, d), tx.base).alerts;
    }
  }

  lemma BaseWithin(s: State, t: TxId)
    requires Safe(s) && t in s.txs
    ensures s.txs[t].base.alerts <= s.txs[t].writes.alerts
    ensures s.txs[t].base.incidents.Keys <= s.txs[t].writes.incidents.Keys
    ensures Keys(s.txs[t].base) <= Keys(s.txs[t].writes)
  {
    var tx := s.txs[t];
    assert TxSafe(s.store, s.origin, tx);
    assert tx.base.alerts <= tx.writes.alerts;
  }

  /** One more alert taken by the protocol is one more step of the sequential ingestion. */
  lemma Extend(store: Store, tx: Tx, tx': Tx, id: IncidentId, outcome: Outcome)
    requires |tx.results| < |tx.batch| && |tx.ids| == |tx.results| && Serial(store, tx)
    requires tx'.source == tx.source && tx'.batch == tx.batch
    requires tx'.ids == tx.ids + [id] && tx'.results == tx.results + [outcome]
    requires IngestOne(Union(store, tx.base), tx.Current(), id) == Some((Union(store, tx'.base), outcome))
    ensures Serial(store, tx')
  {
    SequentialPrefix(store, tx.source, tx.batch, tx.ids, [id], |tx.results|);
  }

  /** The row that was found is still what the lookup finds. */
  lemma FoundStays(s: State, t: TxId)
    requires Safe(s) && t in s.txs && s.txs[t].phase.Found? && PhaseTrue(s.store, s.txs[t])
    ensures var tx := s.txs[t];
            && Lookup(Union(s.store, tx.base), KeyOf(tx.Current())) == Some(tx.phase.incident)
            && tx.phase.incident in Union(s.store, tx.base).incidents
  {
    var tx := s.txs[t];
    assert TxSafe(s.store, s.origin, tx);
    var seen := Union(s.store, tx.base);
    var r :| r in seen.alerts && r.key == KeyOf(tx.Current()) && r.incident == tx.phase.incident;
    SoundUnion(s.store, tx.base, s.origin);
    LookupFinds(seen, r);
  }

  lemma DuplicateSerial(s: State, a: Action)
    requires Safe(s) && Enabled(s, a) && a.ReadIncident? && TxSerial(s.store, s.txs[a.t])
    ensures TxSerial(s.store, Advance(s, a))
  {
    var tx := s.txs[a.t];
    FoundStays(s, a.t);
    Extend(s.store, tx, Advance(s, a), 0, Outcome(tx.phase.incident, true));
  }

  lemma UnionAssociative(x: Store, y: Store, z: Store)
    ensures Union(Union(x, y), z) == Union(x, Union(y, z))
  {
    assert Union(Union(x, y), z).alerts == Union(x, Union(y, z)).alerts;
    assert Union(Union(x, y), z).incidents == Union(x, Union(y, z)).incidents;
  }

  /** A savepoint is released only while its key is in neither the committed nor the released rows. */
  lemma HeldKeyIsNew(s: State, t: TxId)
    requires Safe(s) && t in s.txs && s.txs[t].phase.Attaching? && |s.txs[t].results| < |s.txs[t].batch|
    ensures Lookup(Union(s.store, s.txs[t].base), KeyOf(s.txs[t].Current())) == None
  {
    var tx := s.txs[t];
    assert TxSafe(s.store, s.origin, tx);
    assert KeyOf(tx.Current()) in Keys(tx.writes) by {
      assert AlertOf(tx.phase.id, tx.Current()) in tx.writes.alerts;
    }
    KeysUnion(s.store, tx.base);
    LookupMisses(Union(s.store, tx.base), KeyOf(tx.Current()));
  }

  lemma CreatedSerial(s: State, a: Action)
    requires Safe(s) && Enabled(s, a) && a.AttachLogs? && TxSerial(s.store, s.txs[a.t])
    ensures TxSerial(s.store, Advance(s, a))
  {
    var tx, tx' := s.txs[a.t], Advance(s, a);
    HeldKeyIsNew(s, a.t);
    ReleaseAddsBundle(s, a);
    UnionAssociative(s.store, tx.base, Bundle(tx.phase.id, tx.Current()));
    Extend(s.store, tx, tx', tx.phase.id, Outcome(tx.phase.id, false));
  }

  /** Outside a savepoint a transaction's writes are the released ones. */
  lemma SeesReleased(s: State, t: TxId)
    requires Safe(s) && t in s.txs && !s.txs[t].phase.Inserting? && !s.txs[t].phase.Attaching?
    ensures s.txs[t].writes == s.txs[t].base
  {
    assert TxSafe(s.store, s.origin, s.txs[t]);
  }

  lemma CheckSerial(s: State, a: Action)
    requires Safe(s) && Enabled(s, a) && a.Check? && TxSerial(s.store, s.txs[a.t])
    ensures TxSerial(s.store, Advance(s, a))
  {
    var tx := s.txs[a.t];
    SeesReleased(s, a.t);
    KeysUnion(s.store, tx.base);
    LookupMisses(Visible(s, a.t), KeyOf(tx.Current()));
    SameSerial(s.store, tx, Advance(s, a));
  }

  lemma RereadSerial(s: State, a: Action)
    requires Safe(s) && Enabled(s, a) && a.Reread? && TxSerial(s.store, s.txs[a.t])
    ensures TxSerial(s.store, Advance(s, a))
  {
    SeesReleased(s, a.t);
    SameSerial(s.store, s.txs[a.t], Advance(s, a));
  }

  /** Serial speaks only of what was released. */
  lemma SameSerial(store: Store, tx: Tx, tx': Tx)
    requires |tx.results| <= |tx.batch| && |tx.ids| == |tx.results| && Serial(store, tx)
    requires tx'.source == tx.source && tx'.batch == tx.batch && tx'.base == tx.base
    requires tx'.ids == tx.ids && tx'.results == tx.results
    ensures Serial(store, tx')
  {
  }

  lemma OpenSerial(s: State, a: Action)
    requires Enabled(s, a) && a.CreateIncident? && TxSerial(s.store, s.txs[a.t])
    ensures TxSerial(s.store, Apply(s, a).txs[a.t])
  {
    SameSerial(s.store, s.txs[a.t], OpenSavepoint(s.txs[a.t], a.id));
  }

  /** The rejected key is a committed one. */
  lemma RejectedKeyIsCommitted(s: State, t: TxId)
    requires Safe(s) && t in s.txs && s.txs[t].phase.Inserting? && PhaseTrue(s.store, s.txs[t])
    requires KeyOf(s.txs[t].Current()) in Keys(Visible(s, t))
    ensures KeyOf(s.txs[t].Current()) in Keys(s.store)
  {
    var tx := s.txs[t];
    assert SavepointShape(tx, s.origin) by {
      assert TxSafe(s.store, s.origin, tx);
    }
    assert tx.writes.alerts == tx.base.alerts;
    KeysUnion(s.store, tx.writes);
  }

  lemma InsertSerial(s: State, a: Action)
    requires Safe(s) && Enabled(s, a) && a.InsertAlert? && TxSerial(s.store, s.txs[a.t])
    ensures TxSerial(s.store, Advance(s, a))
  {
    SameSerial(s.store, s.txs[a.t], Advance(s, a));
    if KeyOf(s.txs[a.t].Current()) in Keys(Visible(s, a.t)) {
      RejectedKeyIsCommitted(s, a.t);
    }
  }

  lemma CommitSerial(s0: Store, s: State, a: Action)
    requires Serialised(s0, s) && Enabled(s, a) && a.Commit?
    ensures Serialised(s0, Apply(s, a))
  {
    var s' := Apply(s, a);
    var tx := s.txs[a.t];
    assert TxSafe(s.store, s.origin, tx) && TxSerial(s.store, tx);
    StepSafe(s, a);
    assert s'.log[..|s'.log| - 1] == s.log;
    forall u | u in s'.txs ensures TxSerial(s'.store, s'.txs[u]) {
      assert u != a.t && s'.txs[u] == s.txs[u];
      OthersCommit(s, a.t, u);
    }
  }

  /** A step that only moves transaction t. */
  lemma LocalSerial(s0: Store, s: State, s': State, t: TxId)
    requires Serialised(s0, s) && Safe(s') && s'.store == s.store && s'.log == s.log
    requires t in s'.txs && s'.txs == s.txs[t := s'.txs[t]] && TxSerial(s.store, s'.txs[t])
    ensures Serialised(s0, s')
  {
  }

  lemma TxStepSerial(s: State, a: Action)
    requires Safe(s) && Enabled(s, a) && !a.Begin? && !a.Commit? && !a.Abort? && !a.Delete?
    requires TxSerial(s.store, s.txs[a.t])
    ensures a.t in Apply(s, a).txs && TxSerial(s.store, Apply(s, a).txs[a.t])
  {
    match a
    case ReadIncident(_) => DuplicateSerial(s, a);
    case AttachLogs(_) => CreatedSerial(s, a);
    case Check(_) => CheckSerial(s, a);
    case Reread(_) => RereadSerial(s, a);
    case CreateIncident(_, _) => OpenSerial(s, a);
    case InsertAlert(_) => InsertSerial(s, a);
  }

  lemma BeginSerial(store: Store, source: string, batch: seq<Alert>)
    ensures TxSerial(store, Tx(source, batch, EMPTY, EMPTY, [], [], Checking))
  {
    assert Union(store, EMPTY) == store;
  }

  lemma StepSerial(s0: Store, s: State, a: Action)
    requires Serialised(s0, s) && Enabled(s, a) && !a.Delete?
    ensures Serialised(s0, Apply(s, a))
  {
    StepSafe(s, a);
    if a.Commit? {
      CommitSerial(s0, s, a);
    } else if a.Begin? {
      BeginSerial(s.store, a.source, a.batch);
      LocalSerial(s0, s, Apply(s, a), a.t);
    } else if !a.Abort? {
      TxStepSerial(s, a);
      LocalSerial(s0, s, Apply(s, a), a.t);
    }
  }

  // ---------------------------------------------------------------- whole runs

  predicate Quiet(s: State) {
    s.txs == map[] && s.log == []
  }

  lemma {:induction false} RunsStaySerialised(s0: Store, s: State, run: seq<Action>)
    requires Serialised(s0, s) && Feasible(s, run) && DeleteFree(run)
    ensures Serialised(s0, Run(s, run))
    decreases |run|
  {
    if run != [] {
      StepSerial(s0, s, run[0]);
      assert DeleteFree(run[1..]);
      RunsStaySerialised(s0, Apply(s, run[0]), run[1..]);
    }
  }

  /** The rows after any delete-free run are those of replaying its committed batches, alone, in commit order. */
  lemma SerialisableInCommitOrder(s: State, run: seq<Action>)
    requires Quiet(s) && Safe(s) && Feasible(s, run) && DeleteFree(run)
    ensures Replay(s.store, Run(s, run).log) == Some(Run(s, run).store)
  {
    RunsStaySerialised(s.store, s, run);
  }

  /** The committed batches so far are those of the replay so far. */
  lemma {:induction false} ReplayPrefix(s0: Store, log: seq<CommittedBatch>, k: nat)
    requires Replay(s0, log).Some? && k < |log|
    ensures Replay(s0, log[..k]).Some? && Replay(s0, log[..k + 1]).Some?
    ensures AnsweredAlone(Replay(s0, log[..k]).value, log[k], Replay(s0, log[..k + 1]).value)
  {
    if k == |log| - 1 {
      assert log[..k + 1] == log;
    } else {
      var front := log[..|log| - 1];
      ReplayPrefix(s0, front, k);
      assert front[..k] == log[..k] && front[..k + 1] == log[..k + 1];
    }
  }

  /** Ingested alone on `before`, the batch gives these answers and leaves `after`. */
  ghost predicate AnsweredAlone(before: Store, e: CommittedBatch, after: Store) {
    |e.ids| == |e.batch| && Sequential(before, e.source, e.batch, e.ids, |e.batch|) == Some(Progress(after, e.results))
  }

  /** Step i of the run is the commit of the batch that is number k in the log. */
  ghost predicate CommitPoint(s: State, run: seq<Action>, k: nat, i: nat) {
    && i < |run| && run[i].Commit?
    && Feasible(s, run[..i]) && |Run(s, run[..i]).log| == k
    && Feasible(s, run[..i + 1])
  }

  lemma {:induction false} RunPrefix(s: State, run: seq<Action>, i: nat)
    requires Feasible(s, run) && i <= |run|
    ensures Feasible(s, run[..i]) && Run(s, run[..i]).log <= Run(s, run).log
    ensures i < |run| ==> Enabled(Run(s, run[..i]), run[i]) && Feasible(s, run[..i + 1])
                          && Run(s, run[..i + 1]) == Apply(Run(s, run[..i]), run[i])
    decreases i
  {
    if i == 0 {
      LogGrows(s, run);
      assert i < |run| ==> run[..1] == [run[0]] && Run(s, [run[0]]) == Apply(s, run[0]);
    } else {
      var rest := run[1..];
      RunPrefix(Apply(s, run[0]), rest, i - 1);
      assert run[..i][0] == run[0] && run[..i][1..] == rest[..i - 1];
      if i < |run| {
        assert run[..i + 1][0] == run[0] && run[..i + 1][1..] == rest[..i] && rest[i - 1] == run[i];
      }
    }
  }

  lemma {:induction false} LogGrows(s: State, run: seq<Action>)
    requires Feasible(s, run)
    ensures s.log <= Run(s, run).log
    decreases |run|
  {
    if run != [] {
      LogGrows(Apply(s, run[0]), run[1..]);
    }
  }

  /** Every committed batch has its commit in the run. */
  lemma {:induction false} CommitExists(s: State, run: seq<Action>, k: nat, n: nat)
    requires Feasible(s, run) && n <= |run| && |s.log| <= k && Feasible(s, run[..n]) && k < |Run(s, run[..n]).log|
    ensures exists i: nat :: CommitPoint(s, run, k, i)
  {
    if n > 0 {
      RunPrefix(s, run, n - 1);
      var before := Run(s, run[..n - 1]);
      if k < |before.log| {
        CommitExists(s, run, k, n - 1);
      } else {
        assert CommitPoint(s, run, k, n - 1);
      }
    }
  }

  /** The rows before and after a commit point are those of the replay before and after its batch. */
  lemma AloneAtCommit(s: State, run: seq<Action>, k: nat, i: nat)
    requires Quiet(s) && Safe(s) && Feasible(s, run) && DeleteFree(run) && CommitPoint(s, run, k, i)
    ensures k < |Run(s, run).log|
    ensures AnsweredAlone(Run(s, run[..i]).store, Run(s, run).log[k], Run(s, run[..i + 1]).store)
  {
    RunPrefix(s, run, i);
    RunPrefix(s, run, i + 1);
    var before, after := Run(s, run[..i]), Run(s, run[..i + 1]);
    SerialisableInCommitOrder(s, run[..i]);
    SerialisableInCommitOrder(s, run[..i + 1]);
    assert after.log[..k] == before.log && after.log[..k + 1] == after.log;
    ReplayPrefix(s.store, after.log, k);
  }

  /**
   Every committed batch has a commit point in the run, and it answered, and wrote, exactly what it would have answered
   and written had it been ingested alone on the rows committed just before that point.
   */
  lemma EachBatchAnswersAlone(s: State, run: seq<Action>, k: nat)
    requires Quiet(s) && Safe(s) && Feasible(s, run) && DeleteFree(run) && k < |Run(s, run).log|
    ensures exists i: nat :: CommitPoint(s, run, k, i)
    ensures forall i: nat | CommitPoint(s, run, k, i) ::
              AnsweredAlone(Run(s, run[..i]).store, Run(s, run).log[k], Run(s, run[..i + 1]).store)
  {
    assert run[..|run|] == run;
    CommitExists(s, run, k, |run|);
    forall i: nat | CommitPoint(s, run, k, i)
      ensures AnsweredAlone(Run(s, run[..i]).store, Run(s, run).log[k], Run(s, run[..i + 1]).store)
    {
      AloneAtCommit(s, run, k, i);
    }
  }

  /** The statement the handler of transaction t runs next; `unused` is the identifier drawn if one is needed. */
  function Next(tx: Tx, t: TxId, unused: IncidentId): Action {
    match tx.phase
    case Checking => if |tx.results| < |tx.batch| then Check(t) else Commit(t)
    case Found(_) => ReadIncident(t)
    case Missing => CreateIncident(t, unused)
    case Inserting(_) => InsertAlert(t)
    case Attaching(_) => AttachLogs(t)
    case Lost => Reread(t)
  }

  ghost predicate WaitsForKey(s: State, t: TxId)
    requires t in s.txs && |s.txs[t].results| < |s.txs[t].batch|
  {
    s.txs[t].phase.Inserting? && HeldByOther(s, t, KeyOf(s.txs[t].Current()))
  }

  predicate TooManyLogs(tx: Tx)
    requires |tx.results| < |tx.batch|
  {
    tx.phase.Missing? && |tx.Current().alert.logs| > MAX_LOGS
  }

  lemma RereadFinds(s: State, t: TxId)
    requires Safe(s) && t in s.txs && TxSerial(s.store, s.txs[t]) && s.txs[t].phase.Lost?
    ensures Enabled(s, Reread(t))
  {
    var tx := s.txs[t];
    KeysUnion(s.store, tx.writes);
    LookupMisses(Visible(s, t), KeyOf(tx.Current()));
  }

  lemma FoundIncidentExists(s: State, t: TxId)
    requires Safe(s) && t in s.txs && TxSerial(s.store, s.txs[t]) && s.txs[t].phase.Found?
    ensures Enabled(s, ReadIncident(t))
  {
    FoundStays(s, t);
    SeesReleased(s, t);
  }

  lemma AttachingCanRelease(s: State, t: TxId)
    requires Safe(s) && t in s.txs && TxSerial(s.store, s.txs[t]) && s.txs[t].phase.Attaching?
    ensures Enabled(s, AttachLogs(t))
  {
    assert TxSafe(s.store, s.origin, s.txs[t]);
  }

  lemma NextEnabled(s: State, t: TxId, unused: IncidentId)
    requires Safe(s) && t in s.txs && TxSerial(s.store, s.txs[t]) && unused !in s.origin && unused !in s.store.incidents
    ensures Enabled(s, Next(s.txs[t], t, unused)) <==>
            |s.txs[t].results| == |s.txs[t].batch| || !(WaitsForKey(s, t) || TooManyLogs(s.txs[t]))
  {
    match s.txs[t].phase
    case Lost => RereadFinds(s, t);
    case Found(_) => FoundIncidentExists(s, t);
    case Attaching(_) => AttachingCanRelease(s, t);
    case _ =>
  }

  /**
   Without deletes the two "row has vanished" errors cannot happen: an open transaction is stopped only by a key
   another open transaction holds, or by an alert with too many logs.
   */
  lemma StoppedOnlyByHeldKey(s0: Store, s: State, t: TxId, unused: IncidentId)
    requires Serialised(s0, s) && t in s.txs && unused !in s.origin && unused !in s.store.incidents
    ensures Enabled(s, Next(s.txs[t], t, unused)) <==>
            |s.txs[t].results| == |s.txs[t].batch| || !(WaitsForKey(s, t) || TooManyLogs(s.txs[t]))
  {
    assert TxSerial(s.store, s.txs[t]);
    NextEnabled(s, t, unused);
  }

  // ---------------------------------------------------------------- exactly one incident per key

  /** How many of the first n alerts of a batch created an incident for this key. */
  function Wins(e: CommittedBatch, key: Key, n: nat): nat
    requires n <= |e.batch| && n <= |e.results|
  {
    if n == 0 then 0
    else Wins(e, key, n - 1)
         + (if Key(e.source, e.batch[n - 1].externalId) == key && !e.results[n - 1].duplicate then 1 else 0)
  }

  function TotalWins(log: seq<CommittedBatch>, key: Key): nat
    requires forall e | e in log :: |e.results| == |e.batch|
  {
    if log == [] then 0
    else TotalWins(log[..|log| - 1], key) + Wins(log[|log| - 1], key, |log[|log| - 1].batch|)
  }

  lemma {:induction false} SequentialLength(s: Store, source: string, batch: seq<Alert>, ids: seq<IncidentId>, n: nat)
    requires n <= |batch| && n <= |ids| && Sequential(s, source, batch, ids, n).Some?
    ensures |Sequential(s, source, batch, ids, n).value.results| == n
    ensures Keys(s) <= Keys(Sequential(s, source, batch, ids, n).value.store)
    ensures s.alerts <= Sequential(s, source, batch, ids, n).value.store.alerts
  {
    if n > 0 {
      SequentialLength(s, source, batch, ids, n - 1);
      OneGrows(Sequential(s, source, batch, ids, n - 1).value.store, Origin(source, batch[n - 1]), ids[n - 1]);
    }
  }

  ghost function Present(s: Store, key: Key): nat {
    if key in Keys(s) then 1 else 0
  }

  lemma OneWins(s: Store, o: Origin, id: IncidentId, key: Key)
    requires IngestOne(s, o, id).Some?
    ensures var q := IngestOne(s, o, id).value;
            Present(q.0, key) == Present(s, key) + if KeyOf(o) == key && !q.1.duplicate then 1 else 0
  {
    LookupMisses(s, KeyOf(o));
    var b := Bundle(id, o);
    KeysUnion(s, b);
    assert Keys(b) == {KeyOf(o)} by {
      assert AlertOf(id, o) in b.alerts;
    }
  }

  lemma LastResult(s: Store, e: CommittedBatch, n: nat)
    requires 0 < n <= |e.batch| && |e.ids| == |e.batch| == |e.results|
    requires Sequential(s, e.source, e.batch, e.ids, n).Some?
    requires Sequential(s, e.source, e.batch, e.ids, n).value.results == e.results[..n]
    ensures Sequential(s, e.source, e.batch, e.ids, n - 1).Some?
    ensures Sequential(s, e.source, e.batch, e.ids, n - 1).value.results == e.results[..n - 1]
    ensures var p := Sequential(s, e.source, e.batch, e.ids, n - 1).value;
            var q := IngestOne(p.store, Origin(e.source, e.batch[n - 1]), e.ids[n - 1]);
            q == Some((Sequential(s, e.source, e.batch, e.ids, n).value.store, e.results[n - 1]))
  {
    SequentialLength(s, e.source, e.batch, e.ids, n - 1);
    var front := Sequential(s, e.source, e.batch, e.ids, n - 1).value.results;
    var last := Sequential(s, e.source, e.batch, e.ids, n).value.results[n - 1];
    assert front + [last] == e.results[..n];
    assert front == e.results[..n][..n - 1] == e.results[..n - 1];
  }

  lemma {:induction false} BatchWins(s: Store, e: CommittedBatch, key: Key, n: nat)
    requires n <= |e.batch| && |e.ids| == |e.batch| == |e.results|
    requires Sequential(s, e.source, e.batch, e.ids, n).Some?
    requires Sequential(s, e.source, e.batch, e.ids, n).value.results == e.results[..n]
    ensures Present(s, key) + Wins(e, key, n) == Present(Sequential(s, e.source, e.batch, e.ids, n).value.store, key)
  {
    if n > 0 {
      var p := Sequential(s, e.source, e.batch, e.ids, n - 1).value;
      LastResult(s, e, n);
      BatchWins(s, e, key, n - 1);
      OneWins(p.store, Origin(e.source, e.batch[n - 1]), e.ids[n - 1], key);
    }
  }

  lemma {:induction false} ReplayWins(s0: Store, log: seq<CommittedBatch>, key: Key)
    requires Replay(s0, log).Some?
    ensures forall e | e in log :: |e.results| == |e.batch|
    ensures Present(s0, key) + TotalWins(log, key) == Present(Replay(s0, log).value, key)
  {
    if log != [] {
      var front, e := log[..|log| - 1], log[|log| - 1];
      var before := Replay(s0, front).value;
      ReplayWins(s0, front, key);
      SequentialLength(before, e.source, e.batch, e.ids, |e.batch|);
      forall x | x in log ensures |x.results| == |x.batch| {
        assert x in front || x == e;
      }
      assert e.results[..|e.batch|] == e.results;
      BatchWins(before, e, key, |e.batch|);
    }
  }

  /**
   However the deliveries race, exactly one of all committed occurrences of a key that was not stored before is
   answered "not a duplicate" if the key is stored in the end, and none of them if it was stored before.
   */
  lemma ExactlyOneCreation(s: State, run: seq<Action>, key: Key)
    requires Quiet(s) && Safe(s) && Feasible(s, run) && DeleteFree(run)
    ensures var end := Run(s, run);
            && (forall e | e in end.log :: |e.results| == |e.batch|)
            && TotalWins(end.log, key) == if key in Keys(end.store) && key !in Keys(s.store) then 1 else 0
  {
    SerialisableInCommitOrder(s, run);
    ReplayWins(s.store, Run(s, run).log, key);
  }

  // ---------------------------------------------------------------- everyone is told the same incident

  lemma {:induction false} BatchAnswersStored(s: Store, e: CommittedBatch, n: nat, j: nat)
    requires j < n <= |e.batch| && |e.ids| == |e.batch|
    requires Sequential(s, e.source, e.batch, e.ids, n).Some?
    ensures var p := Sequential(s, e.source, e.batch, e.ids, n).value;
            && j < |p.results|
            && exists r :: r in p.store.alerts
                      && r.key == Key(e.source, e.batch[j].externalId) && r.incident == p.results[j].incident
  {
    var p := Sequential(s, e.source, e.batch, e.ids, n - 1).value;
    var o := Origin(e.source, e.batch[n - 1]);
    SequentialLength(s, e.source, e.batch, e.ids, n);
    OneGrows(p.store, o, e.ids[n - 1]);
    if j < n - 1 {
      BatchAnswersStored(s, e, n - 1, j);
    } else {
      SequentialLength(s, e.source, e.batch, e.ids, n - 1);
      if Lookup(p.store, KeyOf(o)).None? {
        assert AlertOf(e.ids[n - 1], o) in Sequential(s, e.source, e.batch, e.ids, n).value.store.alerts;
      }
    }
  }

  lemma {:induction false} ReplayAnswersStored(s0: Store, log: seq<CommittedBatch>, k: nat, j: nat)
    requires Replay(s0, log).Some? && k < |log| && j < |log[k].batch|
    ensures j < |log[k].results|
    ensures exists r :: r in Replay(s0, log).value.alerts
                        && r.key == Key(log[k].source, log[k].batch[j].externalId)
                        && r.incident == log[k].results[j].incident
  {
    var front, e := log[..|log| - 1], log[|log| - 1];
    var before := Replay(s0, front).value;
    SequentialLength(before, e.source, e.batch, e.ids, |e.batch|);
    if k < |log| - 1 {
      ReplayAnswersStored(s0, front, k, j);
    } else {
      BatchAnswersStored(before, e, |e.batch|, j);
    }
  }

  /** Every committed delivery of a key names the same incident, the one its alert row points to. */
  lemma SameIncidentForSameKey(s: State, run: seq<Action>, k1: nat, j1: nat, k2: nat, j2: nat)
    requires Quiet(s) && Safe(s) && Feasible(s, run) && DeleteFree(run)
    requires var log := Run(s, run).log;
             k1 < |log| && j1 < |log[k1].batch| && k2 < |log| && j2 < |log[k2].batch|
             && log[k1].source == log[k2].source && log[k1].batch[j1].externalId == log[k2].batch[j2].externalId
    ensures var log := Run(s, run).log;
            && j1 < |log[k1].results| && j2 < |log[k2].results|
            && log[k1].results[j1].incident == log[k2].results[j2].incident
            && log[k1].results[j1].incident in Run(s, run).store.incidents
  {
    RunsStaySerialised(s.store, s, run);
    var end := Run(s, run);
    ReplayAnswersStored(s.store, end.log, k1, j1);
    ReplayAnswersStored(s.store, end.log, k2, j2);
  }
}
