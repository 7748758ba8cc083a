/**
 When open batches can block each other for good. Two batches that carry the same new keys in opposite orders can; if
 every batch lists its new keys in one common order, none can.
 */
module IngestionDeadlocks {
  import opened Options
  import opened Ingestion
  import opened IngestionSafety
  import opened IngestionSerial
  import opened IngestionEndpoint

  // ---------------------------------------------------------------- one common order

  /** The keys of the batch that are not stored yet come in this order; a key may be repeated. */
  ghost predicate InOrder(order: Key -> int, store: Store, source: string, batch: seq<Alert>) {
    forall i, j | 0 <= i < j < |batch| ::
      var k, l := Key(source, batch[i].externalId), Key(source, batch[j].externalId);
      k !in Keys(store) && l !in Keys(store) ==> k == l || order(k) < order(l)
  }

  ghost predicate Waits(s: State, t: TxId)
    requires t in s.txs
  {
    |s.txs[t].results| < |s.txs[t].batch| && WaitsForKey(s, t)
  }

  /** A transaction that waits holds only new keys of earlier alerts, and not the one it waits for. */
  lemma HeldEarlier(s0: Store, s: State, u: TxId, key: Key)
    requires Serialised(s0, s) && u in s.txs && Waits(s, u) && key in Keys(s.txs[u].writes)
    ensures key !in Keys(s.store) && key != KeyOf(s.txs[u].Current())
    ensures exists j :: 0 <= j < |s.txs[u].results| && Key(s.txs[u].source, s.txs[u].batch[j].externalId) == key
  {
    var tx := s.txs[u];
    assert TxSafe(s.store, s.origin, tx) && TxSerial(s.store, tx);
    HeldIsReleased(s.store, s.origin, tx, key);
    ReleasedComesFirst(s.store, tx, key);
  }

  /** In a savepoint without an alert row yet, the held keys are those of the released savepoints. */
  lemma HeldIsReleased(store: Store, origin: map<IncidentId, Origin>, tx: Tx, key: Key)
    requires TxSafe(store, origin, tx) && tx.phase.Inserting? && key in Keys(tx.writes)
    ensures key in Keys(tx.base) && key !in Keys(store)
  {
    assert tx.writes.alerts == tx.base.alerts;
    var r :| r in tx.writes.alerts && r.key == key;
    assert r in tx.base.alerts;
  }

  lemma ReleasedComesFirst(store: Store, tx: Tx, key: Key)
    requires Grounded(store) && |tx.ids| == |tx.results| <= |tx.batch| && Serial(store, tx)
    requires key in Keys(tx.base) && key !in Keys(store)
    ensures exists j :: 0 <= j < |tx.results| && Key(tx.source, tx.batch[j].externalId) == key
  {
    KeysUnion(store, tx.base);
    BatchAlone(store, tx.source, tx.batch, tx.ids, |tx.results|);
    assert key in BatchKeys(tx.source, tx.batch, |tx.results|);
  }

  /** Who holds the key that t waits for, and waits too, waits for a later key. */
  lemma HolderIsAhead(s0: Store, s: State, order: Key -> int, t: TxId, u: TxId)
    requires Serialised(s0, s) && t in s.txs && u in s.txs && t != u && Waits(s, t) && Waits(s, u)
    requires InOrder(order, s.store, s.txs[u].source, s.txs[u].batch)
    requires KeyOf(s.txs[t].Current()) in Keys(s.txs[u].writes)
    ensures order(KeyOf(s.txs[t].Current())) < order(KeyOf(s.txs[u].Current()))
  {
    var tx, key := s.txs[u], KeyOf(s.txs[t].Current());
    HeldEarlier(s0, s, u, key);
    WaitedKeyIsNew(s, u);
    var j :| 0 <= j < |tx.results| && Key(tx.source, tx.batch[j].externalId) == key;
    assert KeyOf(tx.Current()) == Key(tx.source, tx.batch[|tx.results|].externalId);
  }

  lemma WaitedKeyIsNew(s: State, t: TxId)
    requires Safe(s) && t in s.txs && Waits(s, t)
    ensures KeyOf(s.txs[t].Current()) !in Keys(s.store)
  {
    var u :| u in s.txs && u != t && KeyOf(s.txs[t].Current()) in Keys(s.txs[u].writes);
    assert TxSafe(s.store, s.origin, s.txs[u]);
  }

  lemma {:induction false} Greatest(ts: set<TxId>, rank: map<TxId, int>)
    requires ts != {} && ts <= rank.Keys
    ensures exists t :: t in ts && IsGreatest(ts, rank, t)
  {
    var t :| t in ts;
    var rest := ts - {t};
    if rest == {} {
      assert ts == {t};
      assert IsGreatest(ts, rank, t);
    } else {
      Greatest(rest, rank);
      var m :| m in rest && IsGreatest(rest, rank, m);
      assert IsGreatest(ts, rank, if rank[t] <= rank[m] then m else t);
    }
  }

  ghost predicate IsGreatest(ts: set<TxId>, rank: map<TxId, int>, t: TxId)
    requires t in ts && ts <= rank.Keys
  {
    forall u | u in ts :: rank[u] <= rank[t]
  }

  function KeyRank(tx: Tx, order: Key -> int): int {
    if |tx.results| < |tx.batch| then order(KeyOf(tx.Current())) else 0
  }

  /** The transaction whose next key comes last waits, if at all, for one that does not wait. */
  lemma LastKeyIsFree(s0: Store, s: State, order: Key -> int, t: TxId)
    requires Serialised(s0, s) && t in s.txs && Waits(s, t)
    requires forall u | u in s.txs :: InOrder(order, s.store, s.txs[u].source, s.txs[u].batch)
    requires forall u | u in s.txs :: KeyRank(s.txs[u], order) <= KeyRank(s.txs[t], order)
    ensures exists u :: u in s.txs && !Waits(s, u)
  {
    var u :| u in s.txs && u != t && KeyOf(s.txs[t].Current()) in Keys(s.txs[u].writes);
    if Waits(s, u) {
      HolderIsAhead(s0, s, order, t, u);
    }
  }

  lemma SomeoneDoesNotWait(s0: Store, s: State, order: Key -> int)
    requires Serialised(s0, s) && s.txs != map[]
    requires forall t | t in s.txs :: InOrder(order, s.store, s.txs[t].source, s.txs[t].batch)
    ensures exists t :: t in s.txs && !Waits(s, t)
  {
    var rank := map t | t in s.txs :: KeyRank(s.txs[t], order);
    var first :| first in s.txs;
    Greatest(s.txs.Keys, rank);
    var t :| t in s.txs.Keys && IsGreatest(s.txs.Keys, rank, t);
    if Waits(s, t) {
      forall u | u in s.txs ensures KeyRank(s.txs[u], order) <= KeyRank(s.txs[t], order) {
        assert rank[u] <= rank[t];
      }
      LastKeyIsFree(s0, s, order, t);
    }
  }

  /**
   No deadlock: while batches are open, and each of them lists its new keys in one common order, some batch can run its
   next statement, or fails on its own because of too many logs.
   */
  lemma NoDeadlock(s0: Store, s: State, order: Key -> int, unused: IncidentId)
    requires Serialised(s0, s) && s.txs != map[]
    requires forall t | t in s.txs :: InOrder(order, s.store, s.txs[t].source, s.txs[t].batch)
    requires unused !in s.origin && unused !in s.store.incidents
    ensures exists t :: t in s.txs
                        && (Enabled(s, Next(s.txs[t], t, unused))
                            || (|s.txs[t].results| < |s.txs[t].batch| && TooManyLogs(s.txs[t])))
  {
    SomeoneDoesNotWait(s0, s, order);
    var t :| t in s.txs && !Waits(s, t);
    assert TxSerial(s.store, s.txs[t]);
    StoppedOnlyByHeldKey(s0, s, t, unused);
  }

  // ---------------------------------------------------------------- opposite orders

  lemma {:induction false} RunJoin(s: State, run: seq<Action>, more: seq<Action>)
    requires Feasible(s, run) && Feasible(Run(s, run), more)
    ensures Feasible(s, run + more) && Run(s, run + more) == Run(Run(s, run), more)
    decreases |run|
  {
    if run == [] {
      assert run + more == more;
    } else {
      assert (run + more)[1..] == run[1..] + more;
      RunJoin(Apply(s, run[0]), run[1..], more);
    }
  }

  /** The run is possible from s and ends in s'. */
  ghost predicate Leads(s: State, run: seq<Action>, s': State) {
    Feasible(s, run) && Run(s, run) == s'
  }

  lemma LeadsOne(s: State, a: Action)
    requires Enabled(s, a)
    ensures Leads(s, [a], Apply(s, a))
  {
  }

  lemma LeadsOn(s: State, run: seq<Action>, s1: State, more: seq<Action>, s2: State)
    requires Leads(s, run, s1) && Leads(s1, more, s2)
    ensures Leads(s, run + more, s2)
  {
    RunJoin(s, run, more);
  }

  /** Ready to take a new key that nobody holds. */
  ghost predicate Ready(s: State, t: TxId, id: IncidentId) {
    && Working(s, t) && s.txs[t].phase == Checking && s.txs[t].writes == s.txs[t].base
    && KeyOf(s.txs[t].Current()) !in Keys(Visible(s, t)) && |s.txs[t].Current().alert.logs| <= MAX_LOGS
    && id !in s.origin && id !in s.store.incidents && id !in s.txs[t].base.incidents
  }

  ghost function Opened(s: State, t: TxId, id: IncidentId): State
    requires Working(s, t)
  {
    s.(txs := s.txs[t := OpenSavepoint(s.txs[t], id)], origin := s.origin[id := s.txs[t].Current()])
  }

  function Open(t: TxId, id: IncidentId): seq<Action> {
    [Check(t)] + [CreateIncident(t, id)]
  }

  /** The lookup misses and a savepoint is opened. */
  lemma Opens(s: State, t: TxId, id: IncidentId)
    requires Ready(s, t, id)
    ensures Leads(s, Open(t, id), Opened(s, t, id))
  {
    LookupMisses(Visible(s, t), KeyOf(s.txs[t].Current()));
    var s1 := Apply(s, Check(t));
    assert s1.txs[t] == s.txs[t].(phase := Missing);
    LeadsOne(s, Check(t));
    LeadsOne(s1, CreateIncident(t, id));
    assert Apply(s1, CreateIncident(t, id)).txs == Opened(s, t, id).txs;
    LeadsOn(s, [Check(t)], s1, [CreateIncident(t, id)], Opened(s, t, id));
  }

  function Released(tx: Tx, id: IncidentId): Tx
    requires |tx.results| < |tx.batch|
  {
    var rows := Union(tx.base, Bundle(id, tx.Current()));
    Tx(tx.source, tx.batch, rows, rows, tx.ids + [id], tx.results + [Outcome(id, false)], Checking)
  }

  /** The rows of a savepoint with its alert. */
  function Attached(tx: Tx, id: IncidentId): Tx
    requires |tx.results| < |tx.batch|
  {
    var tx' := OpenSavepoint(tx, id);
    tx'.(phase := Attaching(id), writes := Union(tx'.writes, Store({AlertOf(id, tx.Current())}, map[])))
  }

  lemma Inserts(s: State, s1: State, t: TxId, id: IncidentId)
    requires Ready(s, t, id) && !HeldByOther(s, t, KeyOf(s.txs[t].Current())) && s1 == Opened(s, t, id)
    ensures Enabled(s1, InsertAlert(t))
    ensures Apply(s1, InsertAlert(t)) == s1.(txs := s1.txs[t := Attached(s.txs[t], id)])
  {
    var tx, tx1 := s.txs[t], s1.txs[t];
    var key := KeyOf(tx.Current());
    assert tx1 == OpenSavepoint(tx, id) && tx1.Current() == tx.Current();
    assert !HeldByOther(s1, t, key) by {
      assert forall u | u in s1.txs && u != t :: s1.txs[u] == s.txs[u];
    }
    assert Visible(s1, t).alerts == Visible(s, t).alerts;
    assert Keys(Visible(s1, t)) == Keys(Visible(s, t));
  }

  lemma Attaches(s: State, s2: State, t: TxId, id: IncidentId)
    requires Ready(s, t, id) && t in s2.txs && s2.txs[t] == Attached(s.txs[t], id)
    ensures Enabled(s2, AttachLogs(t))
    ensures Apply(s2, AttachLogs(t)) == s2.(txs := s2.txs[t := Released(s.txs[t], id)])
  {
    var tx, tx2 := s.txs[t], s2.txs[t];
    assert tx2.Current() == tx.Current() && id in tx2.writes.incidents;
    assert tx2.writes.incidents[id] == BareIncident(tx.Current());
    var rows := Union(tx.base, Bundle(id, tx.Current()));
    assert tx2.writes.alerts == rows.alerts;
    assert tx2.writes.incidents[id := WithLogs(BareIncident(tx.Current()), tx.Current().alert.logs)] == rows.incidents;
  }

  function TakeKey(t: TxId, id: IncidentId): seq<Action> {
    Open(t, id) + ([InsertAlert(t)] + [AttachLogs(t)])
  }

  ghost function Taken(s: State, t: TxId, id: IncidentId): State
    requires Working(s, t)
  {
    s.(txs := s.txs[t := Released(s.txs[t], id)], origin := s.origin[id := s.txs[t].Current()])
  }

  lemma Releases(s: State, s1: State, t: TxId, id: IncidentId)
    requires Ready(s, t, id) && !HeldByOther(s, t, KeyOf(s.txs[t].Current())) && s1 == Opened(s, t, id)
    ensures Leads(s1, [InsertAlert(t)] + [AttachLogs(t)], Taken(s, t, id))
  {
    Inserts(s, s1, t, id);
    var s2 := Apply(s1, InsertAlert(t));
    Attaches(s, s2, t, id);
    LeadsOne(s1, InsertAlert(t));
    LeadsOne(s2, AttachLogs(t));
    assert Apply(s2, AttachLogs(t)).txs == Taken(s, t, id).txs;
    LeadsOn(s1, [InsertAlert(t)], s2, [AttachLogs(t)], Taken(s, t, id));
  }

  /** A new key that nobody holds is taken, and its savepoint released. */
  lemma TakesKey(s: State, t: TxId, id: IncidentId)
    requires Ready(s, t, id) && !HeldByOther(s, t, KeyOf(s.txs[t].Current()))
    ensures Leads(s, TakeKey(t, id), Taken(s, t, id))
  {
    Opens(s, t, id);
    Releases(s, Opened(s, t, id), t, id);
    LeadsOn(s, Open(t, id), Opened(s, t, id), [InsertAlert(t)] + [AttachLogs(t)], Taken(s, t, id));
  }

  // ---------------------------------------------------------------- the blocked run

  const QUIET := State(EMPTY, map[], map[], [])

  function Begun(source: string, batch: seq<Alert>): Tx {
    Tx(source, batch, EMPTY, EMPTY, [], [], Checking)
  }

  lemma BundleKeys(id: IncidentId, o: Origin)
    ensures Keys(Union(EMPTY, Bundle(id, o))) == {KeyOf(o)}
  {
    assert AlertOf(id, o) in Union(EMPTY, Bundle(id, o)).alerts;
  }

  /** The transaction has taken the first of its two alerts, under identifier id. */
  ghost predicate HasFirst(tx: Tx, source: string, first: Alert, second: Alert, id: IncidentId) {
    tx == Released(Begun(source, [first, second]), id)
  }

  /** Both batches have begun. */
  function BothBegun(source: string, a: Alert, b: Alert): State {
    QUIET.(txs := map[0 := Begun(source, [a, b]), 1 := Begun(source, [b, a])])
  }

  lemma BothBegin(source: string, a: Alert, b: Alert)
    ensures Leads(QUIET, [Begin(0, source, [a, b])] + [Begin(1, source, [b, a])], BothBegun(source, a, b))
  {
    var first, second := Begin(0, source, [a, b]), Begin(1, source, [b, a]);
    var s1 := Apply(QUIET, first);
    LeadsOne(QUIET, first);
    LeadsOne(s1, second);
    assert Apply(s1, second).txs == BothBegun(source, a, b).txs;
    LeadsOn(QUIET, [first], s1, [second], BothBegun(source, a, b));
  }

  lemma FirstIsReady(s: State, t: TxId, source: string, first: Alert, second: Alert, id: IncidentId)
    requires s.store == EMPTY && t in s.txs && s.txs[t] == Begun(source, [first, second])
    requires |first.logs| <= MAX_LOGS && id !in s.origin
    ensures Ready(s, t, id) && KeyOf(s.txs[t].Current()) == Key(source, first.externalId)
  {
    assert Keys(Visible(s, t)) == {};
  }

  lemma SecondIsReady(s: State, t: TxId, source: string, first: Alert, second: Alert, id: IncidentId, id2: IncidentId)
    requires s.store == EMPTY && t in s.txs && HasFirst(s.txs[t], source, first, second, id)
    requires first.externalId != second.externalId && |second.logs| <= MAX_LOGS && id2 !in s.origin && id2 != id
    ensures Ready(s, t, id2) && KeyOf(s.txs[t].Current()) == Key(source, second.externalId)
    ensures Keys(s.txs[t].writes) == {Key(source, first.externalId)}
  {
    BundleKeys(id, Origin(source, first));
    assert s.txs[t].Current() == Origin(source, second);
    assert Visible(s, t).alerts == s.txs[t].writes.alerts;
    assert Keys(Visible(s, t)) == Keys(s.txs[t].writes);
  }

  ghost function BothTaken(source: string, a: Alert, b: Alert): State {
    Taken(Taken(BothBegun(source, a, b), 0, 0), 1, 1)
  }

  lemma FirstTakes(source: string, a: Alert, b: Alert)
    requires |a.logs| <= MAX_LOGS
    ensures Leads(BothBegun(source, a, b), TakeKey(0, 0), Taken(BothBegun(source, a, b), 0, 0))
  {
    var s := BothBegun(source, a, b);
    FirstIsReady(s, 0, source, a, b, 0);
    assert Keys(EMPTY) == {};
    TakesKey(s, 0, 0);
  }

  lemma SecondTakes(source: string, a: Alert, b: Alert)
    requires a.externalId != b.externalId && |b.logs| <= MAX_LOGS
    ensures Leads(Taken(BothBegun(source, a, b), 0, 0), TakeKey(1, 1), BothTaken(source, a, b))
  {
    var s := Taken(BothBegun(source, a, b), 0, 0);
    FirstIsReady(s, 1, source, b, a, 1);
    BundleKeys(0, Origin(source, a));
    assert s.txs[0].writes == Union(EMPTY, Bundle(0, Origin(source, a)));
    TakesKey(s, 1, 1);
  }

  /** Opening a savepoint holds no further key. */
  lemma OpenedHolds(tx: Tx, id: IncidentId)
    requires |tx.results| < |tx.batch|
    ensures Keys(OpenSavepoint(tx, id).writes) == Keys(tx.base)
  {
    assert OpenSavepoint(tx, id).writes.alerts == tx.base.alerts;
  }

  ghost predicate Crossed(s: State, source: string, a: Alert, b: Alert) {
    && s.store == EMPTY && s.txs.Keys == {0, 1} && s.origin.Keys == {0, 1}
    && HasFirst(s.txs[0], source, a, b, 0) && HasFirst(s.txs[1], source, b, a, 1)
  }

  ghost function BothOpened(s: State): State
    requires s.txs.Keys == {0, 1} && Working(s, 0) && Working(s, 1)
  {
    Opened(Opened(s, 0, 2), 1, 3)
  }

  lemma BothOpen(s: State, source: string, a: Alert, b: Alert)
    requires a.externalId != b.externalId && |a.logs| <= MAX_LOGS && |b.logs| <= MAX_LOGS && Crossed(s, source, a, b)
    ensures Leads(s, Open(0, 2) + Open(1, 3), BothOpened(s))
  {
    SecondIsReady(s, 0, source, a, b, 0, 2);
    Opens(s, 0, 2);
    var s1 := Opened(s, 0, 2);
    SecondIsReady(s1, 1, source, b, a, 1, 3);
    Opens(s1, 1, 3);
    LeadsOn(s, Open(0, 2), s1, Open(1, 3), BothOpened(s));
  }

  lemma BothWait(s: State, source: string, a: Alert, b: Alert)
    requires a.externalId != b.externalId && Crossed(s, source, a, b)
    ensures var s' := BothOpened(s); s'.txs.Keys == {0, 1} && Waits(s', 0) && Waits(s', 1)
  {
    var s' := BothOpened(s);
    BundleKeys(0, Origin(source, a));
    BundleKeys(1, Origin(source, b));
    OpenedHolds(s.txs[0], 2);
    OpenedHolds(s.txs[1], 3);
    assert s'.txs[0] == OpenSavepoint(s.txs[0], 2) && s'.txs[1] == OpenSavepoint(s.txs[1], 3);
    assert KeyOf(s'.txs[0].Current()) in Keys(s'.txs[1].writes);
    assert KeyOf(s'.txs[1].Current()) in Keys(s'.txs[0].writes);
  }

  lemma BothAreStuck(s: State)
    requires s.txs.Keys == {0, 1} && Waits(s, 0) && Waits(s, 1)
    ensures forall t, unused | t in s.txs :: !Enabled(s, Next(s.txs[t], t, unused))
  {
  }

  function DeadlockRun(source: string, a: Alert, b: Alert): seq<Action> {
    [Begin(0, source, [a, b])] + [Begin(1, source, [b, a])] + TakeKey(0, 0) + TakeKey(1, 1) + (Open(0, 2) + Open(1, 3))
  }

  /** Two batches with the same two new keys in opposite orders can end up waiting for each other. */
  lemma OppositeOrdersDeadlock(source: string, a: Alert, b: Alert)
    requires a.externalId != b.externalId && |a.logs| <= MAX_LOGS && |b.logs| <= MAX_LOGS
    ensures exists s :: Leads(QUIET, DeadlockRun(source, a, b), s) && s.txs.Keys == {0, 1} && Waits(s, 0) && Waits(s, 1)
                        && forall t, unused | t in s.txs :: !Enabled(s, Next(s.txs[t], t, unused))
  {
    var begin := [Begin(0, source, [a, b])] + [Begin(1, source, [b, a])];
    var s0, s2 := BothBegun(source, a, b), BothTaken(source, a, b);
    var s1 := Taken(s0, 0, 0);
    BothBegin(source, a, b);
    FirstTakes(source, a, b);
    SecondTakes(source, a, b);
    LeadsOn(QUIET, begin, s0, TakeKey(0, 0), s1);
    LeadsOn(QUIET, begin + TakeKey(0, 0), s1, TakeKey(1, 1), s2);
    assert Crossed(s2, source, a, b);
    BothOpen(s2, source, a, b);
    LeadsOn(QUIET, begin + TakeKey(0, 0) + TakeKey(1, 1), s2, Open(0, 2) + Open(1, 3), BothOpened(s2));
    BothWait(s2, source, a, b);
    BothAreStuck(BothOpened(s2));
  }
}
