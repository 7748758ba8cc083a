/**
 What every run of the ingestion protocol keeps, with aborts and deletes among its steps.
 */
module IngestionSafety {
  import opened Options
  import opened Ingestion

  /** No two alert rows share a key. */
  ghost predicate UniqueKeys(s: Store) {
    forall r1, r2 | r1 in s.alerts && r2 in s.alerts && r1.key == r2.key :: r1 == r2
  }

  /**
   Every alert row points to a stored incident, and an incident created by the webhook, one with an origin, has
   exactly one alert row, that of the alert it came from.
   */
  ghost predicate OneAlertEach(s: Store, origin: map<IncidentId, Origin>) {
    && (forall r | r in s.alerts ::
          r.incident in s.incidents && (r.incident in origin ==> r == AlertOf(r.incident, origin[r.incident])))
    && (forall i | i in s.incidents && i in origin :: AlertOf(i, origin[i]) in s.alerts)
  }

  /** Such an incident carries its own created event and the logs of its own alert, and nothing else. */
  ghost predicate OwnRows(s: Store, origin: map<IncidentId, Origin>) {
    forall i | i in s.incidents && i in origin ::
      s.incidents[i] == WithLogs(BareIncident(origin[i]), origin[i].alert.logs)
  }

  ghost predicate Sound(s: Store, origin: map<IncidentId, Origin>) {
    UniqueKeys(s) && OneAlertEach(s, origin) && OwnRows(s, origin)
  }

  ghost predicate Apart(a: Store, b: Store) {
    a.incidents.Keys !! b.incidents.Keys && Keys(a) !! Keys(b)
  }

  /** What the open savepoint, if any, has added to the released writes. */
  ghost predicate SavepointShape(tx: Tx, origin: map<IncidentId, Origin>) {
    match tx.phase
    case Inserting(id) =>
      && |tx.results| < |tx.batch| && id in origin && origin[id] == tx.Current() && id !in tx.base.incidents
      && tx.writes == Union(tx.base, Store({}, map[id := BareIncident(tx.Current())]))
    case Attaching(id) =>
      && |tx.results| < |tx.batch| && id in origin && origin[id] == tx.Current() && id !in tx.base.incidents
      && KeyOf(tx.Current()) !in Keys(tx.base)
      && tx.writes == Union(Union(tx.base, Store({}, map[id := BareIncident(tx.Current())])),
                            Store({AlertOf(id, tx.Current())}, map[]))
    case _ => tx.writes == tx.base
  }

  ghost predicate TxSafe(store: Store, origin: map<IncidentId, Origin>, tx: Tx) {
    && |tx.results| <= |tx.batch| && |tx.ids| == |tx.results|
    && Sound(tx.base, origin)
    && SavepointShape(tx, origin)
    && tx.writes.incidents.Keys <= origin.Keys
    && Apart(store, tx.writes)
  }

  ghost predicate Safe(s: State) {
    && Sound(s.store, s.origin)
    && (forall t | t in s.txs :: TxSafe(s.store, s.origin, s.txs[t]))
    && (forall t, u | t in s.txs && u in s.txs && t != u :: Apart(s.txs[t].writes, s.txs[u].writes))
  }

  // ---------------------------------------------------------------- stores

  lemma KeysUnion(a: Store, b: Store)
    ensures Keys(Union(a, b)) == Keys(a) + Keys(b)
  {
    forall k | k in Keys(a) + Keys(b) ensures k in Keys(Union(a, b)) {
      var r :| (r in a.alerts || r in b.alerts) && r.key == k;
      assert r in Union(a, b).alerts;
    }
  }

  lemma SoundUnion(a: Store, b: Store, origin: map<IncidentId, Origin>)
    requires Sound(a, origin) && Sound(b, origin) && Apart(a, b)
    ensures Sound(Union(a, b), origin)
  {
    var u := Union(a, b);
    forall r1, r2 | r1 in u.alerts && r2 in u.alerts && r1.key == r2.key ensures r1 == r2 {
      assert r1.key in Keys(a) || r1.key in Keys(b);
      assert r1 in a.alerts ==> r1.key in Keys(a);
      assert r1 in b.alerts ==> r1.key in Keys(b);
      assert r2 in a.alerts ==> r2.key in Keys(a);
      assert r2 in b.alerts ==> r2.key in Keys(b);
    }
  }

  /** More origins are known, of incidents that these rows do not hold. */
  ghost predicate Extends(more: map<IncidentId, Origin>, origin: map<IncidentId, Origin>, s: Store) {
    && origin.Keys <= more.Keys && (forall i | i in origin :: more[i] == origin[i])
    && (forall i | i in more && i !in origin :: i !in s.incidents)
  }

  lemma SoundMore(s: Store, origin: map<IncidentId, Origin>, more: map<IncidentId, Origin>)
    requires Sound(s, origin) && Extends(more, origin, s)
    ensures Sound(s, more)
  {
  }

  lemma SoundBundle(id: IncidentId, origin: map<IncidentId, Origin>)
    requires id in origin
    ensures Sound(Bundle(id, origin[id]), origin)
    ensures Keys(Bundle(id, origin[id])) == {KeyOf(origin[id])}
  {
    assert AlertOf(id, origin[id]).key == KeyOf(origin[id]);
    assert AlertOf(id, origin[id]) in Bundle(id, origin[id]).alerts;
  }

  lemma SoundCascade(s: Store, origin: map<IncidentId, Origin>, id: IncidentId)
    requires Sound(s, origin)
    ensures Sound(Cascade(s, id), origin)
    ensures Keys(Cascade(s, id)) <= Keys(s)
  {
  }

  /** On a sound store, looking a key up finds the row that has it. */
  lemma LookupFinds(s: Store, r: AlertRow)
    requires UniqueKeys(s) && r in s.alerts
    ensures Lookup(s, r.key) == Some(r.incident)
  {
  }

  lemma LookupMisses(s: Store, key: Key)
    ensures Lookup(s, key).None? <==> key !in Keys(s)
  {
    if key in Keys(s) {
      var r :| r in s.alerts && r.key == key;
    }
  }

  /** Every alert row has its incident row: the foreign key. */
  ghost predicate Grounded(s: Store) {
    forall r | r in s.alerts :: r.incident in s.incidents
  }

  /**
   Any database that keeps its unique index and its foreign key is a safe start, whatever incidents and alerts are in
   it already and wherever they came from.
   */
  lemma AnyDatabaseIsSafe(store: Store)
    requires UniqueKeys(store) && Grounded(store)
    ensures Safe(State(store, map[], map[], []))
  {
  }

  // ---------------------------------------------------------------- every step keeps the invariant

  lemma BeginSafe(s: State, a: Action)
    requires Safe(s) && Enabled(s, a) && a.Begin?
    ensures Safe(Apply(s, a))
  {
    var s' := Apply(s, a);
    assert Keys(EMPTY) == {};
    forall t | t in s'.txs ensures TxSafe(s'.store, s'.origin, s'.txs[t]) {
      assert t != a.t ==> s'.txs[t] == s.txs[t];
    }
  }

  /** A transaction that does not move is not disturbed by a new origin. */
  lemma TxSafeMore(store: Store, origin: map<IncidentId, Origin>, more: map<IncidentId, Origin>, tx: Tx)
    requires TxSafe(store, origin, tx) && Extends(more, origin, store)
    ensures TxSafe(store, more, tx)
  {
    assert tx.base.incidents.Keys <= tx.writes.incidents.Keys;
    SoundMore(tx.base, origin, more);
  }

  /** A step that only changes transaction t, and leaves its writes among fresh or already held rows. */
  lemma LocalSafe(s: State, s': State, t: TxId)
    requires Safe(s) && t in s.txs
    requires t in s'.txs && s'.store == s.store && s'.txs == s.txs[t := s'.txs[t]]
    requires Extends(s'.origin, s.origin, s.store) && TxSafe(s'.store, s'.origin, s'.txs[t])
    requires forall u | u in s.txs && u != t :: Apart(s'.txs[t].writes, s.txs[u].writes)
    ensures Safe(s')
  {
    SoundMore(s.store, s.origin, s'.origin);
    forall u | u in s'.txs && u != t ensures TxSafe(s'.store, s'.origin, s'.txs[u]) {
      assert s'.txs[u] == s.txs[u];
      TxSafeMore(s.store, s.origin, s'.origin, s.txs[u]);
    }
    forall u, v | u in s'.txs && v in s'.txs && u != v ensures Apart(s'.txs[u].writes, s'.txs[v].writes) {
      if v == t {
        assert Apart(s'.txs[t].writes, s.txs[u].writes);
      }
    }
  }

  lemma OpenedTxSafe(s: State, a: Action)
    requires Safe(s) && Enabled(s, a) && a.CreateIncident?
    ensures TxSafe(s.store, Apply(s, a).origin, Apply(s, a).txs[a.t])
    ensures Keys(Apply(s, a).txs[a.t].writes) == Keys(s.txs[a.t].base)
  {
    var s', tx := Apply(s, a), s.txs[a.t];
    var row := Store({}, map[a.id := BareIncident(tx.Current())]);
    KeysUnion(tx.base, row);
    assert Keys(row) == {};
    assert TxSafe(s.store, s.origin, tx);
    TxSafeMore(s.store, s.origin, s'.origin, tx);
  }

  lemma CreateSafe(s: State, a: Action)
    requires Safe(s) && Enabled(s, a) && a.CreateIncident?
    ensures Safe(Apply(s, a))
  {
    var s' := Apply(s, a);
    var tx, tx' := s.txs[a.t], s'.txs[a.t];
    OpenedTxSafe(s, a);
    assert TxSafe(s.store, s.origin, tx);
    forall u | u in s.txs && u != a.t ensures Apart(tx'.writes, s.txs[u].writes) {
      assert TxSafe(s.store, s.origin, s.txs[u]);
    }
    LocalSafe(s, s', a.t);
  }

  /** The row goes in under a key that no committed row has. */
  lemma WinningRow(store: Store, origin: map<IncidentId, Origin>, tx: Tx)
    requires TxSafe(store, origin, tx) && tx.phase.Inserting? && KeyOf(tx.Current()) !in Keys(Union(store, tx.writes))
    ensures var row := Store({AlertOf(tx.phase.id, tx.Current())}, map[]);
            var tx' := tx.(phase := Attaching(tx.phase.id), writes := Union(tx.writes, row));
            TxSafe(store, origin, tx') && Keys(tx'.writes) == Keys(tx.writes) + {KeyOf(tx.Current())}
  {
    var row := Store({AlertOf(tx.phase.id, tx.Current())}, map[]);
    KeysUnion(tx.base, Store({}, map[tx.phase.id := BareIncident(tx.Current())]));
    KeysUnion(store, tx.writes);
    KeysUnion(tx.writes, row);
    assert Keys(row) == {KeyOf(tx.Current())} by {
      assert AlertOf(tx.phase.id, tx.Current()) in row.alerts;
    }
  }

  /** A rejected row takes its whole savepoint with it. */
  lemma LosingRow(store: Store, origin: map<IncidentId, Origin>, tx: Tx)
    requires TxSafe(store, origin, tx) && tx.phase.Inserting?
    ensures TxSafe(store, origin, tx.(phase := Lost, writes := tx.base))
    ensures Keys(tx.base) <= Keys(tx.writes) && tx.base.incidents.Keys <= tx.writes.incidents.Keys
  {
    KeysUnion(tx.base, Store({}, map[tx.phase.id := BareIncident(tx.Current())]));
  }

  lemma InsertedTxSafe(s: State, a: Action)
    requires Safe(s) && Enabled(s, a) && a.InsertAlert?
    ensures TxSafe(s.store, s.origin, Advance(s, a))
    ensures Keys(Advance(s, a).writes) <= Keys(s.txs[a.t].writes) + {KeyOf(s.txs[a.t].Current())}
    ensures Advance(s, a).writes.incidents.Keys <= s.txs[a.t].writes.incidents.Keys
  {
    if KeyOf(s.txs[a.t].Current()) in Keys(Visible(s, a.t)) {
      LosingRow(s.store, s.origin, s.txs[a.t]);
    } else {
      WinningRow(s.store, s.origin, s.txs[a.t]);
    }
  }

  lemma InsertSafe(s: State, a: Action)
    requires Safe(s) && Enabled(s, a) && a.InsertAlert?
    ensures Safe(Apply(s, a))
  {
    var tx, tx' := s.txs[a.t], Advance(s, a);
    InsertedTxSafe(s, a);
    forall u | u in s.txs && u != a.t ensures Apart(tx'.writes, s.txs[u].writes) {
      assert Apart(tx.writes, s.txs[u].writes);
    }
    LocalSafe(s, Apply(s, a), a.t);
  }

  lemma WholeBundle(tx: Tx, origin: map<IncidentId, Origin>)
    requires tx.phase.Attaching? && SavepointShape(tx, origin)
    ensures tx.phase.id in tx.writes.incidents
    ensures var id, logs := tx.phase.id, tx.Current().alert.logs;
            tx.writes.(incidents := tx.writes.incidents[id := WithLogs(tx.writes.incidents[id], logs)])
            == Union(tx.base, Bundle(id, tx.Current()))
  {
    var id, logs := tx.phase.id, tx.Current().alert.logs;
    var bundle := Bundle(id, tx.Current());
    assert tx.writes.incidents[id] == BareIncident(tx.Current());
    assert tx.writes.alerts == Union(tx.base, bundle).alerts;
    assert tx.writes.incidents[id := WithLogs(tx.writes.incidents[id], logs)] == Union(tx.base, bundle).incidents;
  }

  /** Releasing the savepoint leaves exactly the released rows plus one whole bundle. */
  lemma ReleaseAddsBundle(s: State, a: Action)
    requires Safe(s) && Enabled(s, a) && a.AttachLogs?
    ensures var tx := s.txs[a.t];
            Advance(s, a).base == Union(tx.base, Bundle(tx.phase.id, tx.Current()))
  {
    assert SavepointShape(s.txs[a.t], s.origin) by {
      assert TxSafe(s.store, s.origin, s.txs[a.t]);
    }
    WholeBundle(s.txs[a.t], s.origin);
  }

  lemma ReleasedIsSound(s: State, a: Action)
    requires Safe(s) && Enabled(s, a) && a.AttachLogs?
    ensures Sound(Advance(s, a).base, s.origin)
  {
    var tx := s.txs[a.t];
    assert TxSafe(s.store, s.origin, tx);
    ReleaseAddsBundle(s, a);
    SoundBundle(tx.phase.id, s.origin);
    SoundUnion(tx.base, Bundle(tx.phase.id, tx.Current()), s.origin);
  }

  lemma AttachedTxSafe(s: State, a: Action)
    requires Safe(s) && Enabled(s, a) && a.AttachLogs?
    ensures TxSafe(s.store, s.origin, Advance(s, a))
    ensures Advance(s, a).writes.incidents.Keys == s.txs[a.t].writes.incidents.Keys
    ensures Keys(Advance(s, a).writes) == Keys(s.txs[a.t].writes)
  {
    var tx, tx' := s.txs[a.t], Advance(s, a);
    assert TxSafe(s.store, s.origin, tx);
    ReleasedIsSound(s, a);
    assert tx'.writes.alerts == tx.writes.alerts;
  }

  lemma AttachSafe(s: State, a: Action)
    requires Safe(s) && Enabled(s, a) && a.AttachLogs?
    ensures Safe(Apply(s, a))
  {
    var s' := Apply(s, a);
    AttachedTxSafe(s, a);
    forall u | u in s.txs && u != a.t ensures Apart(s'.txs[a.t].writes, s.txs[u].writes) {
      assert Apart(s.txs[a.t].writes, s.txs[u].writes);
    }
    LocalSafe(s, s', a.t);
  }

  lemma ReadSafe(s: State, a: Action)
    requires Safe(s) && Enabled(s, a) && (a.Check? || a.ReadIncident? || a.Reread?)
    ensures Safe(Apply(s, a))
  {
    var s' := Apply(s, a);
    assert TxSafe(s.store, s.origin, s.txs[a.t]);
    assert s'.txs[a.t].writes == s.txs[a.t].writes;
    LocalSafe(s, s', a.t);
  }

  lemma CommitSafe(s: State, a: Action)
    requires Safe(s) && Enabled(s, a) && a.Commit?
    ensures Safe(Apply(s, a))
  {
    var s' := Apply(s, a);
    var tx := s.txs[a.t];
    assert TxSafe(s.store, s.origin, tx);
    SoundUnion(s.store, tx.writes, s.origin);
    KeysUnion(s.store, tx.writes);
    forall u | u in s'.txs ensures TxSafe(s'.store, s'.origin, s'.txs[u]) {
      assert u != a.t && s'.txs[u] == s.txs[u];
      assert TxSafe(s.store, s.origin, s.txs[u]);
      assert Apart(tx.writes, s.txs[u].writes);
    }
  }

  lemma RemoveSafe(s: State, a: Action)
    requires Safe(s) && Enabled(s, a) && (a.Abort? || a.Delete?)
    ensures Safe(Apply(s, a))
  {
    var s' := Apply(s, a);
    if a.Delete? {
      SoundCascade(s.store, s.origin, a.id);
    }
    forall u | u in s'.txs ensures TxSafe(s'.store, s'.origin, s'.txs[u]) {
      assert s'.txs[u] == s.txs[u];
      assert TxSafe(s.store, s.origin, s.txs[u]);
    }
  }

  lemma StepSafe(s: State, a: Action)
    requires Safe(s) && Enabled(s, a)
    ensures Safe(Apply(s, a))
  {
    match a
    case Begin(_, _, _) => BeginSafe(s, a);
    case CreateIncident(_, _) => CreateSafe(s, a);
    case InsertAlert(_) => InsertSafe(s, a);
    case AttachLogs(_) => AttachSafe(s, a);
    case Commit(_) => CommitSafe(s, a);
    case Abort(_) => RemoveSafe(s, a);
    case Delete(_) => RemoveSafe(s, a);
    case _ => ReadSafe(s, a);
  }

  /**
   The store invariant over every run, deletes and aborts included: at most one alert per key, each incident created by
   the webhook with exactly its one alert, its created event and its logs, and no key held by two open transactions.
   */
  lemma {:induction false} RunsStaySafe(s: State, run: seq<Action>)
    requires Safe(s) && Feasible(s, run)
    ensures Safe(Run(s, run))
    decreases |run|
  {
    if run != [] {
      StepSafe(s, run[0]);
      RunsStaySafe(Apply(s, run[0]), run[1..]);
    }
  }
}
