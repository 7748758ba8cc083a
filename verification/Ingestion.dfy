/**
 Webhook ingestion: the stored rows, what ingesting one batch alone does to them, and the protocol by which
 many batch transactions race on the unique key (source, external_id).

 The protocol follows PostgreSQL at READ COMMITTED. Every statement sees the committed rows and the
 transaction's own writes. An insert into the unique index waits while another open transaction holds the key,
 fails when the key is committed, and otherwise takes the key. SQLite's BEGIN IMMEDIATE is the special case of
 runs with one open transaction at a time.
 */
module Ingestion {
  import opened Options

  type IncidentId = nat
  type TxId = nat

  datatype Key = Key(source: string, externalId: string)
  datatype LogInput = LogInput(level: string, message: string)
  datatype Alert = Alert(
    externalId: string, title: string, service: string, severity: string, description: string, logs: seq<LogInput>)

  datatype Event = Created(source: string) | LogsAdded(count: nat)

  /** An incident row together with the timeline and log rows that cascade with it. */
  datatype Incident = Incident(
    title: string, service: string, severity: string, description: string, events: seq<Event>, logs: seq<LogInput>)

  datatype AlertRow = AlertRow(
    incident: IncidentId, key: Key, title: string, service: string, severity: string, description: string)

  datatype Store = Store(alerts: set<AlertRow>, incidents: map<IncidentId, Incident>)

  /** Where an incident came from: the alert that created it. */
  datatype Origin = Origin(source: string, alert: Alert)

  const EMPTY := Store({}, map[])
  const MAX_BATCH: nat := 100
  const MAX_LOGS: nat := 1000

  ghost function Keys(s: Store): set<Key> {
    set r | r in s.alerts :: r.key
  }

  function Union(a: Store, b: Store): Store {
    Store(a.alerts + b.alerts, a.incidents + b.incidents)
  }

  function KeyOf(o: Origin): Key {
    Key(o.source, o.alert.externalId)
  }

  /** The incident as `create_incident` leaves it, before any log is attached. */
  function BareIncident(o: Origin): Incident {
    Incident(o.alert.title, o.alert.service, o.alert.severity, o.alert.description, [Created(o.source)], [])
  }

  /** `add_logs`: the log rows, and one timeline event when there are any. */
  function WithLogs(i: Incident, logs: seq<LogInput>): Incident {
    if logs == [] then i else i.(logs := i.logs + logs, events := i.events + [LogsAdded(|logs|)])
  }

  function AlertOf(id: IncidentId, o: Origin): AlertRow {
    AlertRow(id, KeyOf(o), o.alert.title, o.alert.service, o.alert.severity, o.alert.description)
  }

  /** The incident of a new alert, field by field: the fields and logs of the alert, and the events they leave. */
  ghost predicate Describes(i: Incident, source: string, alert: Alert) {
    && i.title == alert.title && i.service == alert.service && i.severity == alert.severity
    && i.description == alert.description && i.logs == alert.logs
    && i.events == [Created(source)] + if alert.logs == [] then [] else [LogsAdded(|alert.logs|)]
  }

  /** The alert row of a new alert, field by field. */
  ghost predicate Records(r: AlertRow, id: IncidentId, source: string, alert: Alert) {
    && r.incident == id && r.key.source == source && r.key.externalId == alert.externalId
    && r.title == alert.title && r.service == alert.service && r.severity == alert.severity
    && r.description == alert.description
  }

  /** Everything one new alert writes: its incident, its unique alert row, its event(s) and its logs. */
  function Bundle(id: IncidentId, o: Origin): Store {
    Store({AlertOf(id, o)}, map[id := WithLogs(BareIncident(o), o.alert.logs)])
  }

  /** The incident an alert with this key points to. */
  ghost function Lookup(s: Store, key: Key): Option<IncidentId> {
    if exists r :: r in s.alerts && r.key == key then
      var r :| r in s.alerts && r.key == key; Some(r.incident)
    else
      None
  }

  // ---------------------------------------------------------------- ingestion of a batch with nothing beside it

  datatype Outcome = Outcome(incident: IncidentId, duplicate: bool)
  datatype Progress = Progress(store: Store, results: seq<Outcome>)

  /** One alert; `id` is the identifier drawn if an incident has to be created. None is an error. */
  ghost function IngestOne(s: Store, o: Origin, id: IncidentId): Option<(Store, Outcome)> {
    match Lookup(s, KeyOf(o))
    case Some(i) => if i in s.incidents then Some((s, Outcome(i, true))) else None
    case None =>
      if |o.alert.logs| > MAX_LOGS then None else Some((Union(s, Bundle(id, o)), Outcome(id, false)))
  }

  /** The first n alerts of a batch, in order. */
  ghost function Sequential(s: Store, source: string, batch: seq<Alert>, ids: seq<IncidentId>, n: nat): Option<Progress>
    requires n <= |batch| && n <= |ids|
  {
    if n == 0 then Some(Progress(s, []))
    else
      var p :- Sequential(s, source, batch, ids, n - 1);
      var q :- IngestOne(p.store, Origin(source, batch[n - 1]), ids[n - 1]);
      Some(Progress(q.0, p.results + [q.1]))
  }

  // ---------------------------------------------------------------- the concurrent protocol

  datatype Phase =
    | Checking                       // about to look the next alert's key up, or to commit
    | Found(incident: IncidentId)    // an alert row was read; its incident row is read next
    | Missing                        // no alert row was visible
    | Inserting(id: IncidentId)      // in the savepoint: incident and created event written
    | Attaching(id: IncidentId)      // in the savepoint: alert row written, the key is held
    | Lost                           // the unique index rejected the row; the savepoint was rolled back

  /** `base` is what the released savepoints wrote, `writes` adds what the open savepoint wrote. */
  datatype Tx = Tx(
    source: string, batch: seq<Alert>, base: Store, writes: Store,
    ids: seq<IncidentId>, results: seq<Outcome>, phase: Phase)
  {
    predicate Finished() {
      |results| == |batch|
    }

    function Current(): Origin
      requires |results| < |batch|
    {
      Origin(source, batch[|results|])
    }
  }

  datatype CommittedBatch = CommittedBatch(
    source: string, batch: seq<Alert>, ids: seq<IncidentId>, results: seq<Outcome>)

  /** `origin` and `log` are history: which alert drew an identifier, and which batches committed, in order. */
  datatype State = State(
    store: Store, txs: map<TxId, Tx>, origin: map<IncidentId, Origin>, log: seq<CommittedBatch>)

  datatype Action =
    | Begin(t: TxId, source: string, batch: seq<Alert>)
    | Check(t: TxId)
    | ReadIncident(t: TxId)
    | CreateIncident(t: TxId, id: IncidentId)
    | InsertAlert(t: TxId)
    | AttachLogs(t: TxId)
    | Reread(t: TxId)
    | Commit(t: TxId)
    | Abort(t: TxId)
    | Delete(id: IncidentId)

  /** What a statement of transaction t can see. */
  function Visible(s: State, t: TxId): Store
    requires t in s.txs
  {
    Union(s.store, s.txs[t].writes)
  }

  /** Another open transaction has written this key: an insert of it has to wait. */
  ghost predicate HeldByOther(s: State, t: TxId, key: Key) {
    exists u :: u in s.txs && u != t && key in Keys(s.txs[u].writes)
  }

  predicate Working(s: State, t: TxId) {
    t in s.txs && |s.txs[t].results| < |s.txs[t].batch|
  }

  /** Deleting an incident: ON DELETE CASCADE takes its alert rows, events and logs. */
  function Cascade(s: Store, id: IncidentId): Store {
    Store((set r | r in s.alerts && r.incident != id), s.incidents - {id})
  }

  ghost predicate Enabled(s: State, a: Action) {
    match a
    case Begin(t, _, batch) => t !in s.txs && 1 <= |batch| <= MAX_BATCH
    case Check(t) => Working(s, t) && s.txs[t].phase == Checking
    case ReadIncident(t) =>
      Working(s, t) && s.txs[t].phase.Found? && s.txs[t].phase.incident in Visible(s, t).incidents
    case CreateIncident(t, id) =>
      Working(s, t) && s.txs[t].phase == Missing && id !in s.origin && id !in s.store.incidents
      && |s.txs[t].Current().alert.logs| <= MAX_LOGS
    case InsertAlert(t) =>
      Working(s, t) && s.txs[t].phase.Inserting? && !HeldByOther(s, t, KeyOf(s.txs[t].Current()))
    case AttachLogs(t) =>
      Working(s, t) && s.txs[t].phase.Attaching? && s.txs[t].phase.id in s.txs[t].writes.incidents
    case Reread(t) =>
      Working(s, t) && s.txs[t].phase == Lost && Lookup(Visible(s, t), KeyOf(s.txs[t].Current())).Some?
    case Commit(t) => t in s.txs && s.txs[t].Finished() && s.txs[t].phase == Checking
    case Abort(t) => t in s.txs
    case Delete(id) => id in s.store.incidents
  }

  ghost function Apply(s: State, a: Action): State
    requires Enabled(s, a)
  {
    match a
    case Begin(t, source, batch) =>
      s.(txs := s.txs[t := Tx(source, batch, EMPTY, EMPTY, [], [], Checking)])
    case Delete(id) =>
      s.(store := Cascade(s.store, id))
    case Commit(t) =>
      var tx := s.txs[t];
      s.(store := Union(s.store, tx.writes), txs := s.txs - {t},
      log := s.log + [CommittedBatch(tx.source, tx.batch, tx.ids, tx.results)])
    case Abort(t) => s.(txs := s.txs - {t})
    case CreateIncident(t, id) =>
      var tx := s.txs[t];
      s.(txs := s.txs[t := OpenSavepoint(tx, id)], origin := s.origin[id := tx.Current()])
    case _ => s.(txs := s.txs[a.t := Advance(s, a)])
  }

  /** begin_nested and create_incident. */
  function OpenSavepoint(tx: Tx, id: IncidentId): Tx
    requires |tx.results| < |tx.batch|
  {
    tx.(writes := Union(tx.base, Store({}, map[id := BareIncident(tx.Current())])), phase := Inserting(id))
  }

  /** The statements that change nothing but their own transaction. */
  ghost function Advance(s: State, a: Action): Tx
    requires a.Check? || a.ReadIncident? || a.InsertAlert? || a.AttachLogs? || a.Reread?
    requires Enabled(s, a)
  {
    var tx := s.txs[a.t];
    var key := KeyOf(tx.Current());
    match a
    case Check(t) =>
      (match Lookup(Visible(s, t), key)
       case Some(i) => tx.(phase := Found(i))
       case None => tx.(phase := Missing))
    case Reread(t) => tx.(phase := Found(Lookup(Visible(s, t), key).value))
    case ReadIncident(_) =>
      tx.(phase := Checking, results := tx.results + [Outcome(tx.phase.incident, true)], ids := tx.ids + [0])
    case InsertAlert(t) =>
      if key in Keys(Visible(s, t)) then
        tx.(phase := Lost, writes := tx.base)
      else
        tx.(phase := Attaching(tx.phase.id),
        writes := Union(tx.writes, Store({AlertOf(tx.phase.id, tx.Current())}, map[])))
    case AttachLogs(_) =>
      var id := tx.phase.id;
      var full := tx.writes.(incidents :=
      tx.writes.incidents[id := WithLogs(tx.writes.incidents[id], tx.Current().alert.logs)]);
      tx.(phase := Checking, base := full, writes := full,
      results := tx.results + [Outcome(id, false)], ids := tx.ids + [id])
  }

  ghost predicate Feasible(s: State, run: seq<Action>)
    decreases |run|
  {
    run == [] || (Enabled(s, run[0]) && Feasible(Apply(s, run[0]), run[1..]))
  }

  ghost function Run(s: State, run: seq<Action>): State
    requires Feasible(s, run)
    decreases |run|
  {
    if run == [] then s else Run(Apply(s, run[0]), run[1..])
  }

  ghost predicate DeleteFree(run: seq<Action>) {
    forall i | 0 <= i < |run| :: !run[i].Delete?
  }

  /** The committed batches ingested one after the other, each alone, in commit order. */
  ghost function Replay(s: Store, log: seq<CommittedBatch>): Option<Store> {
    if log == [] then Some(s)
    else
      var before :- Replay(s, log[..|log| - 1]);
      var e := log[|log| - 1];
      if |e.ids| != |e.batch| then None
      else
        var p :- Sequential(before, e.source, e.batch, e.ids, |e.batch|);
        if p.results == e.results then Some(p.store) else None
  }
}
