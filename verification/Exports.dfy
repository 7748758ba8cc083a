/**
 Exporting, editing and generating the postmortem of one incident, as requests that interleave under PostgreSQL row
 locks. Every request first takes the incident row FOR UPDATE; the postmortem row is locked after it. The remote
 call happens inside the critical section, may create the remote artifact and still fail, and the process may die
 at any point. Only a commit changes the stored rows, and it writes just the columns its request assigned. What the
 client hears is not part of the state: a commit that the server made and the client sees as an error is a Commit too.
 */
module Exports {
  import opened Options

  type RequestId = nat

  datatype Destination = Jira | Confluence
  datatype Receipt = Receipt(destination: Destination, externalId: string, url: string, isDemo: bool)

  datatype Postmortem = Postmortem(
    markdown: string, version: nat, jiraKey: Option<string>, jiraUrl: Option<string>, confluenceUrl: Option<string>)

  /** The rows of the incident: its export receipts in insertion order, and its postmortem if there is one. */
  datatype Db = Db(receipts: seq<Receipt>, postmortem: Option<Postmortem>)

  datatype Exporter = Real | Demo
  datatype Kind = Export(destination: Destination) | Edit(edited: string) | Generate(draft: string)

  datatype Phase =
    | Waiting                                                   // for the incident row
    | Entered                                                   // holds the incident row
    | Chosen(previous: Option<nat>, exporter: Exporter)         // export: receipt read, exporter picked
    | Calling(previous: Option<nat>, exporter: Exporter)        // export: postmortem row locked, call under way
    | Answered(previous: Option<nat>, receipt: Receipt)         // export: the exporter returned
    | Editing(seen: nat)                                        // edit: postmortem row locked, version read
    | Drafting(found: Option<nat>)                              // generate: version read without a lock
    | Done

  datatype Request = Request(kind: Kind, phase: Phase)

  /** Per destination: remote artifacts created, and how many of them belong to a request that did not commit. */
  datatype Tally = Tally(created: nat, lost: nat)

  datatype State = State(
    db: Db, incidentLock: Option<RequestId>, postmortemLock: Option<RequestId>, requests: map<RequestId, Request>,
    jira: Tally, confluence: Tally, revisions: nat)

  /** `get_exporter`: a destination with all its settings is real; otherwise demo mode decides. */
  function GetExporter(configured: bool, demoMode: bool): Option<Exporter> {
    if configured then Some(Real) else if demoMode then Some(Demo) else None
  }

  /** The receipt row of a destination. */
  function FindReceipt(rows: seq<Receipt>, d: Destination): (r: Option<nat>)
    ensures r.Some? ==> r.value < |rows| && rows[r.value].destination == d
    ensures r.None? <==> forall i | 0 <= i < |rows| :: rows[i].destination != d
  {
    if rows == [] then None
    else if rows[|rows| - 1].destination == d then Some(|rows| - 1)
    else FindReceipt(rows[..|rows| - 1], d)
  }

  /** The receipt found before is updated, or a new one is added. */
  function WithReceipt(rows: seq<Receipt>, previous: Option<nat>, receipt: Receipt): seq<Receipt>
    requires previous.Some? ==> previous.value < |rows|
  {
    if previous.Some? then rows[previous.value := receipt] else rows + [receipt]
  }

  function TallyOf(s: State, d: Destination): Tally {
    if d.Jira? then s.jira else s.confluence
  }

  function WithTally(s: State, d: Destination, t: Tally): State {
    if d.Jira? then s.(jira := t) else s.(confluence := t)
  }

  function SetLink(p: Postmortem, r: Receipt): Postmortem {
    if r.destination.Jira? then p.(jiraKey := Some(r.externalId), jiraUrl := Some(r.url))
    else p.(confluenceUrl := Some(r.url))
  }

  datatype Action =
    | Arrive(r: RequestId, kind: Kind)
    | Enter(r: RequestId)
    | Choose(r: RequestId, configured: bool, demoMode: bool)
    | ReadPostmortem(r: RequestId)
    | Return(r: RequestId, externalId: string, url: string)   // the exporter returns a receipt
    | Fail(r: RequestId, created: bool)                        // it raises, perhaps after the artifact exists
    | Commit(r: RequestId)
    | Crash(r: RequestId)

  predicate Enabled(s: State, a: Action) {
    match a
    case Arrive(r, _) => r !in s.requests
    case Enter(r) => r in s.requests && s.requests[r].phase == Waiting && s.incidentLock == None
    case Choose(r, _, _) => r in s.requests && s.requests[r].phase == Entered && s.requests[r].kind.Export?
    case ReadPostmortem(r) =>
      r in s.requests && CanReadPostmortem(s, s.requests[r])
    case Return(r, _, _) => r in s.requests && s.requests[r].phase.Calling? && s.requests[r].kind.Export?
    case Fail(r, created) =>
      r in s.requests && s.requests[r].phase.Calling? && s.requests[r].kind.Export?
      && s.requests[r].phase.exporter.Real?
    case Commit(r) => r in s.requests && CanCommit(s, s.requests[r])
    case Crash(r) => r in s.requests && s.requests[r].phase != Done
  }

  /** An export or an edit waits for the postmortem row; a generate request reads it without a lock. */
  predicate CanReadPostmortem(s: State, q: Request) {
    match q.kind
    case Export(_) => q.phase.Chosen? && s.postmortemLock == None
    case Edit(_) => q.phase == Entered && s.postmortemLock == None
    case Generate(_) => q.phase == Entered
  }

  predicate CanCommit(s: State, q: Request) {
    match q.phase
    case Answered(previous, _) =>
      q.kind.Export? && s.db.postmortem.Some? && (previous.Some? ==> previous.value < |s.db.receipts|)
    case Editing(_) => q.kind.Edit? && s.db.postmortem.Some?
    // The UPDATE of an existing postmortem row waits for its lock.
    case Drafting(found) => q.kind.Generate? && (found.Some? ==> s.db.postmortem.Some? && s.postmortemLock == None)
    case _ => false
  }

  /** The end of a transaction: its row locks are gone. */
  function Release(s: State, r: RequestId): State
    requires r in s.requests
  {
    s.(incidentLock := if s.incidentLock == Some(r) then None else s.incidentLock,
    postmortemLock := if s.postmortemLock == Some(r) then None else s.postmortemLock,
    requests := s.requests[r := s.requests[r].(phase := Done)])
  }

  function Goto(s: State, r: RequestId, p: Phase): State
    requires r in s.requests
  {
    s.(requests := s.requests[r := s.requests[r].(phase := p)])
  }

  function Apply(s: State, a: Action): State
    requires Enabled(s, a)
  {
    match a
    case Arrive(r, kind) => s.(requests := s.requests[r := Request(kind, Waiting)])
    case Enter(r) => Goto(s, r, Entered).(incidentLock := Some(r))
    case Choose(r, configured, demoMode) => ChooseExporter(s, r, configured, demoMode)
    case ReadPostmortem(r) => TakePostmortem(s, r)
    case Return(r, externalId, url) =>
      var p, d := s.requests[r].phase, s.requests[r].kind.destination;
      var s' := Goto(s, r, Answered(p.previous, Receipt(d, externalId, url, p.exporter.Demo?)));
      if p.exporter.Demo? then s'
      else WithTally(s', d, TallyOf(s, d).(created := TallyOf(s, d).created + 1))
    case Fail(r, created) =>
      var d := s.requests[r].kind.destination;
      var t := TallyOf(s, d);
      if created then WithTally(Release(s, r), d, Tally(t.created + 1, t.lost + 1)) else Release(s, r)
    case Commit(r) => CommitRequest(s, r)
    case Crash(r) =>
      var q := s.requests[r];
      if q.phase.Answered? && q.kind.Export? && !q.phase.receipt.isDemo then
        var t := TallyOf(s, q.kind.destination);
        WithTally(Release(s, r), q.kind.destination, t.(lost := t.lost + 1))
      else
        Release(s, r)
  }

  /** The receipt is read; a real one, or any one when only a demo exporter is available, is returned as it is. */
  function ChooseExporter(s: State, r: RequestId, configured: bool, demoMode: bool): State
    requires r in s.requests && s.requests[r].kind.Export?
  {
    var previous := FindReceipt(s.db.receipts, s.requests[r].kind.destination);
    if previous.Some? && !s.db.receipts[previous.value].isDemo then Release(s, r)
    else
      match GetExporter(configured, demoMode)
      case None => Release(s, r)
      case Some(e) =>
        if previous.Some? && e.Demo? then Release(s, r) else Goto(s, r, Chosen(previous, e))
  }

  /** get_postmortem: an error when there is none, except for a generate request. */
  function TakePostmortem(s: State, r: RequestId): State
    requires r in s.requests && CanReadPostmortem(s, s.requests[r])
  {
    var q := s.requests[r];
    match q.kind
    case Generate(_) =>
      Goto(s, r, Drafting(if s.db.postmortem.Some? then Some(s.db.postmortem.value.version) else None))
    case Export(_) =>
      if s.db.postmortem.None? then Release(s, r)
      else Goto(s, r, Calling(q.phase.previous, q.phase.exporter)).(postmortemLock := Some(r))
    case Edit(_) =>
      if s.db.postmortem.None? then Release(s, r)
      else Goto(s, r, Editing(s.db.postmortem.value.version)).(postmortemLock := Some(r))
  }

  function CommitRequest(s: State, r: RequestId): State
    requires r in s.requests && CanCommit(s, s.requests[r])
  {
    var q := s.requests[r];
    match q.phase
    case Answered(previous, receipt) =>
      Release(s, r).(db := Db(WithReceipt(s.db.receipts, previous, receipt),
          Some(SetLink(s.db.postmortem.value, receipt))))
    case Editing(seen) =>
      Release(s, r).(db := s.db.(postmortem := Some(s.db.postmortem.value.(markdown := q.kind.edited,
          version := seen + 1))),
      revisions := s.revisions + 1)
    case Drafting(found) =>
      var p := match found
      case Some(seen) => s.db.postmortem.value.(markdown := q.kind.draft, version := seen + 1)
      case None => Postmortem(q.kind.draft, 1, None, None, None);
      Release(s, r).(db := s.db.(postmortem := Some(p)), revisions := s.revisions + 1)
  }

  predicate Feasible(s: State, run: seq<Action>)
    decreases |run|
  {
    run == [] || (Enabled(s, run[0]) && Feasible(Apply(s, run[0]), run[1..]))
  }

  function Run(s: State, run: seq<Action>): State
    requires Feasible(s, run)
    decreases |run|
  {
    if run == [] then s else Run(Apply(s, run[0]), run[1..])
  }

  const START := State(Db([], None), None, None, map[], Tally(0, 0), Tally(0, 0), 0)
}
