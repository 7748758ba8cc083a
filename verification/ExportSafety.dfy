/**
 What the row locks give: at most one receipt per destination and one remote artifact per export that was not cut
 off, no lost postmortem revision, links that match the receipts, and no deadlock.
 */
module ExportSafety {
  import opened Options
  import opened Exports

  predicate OnePerDestination(rows: seq<Receipt>) {
    forall i, j | 0 <= i < j < |rows| :: rows[i].destination != rows[j].destination
  }

  /** The Jira and Confluence fields of the postmortem are those of the stored receipts. */
  predicate Linked(db: Db) {
    match db.postmortem
    case None => db.receipts == []
    case Some(p) =>
      && (match FindReceipt(db.receipts, Jira)
          case None => p.jiraKey == None && p.jiraUrl == None
          case Some(i) => p.jiraKey == Some(db.receipts[i].externalId) && p.jiraUrl == Some(db.receipts[i].url))
      && (match FindReceipt(db.receipts, Confluence)
          case None => p.confluenceUrl == None
          case Some(i) => p.confluenceUrl == Some(db.receipts[i].url))
  }

  function Version(db: Db): nat {
    if db.postmortem.Some? then db.postmortem.value.version else 0
  }

  predicate HasReal(db: Db, d: Destination) {
    var i := FindReceipt(db.receipts, d);
    i.Some? && !db.receipts[i.value].isDemo
  }

  predicate Critical(p: Phase) {
    !p.Waiting? && !p.Done?
  }

  predicate HoldsPostmortem(p: Phase) {
    p.Calling? || p.Answered? || p.Editing?
  }

  predicate Locks(s: State) {
    && (forall r | r in s.requests :: Critical(s.requests[r].phase) <==> s.incidentLock == Some(r))
    && (forall r | r in s.requests :: HoldsPostmortem(s.requests[r].phase) <==> s.postmortemLock == Some(r))
    && (s.incidentLock.Some? ==> s.incidentLock.value in s.requests)
    && (s.postmortemLock.Some? ==> s.postmortemLock.value in s.requests)
  }

  predicate PreviousCurrent(db: Db, d: Destination, previous: Option<nat>, upgrade: bool) {
    previous == FindReceipt(db.receipts, d) && (previous.Some? ==> db.receipts[previous.value].isDemo && upgrade)
  }

  /** What a request read under its locks is still what the rows say. */
  predicate Fresh(db: Db, q: Request) {
    match q.phase
    case Chosen(previous, e) => q.kind.Export? && PreviousCurrent(db, q.kind.destination, previous, e.Real?)
    case Calling(previous, e) =>
      q.kind.Export? && db.postmortem.Some? && PreviousCurrent(db, q.kind.destination, previous, e.Real?)
    case Answered(previous, receipt) =>
      && q.kind.Export? && db.postmortem.Some? && receipt.destination == q.kind.destination
      && PreviousCurrent(db, q.kind.destination, previous, !receipt.isDemo)
    case Editing(seen) => q.kind.Edit? && db.postmortem.Some? && db.postmortem.value.version == seen
    case Drafting(found) =>
      q.kind.Generate? && found == (if db.postmortem.Some? then Some(db.postmortem.value.version) else None)
    case _ => true
  }

  /** A real artifact exists for d whose request has neither committed nor died. */
  predicate Pending(s: State, d: Destination) {
    && s.incidentLock.Some? && s.incidentLock.value in s.requests
    && var q := s.requests[s.incidentLock.value];
    q.kind == Export(d) && q.phase.Answered? && !q.phase.receipt.isDemo
  }

  predicate Counted(s: State, d: Destination) {
    TallyOf(s, d).created
    == TallyOf(s, d).lost + (if HasReal(s.db, d) then 1 else 0) + if Pending(s, d) then 1 else 0
  }

  ghost predicate Good(s: State) {
    && OnePerDestination(s.db.receipts)
    && Linked(s.db)
    && Version(s.db) == s.revisions
    && Locks(s)
    && (forall r | r in s.requests :: Fresh(s.db, s.requests[r]))
    && Counted(s, Jira) && Counted(s, Confluence)
  }

  // ---------------------------------------------------------------- the rows after a commit

  lemma FindUnique(rows: seq<Receipt>, i: nat)
    requires OnePerDestination(rows) && i < |rows|
    ensures FindReceipt(rows, rows[i].destination) == Some(i)
  {
    var j := FindReceipt(rows, rows[i].destination);
  }

  /** Storing the receipt of an export keeps one receipt per destination and does not touch the other one. */
  lemma StoredReceipt(rows: seq<Receipt>, previous: Option<nat>, receipt: Receipt)
    requires OnePerDestination(rows) && previous == FindReceipt(rows, receipt.destination)
    ensures var rows' := WithReceipt(rows, previous, receipt);
            && OnePerDestination(rows')
            && FindReceipt(rows', receipt.destination).Some?
            && rows'[FindReceipt(rows', receipt.destination).value] == receipt
            && forall d | d != receipt.destination :: FindReceipt(rows', d) == FindReceipt(rows, d)
                  && (FindReceipt(rows, d).Some? ==>
                        rows'[FindReceipt(rows, d).value] == rows[FindReceipt(rows, d).value])
  {
    var at := if previous.Some? then previous.value else |rows|;
    var rows' := WithReceipt(rows, previous, receipt);
    FindUnique(rows', at);
    forall d | d != receipt.destination
      ensures FindReceipt(rows', d) == FindReceipt(rows, d)
    {
      var found := FindReceipt(rows, d);
      if found.Some? {
        assert rows'[found.value] == rows[found.value];
        FindUnique(rows', found.value);
      } else {
        assert forall i | 0 <= i < |rows'| :: i != at ==> rows'[i] == rows[i];
      }
    }
  }

  // ---------------------------------------------------------------- each step

  /** A step by r that keeps the rows and does not finish: only r's phase, locks and the tallies may move. */
  lemma KeepsRows(s: State, s': State, r: RequestId)
    requires Good(s) && s'.db == s.db && s'.revisions == s.revisions
    requires r in s'.requests && s'.requests == s.requests[r := s'.requests[r]]
    requires Locks(s') && Fresh(s.db, s'.requests[r])
    requires Counted(s', Jira) && Counted(s', Confluence)
    ensures Good(s')
  {
    forall u | u in s'.requests ensures Fresh(s'.db, s'.requests[u]) {
      assert u != r ==> s'.requests[u] == s.requests[u];
    }
  }

  lemma ReleaseLocks(s: State, r: RequestId)
    requires Locks(s) && r in s.requests
    ensures Locks(Release(s, r))
    ensures forall d :: Pending(Release(s, r), d) <==> Pending(s, d) && s.incidentLock != Some(r)
  {
  }

  /** A request that moves on to a phase holding the same locks, with nothing created on either side of the move. */
  lemma GotoGood(s: State, r: RequestId, p: Phase)
    requires Good(s) && r in s.requests && Fresh(s.db, s.requests[r].(phase := p))
    requires Critical(p) == Critical(s.requests[r].phase) && HoldsPostmortem(p) == HoldsPostmortem(s.requests[r].phase)
    requires !p.Answered? && !s.requests[r].phase.Answered?
    ensures Good(Goto(s, r, p))
  {
    var s' := Goto(s, r, p);
    assert Locks(s') by { GotoLocks(s, r, p); }
    NothingPending(s, s', r, Jira);
    NothingPending(s, s', r, Confluence);
    KeepsRows(s, s', r);
  }

  lemma GotoLocks(s: State, r: RequestId, p: Phase)
    requires Locks(s) && r in s.requests
    requires Critical(p) == Critical(s.requests[r].phase) && HoldsPostmortem(p) == HoldsPostmortem(s.requests[r].phase)
    ensures Locks(Goto(s, r, p))
  {
  }

  /** A step of r that neither starts nor ends with a created artifact leaves the tallies right. */
  lemma NothingPending(s: State, s': State, r: RequestId, d: Destination)
    requires Counted(s, d) && r in s.requests && !s.requests[r].phase.Answered?
    requires r in s'.requests && s'.requests == s.requests[r := s'.requests[r]] && !s'.requests[r].phase.Answered?
    requires s'.db == s.db && TallyOf(s', d) == TallyOf(s, d)
    requires s'.incidentLock == s.incidentLock || s.incidentLock.None? || s.incidentLock == Some(r)
    requires s'.incidentLock == s.incidentLock || s'.incidentLock.None? || s'.incidentLock == Some(r)
    ensures Counted(s', d)
  {
    assert Pending(s', d) == Pending(s, d);
  }

  /** A request with nothing created that gives up or answers early. */
  lemma ReleaseGood(s: State, r: RequestId)
    requires Good(s) && r in s.requests && !s.requests[r].phase.Answered?
    ensures Good(Release(s, r))
  {
    ReleaseLocks(s, r);
    NothingPending(s, Release(s, r), r, Jira);
    NothingPending(s, Release(s, r), r, Confluence);
    KeepsRows(s, Release(s, r), r);
  }

  lemma ArriveGood(s: State, r: RequestId, kind: Kind)
    requires Good(s) && r !in s.requests
    ensures Good(Apply(s, Arrive(r, kind)))
  {
    var s' := Apply(s, Arrive(r, kind));
    assert forall d :: Pending(s', d) == Pending(s, d);
    assert Counted(s', Jira) && Counted(s', Confluence);
    KeepsRows(s, s', r);
  }

  lemma EnterLocks(s: State, r: RequestId)
    requires Locks(s) && r in s.requests && s.requests[r].phase == Waiting && s.incidentLock == None
    ensures Locks(Goto(s, r, Entered).(incidentLock := Some(r)))
  {
  }

  lemma EnterGood(s: State, r: RequestId)
    requires Good(s) && Enabled(s, Enter(r))
    ensures Good(Apply(s, Enter(r)))
  {
    var s' := Apply(s, Enter(r));
    EnterLocks(s, r);
    NothingPending(s, s', r, Jira);
    NothingPending(s, s', r, Confluence);
    KeepsRows(s, s', r);
  }

  lemma ChooseGood(s: State, r: RequestId, configured: bool, demoMode: bool)
    requires Good(s) && Enabled(s, Choose(r, configured, demoMode))
    ensures Good(Apply(s, Choose(r, configured, demoMode)))
  {
    var s' := ChooseExporter(s, r, configured, demoMode);
    if s' == Release(s, r) {
      ReleaseGood(s, r);
    } else {
      var previous := FindReceipt(s.db.receipts, s.requests[r].kind.destination);
      var e := GetExporter(configured, demoMode).value;
      assert s' == Goto(s, r, Chosen(previous, e));
      GotoGood(s, r, Chosen(previous, e));
    }
  }

  lemma LockPostmortem(s: State, r: RequestId, p: Phase)
    requires Locks(s) && r in s.requests && s.postmortemLock == None && Critical(s.requests[r].phase)
    requires Critical(p) && HoldsPostmortem(p)
    ensures Locks(Goto(s, r, p).(postmortemLock := Some(r)))
  {
  }

  lemma ReadGood(s: State, r: RequestId)
    requires Good(s) && Enabled(s, ReadPostmortem(r))
    ensures Good(Apply(s, ReadPostmortem(r)))
  {
    var q, s' := s.requests[r], TakePostmortem(s, r);
    assert Fresh(s.db, q);
    if q.kind.Generate? {
      GotoGood(s, r, s'.requests[r].phase);
    } else if s.db.postmortem.None? {
      ReleaseGood(s, r);
    } else {
      LockPostmortem(s, r, s'.requests[r].phase);
      NothingPending(s, s', r, Jira);
      NothingPending(s, s', r, Confluence);
      KeepsRows(s, s', r);
    }
  }

  lemma ReturnCounted(s: State, a: Action, d: Destination)
    requires Enabled(s, a) && a.Return? && s.incidentLock == Some(a.r) && Counted(s, d)
    ensures Counted(Apply(s, a), d)
  {
    var s', q := Apply(s, a), s.requests[a.r];
    assert s'.db == s.db && s'.requests[a.r].kind == q.kind && s'.incidentLock == Some(a.r);
    assert !Pending(s, d);
    assert Pending(s', d) <==> d == q.kind.destination && q.phase.exporter.Real?;
  }

  lemma ReturnGood(s: State, a: Action)
    requires Good(s) && Enabled(s, a) && a.Return?
    ensures Good(Apply(s, a))
  {
    var s', q := Apply(s, a), s.requests[a.r];
    assert Fresh(s.db, q) && s.incidentLock == Some(a.r);
    ReturnCounted(s, a, Jira);
    ReturnCounted(s, a, Confluence);
    GotoLocks(s, a.r, s'.requests[a.r].phase);
    KeepsRows(s, s', a.r);
  }

  /** An artifact that was created by a request that failed counts on both sides. */
  lemma LostGood(s: State, d: Destination, t: Tally)
    requires Good(s) && t.created - t.lost == TallyOf(s, d).created - TallyOf(s, d).lost
    ensures Good(WithTally(s, d, t))
  {
    var s' := WithTally(s, d, t);
    assert forall e :: Pending(s', e) == Pending(s, e);
    assert Counted(s', Jira) && Counted(s', Confluence);
  }

  lemma FailGood(s: State, r: RequestId, created: bool)
    requires Good(s) && Enabled(s, Fail(r, created))
    ensures Good(Apply(s, Fail(r, created)))
  {
    ReleaseGood(s, r);
    if created {
      var d := s.requests[r].kind.destination;
      LostGood(Release(s, r), d, Tally(TallyOf(s, d).created + 1, TallyOf(s, d).lost + 1));
    }
  }

  lemma CrashGood(s: State, a: Action)
    requires Good(s) && Enabled(s, a) && a.Crash?
    ensures Good(Apply(s, a))
  {
    ReleaseLocks(s, a.r);
    KeepsRows(s, Apply(s, a), a.r);
  }

  /** Whoever commits is alone in the critical section, so no other request has read anything. */
  lemma CommitAlone(s: State, r: RequestId, db: Db)
    requires Good(s) && r in s.requests && Critical(s.requests[r].phase)
    ensures forall u | u in s.requests && u != r :: Fresh(db, s.requests[u])
  {
    assert s.incidentLock == Some(r);
    forall u | u in s.requests && u != r ensures Fresh(db, s.requests[u]) {
      assert !Critical(s.requests[u].phase);
    }
  }

  /** After a commit, the other requests are as they were and the committer holds nothing. */
  lemma CommitFrame(s: State, a: Action)
    requires Good(s) && Enabled(s, a) && a.Commit?
    ensures var s' := Apply(s, a);
            && Locks(s') && (forall r | r in s'.requests :: Fresh(s'.db, s'.requests[r]))
            && forall d :: !Pending(s', d)
  {
    var s' := Apply(s, a);
    assert s.incidentLock == Some(a.r);
    ReleaseLocks(s, a.r);
    assert s'.requests == Release(s, a.r).requests && s'.incidentLock == None;
    CommitAlone(s, a.r, s'.db);
    forall u | u in s'.requests ensures Fresh(s'.db, s'.requests[u]) {
      assert u != a.r ==> s'.requests[u] == s.requests[u];
    }
  }

  lemma CommitExportCounted(s: State, a: Action, d: Destination)
    requires Enabled(s, a) && a.Commit? && s.requests[a.r].phase.Answered? && s.incidentLock == Some(a.r)
    requires OnePerDestination(s.db.receipts) && Fresh(s.db, s.requests[a.r]) && Counted(s, d)
    ensures Counted(Apply(s, a), d)
  {
    var q, s' := s.requests[a.r], Apply(s, a);
    StoredReceipt(s.db.receipts, q.phase.previous, q.phase.receipt);
    assert TallyOf(s', d) == TallyOf(s, d) && !Pending(s', d);
    assert Pending(s, d) <==> d == q.kind.destination && !q.phase.receipt.isDemo;
    assert d != q.kind.destination ==> HasReal(s'.db, d) == HasReal(s.db, d);
  }

  /** The link fields follow the receipt that was stored. */
  lemma CommitExportLinked(db: Db, previous: Option<nat>, receipt: Receipt)
    requires OnePerDestination(db.receipts) && Linked(db) && db.postmortem.Some?
    requires previous == FindReceipt(db.receipts, receipt.destination)
    ensures var rows := WithReceipt(db.receipts, previous, receipt);
            OnePerDestination(rows) && Linked(Db(rows, Some(SetLink(db.postmortem.value, receipt))))
  {
    StoredReceipt(db.receipts, previous, receipt);
    assert receipt.destination.Jira? || receipt.destination.Confluence?;
  }

  lemma CommitExportGood(s: State, a: Action)
    requires Good(s) && Enabled(s, a) && a.Commit? && s.requests[a.r].phase.Answered?
    ensures Good(Apply(s, a))
  {
    var q := s.requests[a.r];
    assert Fresh(s.db, q) && s.incidentLock == Some(a.r);
    CommitFrame(s, a);
    CommitExportLinked(s.db, q.phase.previous, q.phase.receipt);
    CommitExportCounted(s, a, Jira);
    CommitExportCounted(s, a, Confluence);
  }

  lemma CommitRevisionCounted(s: State, a: Action, d: Destination)
    requires Enabled(s, a) && a.Commit? && !s.requests[a.r].phase.Answered? && s.incidentLock == Some(a.r)
    requires Counted(s, d)
    ensures Counted(Apply(s, a), d)
  {
    var s' := Apply(s, a);
    assert s'.db.receipts == s.db.receipts && TallyOf(s', d) == TallyOf(s, d);
    assert !Pending(s, d) && !Pending(s', d);
  }

  /** New text and a new version leave the link fields alone; a first postmortem has none, and there is no receipt. */
  lemma CommitRevisionLinked(s: State, a: Action)
    requires Enabled(s, a) && a.Commit? && !s.requests[a.r].phase.Answered?
    requires Linked(s.db) && Version(s.db) == s.revisions && Fresh(s.db, s.requests[a.r])
    ensures Linked(Apply(s, a).db) && Version(Apply(s, a).db) == Apply(s, a).revisions
  {
  }

  lemma CommitRevisionGood(s: State, a: Action)
    requires Good(s) && Enabled(s, a) && a.Commit? && !s.requests[a.r].phase.Answered?
    ensures Good(Apply(s, a))
  {
    var q, s' := s.requests[a.r], Apply(s, a);
    assert Fresh(s.db, q) && s.incidentLock == Some(a.r);
    CommitFrame(s, a);
    CommitRevisionLinked(s, a);
    CommitRevisionCounted(s, a, Jira);
    CommitRevisionCounted(s, a, Confluence);
    assert s'.db.receipts == s.db.receipts;
  }

  lemma StepGood(s: State, a: Action)
    requires Good(s) && Enabled(s, a)
    ensures Good(Apply(s, a))
  {
    match a
    case Arrive(r, kind) => ArriveGood(s, r, kind);
    case Enter(r) => EnterGood(s, r);
    case Choose(r, configured, demoMode) => ChooseGood(s, r, configured, demoMode);
    case ReadPostmortem(r) => ReadGood(s, r);
    case Return(_, _, _) => ReturnGood(s, a);
    case Fail(r, created) => FailGood(s, r, created);
    case Commit(r) =>
      if s.requests[r].phase.Answered? {
        CommitExportGood(s, a);
      } else {
        CommitRevisionGood(s, a);
      }
    case Crash(_) => CrashGood(s, a);
  }

  lemma {:induction false} RunsStayGood(s: State, run: seq<Action>)
    requires Good(s) && Feasible(s, run)
    ensures Good(Run(s, run))
    decreases |run|
  {
    if run != [] {
      StepGood(s, run[0]);
      RunsStayGood(Apply(s, run[0]), run[1..]);
    }
  }

  // ---------------------------------------------------------------- the results

  predicate For(s: State, r: RequestId, d: Destination) {
    r in s.requests && s.requests[r].kind == Export(d)
  }

  /** The step makes a remote artifact: a real exporter answers, or fails after the artifact exists. */
  function Creates(s: State, a: Action, d: Destination): nat
    requires Enabled(s, a)
  {
    match a
    case Return(r, _, _) => if For(s, r, d) && s.requests[r].phase.exporter.Real? then 1 else 0
    case Fail(r, created) => if For(s, r, d) && created then 1 else 0
    case _ => 0
  }

  /** The step ends a request whose artifact exists, without a commit. */
  function Loses(s: State, a: Action, d: Destination): nat
    requires Enabled(s, a)
  {
    match a
    case Fail(r, created) => if For(s, r, d) && created then 1 else 0
    case Crash(r) =>
      if For(s, r, d) && s.requests[r].phase.Answered? && !s.requests[r].phase.receipt.isDemo then 1 else 0
    case _ => 0
  }

  /** The remote artifacts that a run makes. */
  function Created(s: State, run: seq<Action>, d: Destination): nat
    requires Feasible(s, run)
    decreases |run|
  {
    if run == [] then 0 else Creates(s, run[0], d) + Created(Apply(s, run[0]), run[1..], d)
  }

  /** Those of requests that failed or died after the artifact existed. */
  function Lost(s: State, run: seq<Action>, d: Destination): nat
    requires Feasible(s, run)
    decreases |run|
  {
    if run == [] then 0 else Loses(s, run[0], d) + Lost(Apply(s, run[0]), run[1..], d)
  }

  lemma StepTallies(s: State, a: Action, d: Destination)
    requires Enabled(s, a)
    ensures TallyOf(Apply(s, a), d)
            == Tally(TallyOf(s, d).created + Creates(s, a, d), TallyOf(s, d).lost + Loses(s, a, d))
  {
  }

  lemma {:induction false} RunTallies(s: State, run: seq<Action>, d: Destination)
    requires Feasible(s, run)
    ensures TallyOf(Run(s, run), d)
            == Tally(TallyOf(s, d).created + Created(s, run, d), TallyOf(s, d).lost + Lost(s, run, d))
    decreases |run|
  {
    if run != [] {
      StepTallies(s, run[0], d);
      RunTallies(Apply(s, run[0]), run[1..], d);
    }
  }

  /**
   At most one receipt per destination, and the remote artifacts that the run made are at most one more than those of
   the requests that failed or died after their artifact existed; exactly one more once a real receipt is stored.
   */
  lemma AtMostOnceExport(run: seq<Action>, d: Destination)
    requires Feasible(START, run)
    ensures var s := Run(START, run);
            && OnePerDestination(s.db.receipts)
            && Created(START, run, d) <= 1 + Lost(START, run, d)
            && (HasReal(s.db, d) ==> Created(START, run, d) == 1 + Lost(START, run, d))
  {
    RunsStayGood(START, run);
    RunTallies(START, run, d);
    var s := Run(START, run);
    assert Counted(s, d);
    if Pending(s, d) {
      assert Fresh(s.db, s.requests[s.incidentLock.value]);
    }
  }

  /** Receipts are never removed; a real one never changes, and a demo one changes only by becoming real. */
  predicate OnlyImproved(before: seq<Receipt>, after: seq<Receipt>) {
    && |before| <= |after|
    && forall i | 0 <= i < |before| ::
         || after[i] == before[i]
         || (before[i].isDemo && !after[i].isDemo && after[i].destination == before[i].destination)
  }

  lemma StepOnlyImproves(s: State, a: Action)
    requires Good(s) && Enabled(s, a)
    ensures OnlyImproved(s.db.receipts, Apply(s, a).db.receipts)
  {
    if a.Commit? {
      assert Fresh(s.db, s.requests[a.r]);
    }
  }

  lemma {:induction false} ReceiptsOnlyImprove(s: State, run: seq<Action>)
    requires Good(s) && Feasible(s, run)
    ensures OnlyImproved(s.db.receipts, Run(s, run).db.receipts)
    decreases |run|
  {
    if run != [] {
      StepGood(s, run[0]);
      StepOnlyImproves(s, run[0]);
      ReceiptsOnlyImprove(Apply(s, run[0]), run[1..]);
    }
  }

  /** No revision is lost, and the link fields are the stored receipts, whatever the interleaving. */
  lemma NoLostRevision(run: seq<Action>)
    requires Feasible(START, run)
    ensures var s := Run(START, run); Version(s.db) == s.revisions == Revisions(START, run) && Linked(s.db)
  {
    RunsStayGood(START, run);
    RevisionsCounted(START, run);
  }

  /** The edit and generate requests that commit in a run. */
  function Revisions(s: State, run: seq<Action>): nat
    requires Feasible(s, run)
    decreases |run|
  {
    if run == [] then 0
    else (if run[0].Commit? && !s.requests[run[0].r].kind.Export? then 1 else 0) + Revisions(Apply(s, run[0]), run[1..])
  }

  lemma {:induction false} RevisionsCounted(s: State, run: seq<Action>)
    requires Feasible(s, run)
    ensures Run(s, run).revisions == s.revisions + Revisions(s, run)
    decreases |run|
  {
    if run != [] {
      RevisionsCounted(Apply(s, run[0]), run[1..]);
    }
  }

  // ---------------------------------------------------------------- progress

  function Rank(p: Phase): nat {
    match p
    case Waiting => 5
    case Entered => 4
    case Chosen(_, _) => 3
    case Calling(_, _) => 2
    case Answered(_, _) => 1
    case Editing(_) => 1
    case Drafting(_) => 1
    case Done => 0
  }

  /** What the holder of the incident row does next, or how a waiting request enters when nobody holds it. */
  function NextStep(s: State, r: RequestId): Action
    requires r in s.requests
  {
    match s.requests[r].phase
    case Waiting => Enter(r)
    case Entered => if s.requests[r].kind.Export? then Choose(r, true, true) else ReadPostmortem(r)
    case Chosen(_, _) => ReadPostmortem(r)
    case Calling(_, _) => Return(r, "", "")
    case _ => Commit(r)
  }

  lemma StepComesCloser(s: State, u: RequestId)
    requires u in s.requests && s.requests[u].phase != Done && Enabled(s, NextStep(s, u))
    ensures var s' := Apply(s, NextStep(s, u));
            && u in s'.requests && Rank(s'.requests[u].phase) < Rank(s.requests[u].phase)
            && forall v | v in s.requests && v != u :: v in s'.requests && s'.requests[v] == s.requests[v]
  {
  }

  /**
   While a request is unfinished, some unfinished request can take a regular step, not a crash, and that step
   brings it closer to its end without setting any other request back.
   */
  lemma SomeoneCanStep(s: State, r: RequestId)
    requires Good(s) && r in s.requests && s.requests[r].phase != Done
    ensures var u := if s.incidentLock.Some? then s.incidentLock.value else r;
            && u in s.requests && s.requests[u].phase != Done
            && var a := NextStep(s, u);
            && Enabled(s, a) && !a.Crash?
            && Rank(Apply(s, a).requests[u].phase) < Rank(s.requests[u].phase)
            && forall v | v in s.requests && v != u
                :: v in Apply(s, a).requests && Apply(s, a).requests[v] == s.requests[v]
  {
    var u := if s.incidentLock.Some? then s.incidentLock.value else r;
    assert Fresh(s.db, s.requests[u]);
    assert Critical(s.requests[r].phase) <==> s.incidentLock == Some(r);
    if s.postmortemLock.Some? {
      assert HoldsPostmortem(s.requests[s.postmortemLock.value].phase);
      assert s.incidentLock == s.postmortemLock;
    }
    StepComesCloser(s, u);
  }
}
