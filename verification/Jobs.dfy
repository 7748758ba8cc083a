/**
 One durable analysis job under overlapping deliveries, crashes and errors. An attempt takes the job row FOR UPDATE
 and keeps it, with its unpublished changes, until it commits or dies. After an error the attempt records the
 failure in a second transaction, which reads the row without a lock and writes it without looking at the status
 again; like every UPDATE it waits for the row lock, and it assigns only the columns whose value differs from what
 that transaction loaded.
 */
module Jobs {
  import opened Options

  type AttemptId = nat

  datatype Status = Queued | Running | Succeeded | Failed
  datatype JobRow = JobRow(status: Status, hasResult: bool, hasError: bool)

  datatype Phase =
    | Delivered                       // about to take the row
    | Analysing                       // holds the row, status set to running but not committed
    | Analysed                        // the analysis row is written, not committed
    | Raised                          // rolled back; the failure is recorded next
    | Reported(loaded: JobRow)        // the second transaction has loaded the row
    | Ended

  /** What the transaction that holds the row has written and not committed: the row and its analysis rows. */
  datatype Draft = Draft(row: JobRow, analyses: seq<AttemptId>)

  /** The committed job row and analysis rows, each named by the attempt that wrote it, and what is under way. */
  datatype State = State(
    row: JobRow, analyses: seq<AttemptId>, lock: Option<AttemptId>, draft: Draft, attempts: map<AttemptId, Phase>,
    unpublished: bool)

  datatype Action =
    | Deliver(a: AttemptId)           // a first delivery or a redelivery
    | Take(a: AttemptId)
    | Analyse(a: AttemptId)
    | Succeed(a: AttemptId)
    | SucceedUnheard(a: AttemptId)    // the commit went through, but its attempt sees an error
    | Raise(a: AttemptId)
    | Load(a: AttemptId)
    | RecordFailure(a: AttemptId)
    | Crash(a: AttemptId)
    | EnqueueFails                    // the request that queued the job could not publish it

  const QUEUED := JobRow(Queued, false, false)
  const START := State(QUEUED, [], None, Draft(QUEUED, []), map[], true)

  predicate In(s: State, a: AttemptId, p: Phase) {
    a in s.attempts && s.attempts[a] == p
  }

  predicate Enabled(s: State, a: Action) {
    match a
    case Deliver(i) => i !in s.attempts
    case Take(i) => In(s, i, Delivered) && s.lock == None
    case Analyse(i) => In(s, i, Analysing)
    case Succeed(i) => In(s, i, Analysed)
    case SucceedUnheard(i) => In(s, i, Analysed)
    case Raise(i) => In(s, i, Delivered) || In(s, i, Analysing) || In(s, i, Analysed)
    case Load(i) => In(s, i, Raised)
    case RecordFailure(i) => i in s.attempts && s.attempts[i].Reported? && s.lock == None
    case Crash(i) => i in s.attempts && s.attempts[i] != Ended
    case EnqueueFails => s.unpublished && s.lock == None
  }

  function Goto(s: State, i: AttemptId, p: Phase): State {
    s.(attempts := s.attempts[i := p])
  }

  /** The end of an attempt's transaction: the lock goes, and so does what was not committed. */
  function Leave(s: State, i: AttemptId, p: Phase): State {
    if s.lock == Some(i) then Goto(s, i, p).(lock := None, draft := Draft(s.row, [])) else Goto(s, i, p)
  }

  /** A commit: the rows written so far become visible. */
  function Publish(s: State): State {
    s.(row := s.draft.row, analyses := s.analyses + s.draft.analyses)
  }

  /** What the failure transaction writes, given what it loaded. */
  function Failure(row: JobRow, loaded: JobRow): JobRow {
    row.(status := if loaded.status == Failed then row.status else Failed, hasError := true)
  }

  function Apply(s: State, a: Action): State
    requires Enabled(s, a)
  {
    match a
    case Deliver(i) => Goto(s, i, Delivered)
    case Take(i) =>
      if s.row.status == Succeeded then Goto(s, i, Ended)
      else Goto(s, i, Analysing).(lock := Some(i), draft := Draft(s.row.(status := Running), []))
    case Analyse(i) =>
      Goto(s, i, Analysed).(
      draft := Draft(s.draft.row.(status := Succeeded, hasResult := true), s.draft.analyses + [i]))
    case Succeed(i) => Leave(Publish(s), i, Ended)
    case SucceedUnheard(i) => Leave(Publish(s), i, Raised)
    case Raise(i) => Leave(s, i, Raised)
    case Load(i) => Goto(s, i, Reported(s.row))
    case RecordFailure(i) => Goto(s, i, Ended).(row := Failure(s.row, s.attempts[i].loaded))
    case Crash(i) => Leave(s, i, Ended)
    case EnqueueFails => s.(row := Failure(s.row, QUEUED), unpublished := false)
  }

  predicate Feasible(s: State, run: seq<Action>)
    decreases |run|
  {
    run == [] || (Enabled(s, run[0]) && Feasible(Apply(s, run[0]), run[1..]))
  }

  function Run(s: State, run: seq<Action>): State
    requires Feasible(s, run)
    decreases |run|
  {
    if run == [] then s else Run(Apply(s, run[0]), run[1..])
  }

  // ---------------------------------------------------------------- the invariant

  predicate Holding(p: Phase) {
    p.Analysing? || p.Analysed?
  }

  /** The first transaction of the attempt is over. */
  predicate Over(p: Phase) {
    p.Raised? || p.Reported? || p.Ended?
  }

  predicate LockGood(s: State) {
    && (forall i | i in s.attempts :: Holding(s.attempts[i]) <==> s.lock == Some(i))
    && (s.lock.Some? ==> s.lock.value in s.attempts)
  }

  /** The holder of the row has written what its phase says, on top of the committed row. */
  predicate DraftGood(s: State) {
    s.lock.Some? && s.lock.value in s.attempts ==>
      && s.row.status != Succeeded
      && (s.attempts[s.lock.value].Analysing? ==> s.draft == Draft(s.row.(status := Running), []))
      && (s.attempts[s.lock.value].Analysed? ==>
            s.draft == Draft(s.row.(status := Succeeded, hasResult := true), [s.lock.value]))
  }

  /** A report never loads the unpublished status, and once a failure was loaded the job is no longer queued. */
  predicate ReportGood(row: JobRow, loaded: JobRow) {
    loaded.status != Running && (loaded.status == Failed ==> row.status != Queued)
  }

  predicate ReportsGood(s: State) {
    forall i | i in s.attempts && s.attempts[i].Reported? :: ReportGood(s.row, s.attempts[i].loaded)
  }

  /** Committed analysis rows belong to different attempts, whose transactions are over. */
  predicate AnalysesGood(s: State) {
    && (forall k | 0 <= k < |s.analyses| :: s.analyses[k] in s.attempts && Over(s.attempts[s.analyses[k]]))
    && (forall k, l | 0 <= k < l < |s.analyses| :: s.analyses[k] != s.analyses[l])
  }

  /** The row against the numbers of success and failure commits so far. */
  predicate RowGood(row: JobRow, won: nat, lost: nat) {
    && row.status != Running
    && won <= lost + (if row.status == Succeeded then 1 else 0)
    && (row.status == Queued <==> won == 0 && lost == 0)
    && (row.status == Succeeded ==> row.hasResult)
    && (row.hasResult <==> won > 0)
    && (row.hasError <==> lost > 0)
  }

  predicate Good(s: State, won: nat, lost: nat) {
    && LockGood(s) && DraftGood(s) && ReportsGood(s) && AnalysesGood(s)
    && RowGood(s.row, won, lost) && |s.analyses| == won
  }

  function SuccessOf(a: Action): nat {
    if a.Succeed? || a.SucceedUnheard? then 1 else 0
  }

  function FailureOf(a: Action): nat {
    if a.RecordFailure? || a.EnqueueFails? then 1 else 0
  }

  /** The success commits of a run. */
  function Successes(run: seq<Action>): nat
    decreases |run|
  {
    if run == [] then 0 else SuccessOf(run[0]) + Successes(run[1..])
  }

  /** The commits that record a failure. */
  function Failures(run: seq<Action>): nat
    decreases |run|
  {
    if run == [] then 0 else FailureOf(run[0]) + Failures(run[1..])
  }

  /** An attempt that had not ended moves on, without touching what is committed. */
  lemma GotoGood(s: State, i: AttemptId, p: Phase, won: nat, lost: nat)
    requires Good(s, won, lost) && (i in s.attempts ==> s.attempts[i] != Ended && !Holding(s.attempts[i]))
    requires if p == Delivered then i !in s.attempts else Over(p) && (p.Reported? ==> ReportGood(s.row, p.loaded))
    ensures Good(Goto(s, i, p), won, lost)
  {
  }

  lemma TakeGood(s: State, i: AttemptId, won: nat, lost: nat)
    requires Good(s, won, lost) && Enabled(s, Take(i)) && s.row.status != Succeeded
    ensures Good(Apply(s, Take(i)), won, lost)
  {
  }

  lemma AnalyseGood(s: State, i: AttemptId, won: nat, lost: nat)
    requires Good(s, won, lost) && Enabled(s, Analyse(i))
    ensures Good(Apply(s, Analyse(i)), won, lost)
  {
    assert s.lock == Some(i);
    assert [] + [i] == [i];
  }

  lemma SucceedGood(s: State, i: AttemptId, p: Phase, won: nat, lost: nat)
    requires Good(s, won, lost) && In(s, i, Analysed) && (p.Raised? || p.Ended?)
    ensures Good(Leave(Publish(s), i, p), won + 1, lost)
  {
    assert s.lock == Some(i);
    assert Publish(s).analyses == s.analyses + [i];
    forall k | 0 <= k < |s.analyses| ensures s.analyses[k] != i {
      assert Over(s.attempts[s.analyses[k]]);
    }
  }

  /** A rollback: nothing that was written in the transaction is left. */
  lemma LeaveGood(s: State, i: AttemptId, p: Phase, won: nat, lost: nat)
    requires Good(s, won, lost) && i in s.attempts && s.attempts[i] != Ended && (p.Raised? || p.Ended?)
    ensures Good(Leave(s, i, p), won, lost)
    ensures Leave(s, i, p).row == s.row && Leave(s, i, p).analyses == s.analyses
  {
  }

  lemma FailureGood(row: JobRow, loaded: JobRow, won: nat, lost: nat)
    requires RowGood(row, won, lost) && ReportGood(row, loaded)
    ensures Failure(row, loaded).status != Queued && RowGood(Failure(row, loaded), won, lost + 1)
  {
  }

  lemma RecordGood(s: State, i: AttemptId, won: nat, lost: nat)
    requires Good(s, won, lost) && Enabled(s, RecordFailure(i))
    ensures Good(Apply(s, RecordFailure(i)), won, lost + 1)
  {
    GotoGood(s, i, Ended, won, lost);
    FailureGood(s.row, s.attempts[i].loaded, won, lost);
  }

  lemma StepGood(s: State, a: Action, won: nat, lost: nat)
    requires Good(s, won, lost) && Enabled(s, a)
    ensures Good(Apply(s, a), won + SuccessOf(a), lost + FailureOf(a))
  {
    match a
    case Deliver(i) => GotoGood(s, i, Delivered, won, lost);
    case Take(i) =>
      if s.row.status == Succeeded {
        GotoGood(s, i, Ended, won, lost);
      } else {
        TakeGood(s, i, won, lost);
      }
    case Analyse(i) => AnalyseGood(s, i, won, lost);
    case Succeed(i) => SucceedGood(s, i, Ended, won, lost);
    case SucceedUnheard(i) => SucceedGood(s, i, Raised, won, lost);
    case Raise(i) => LeaveGood(s, i, Raised, won, lost);
    case Load(i) => GotoGood(s, i, Reported(s.row), won, lost);
    case RecordFailure(i) => RecordGood(s, i, won, lost);
    case Crash(i) => LeaveGood(s, i, Ended, won, lost);
    case EnqueueFails => FailureGood(s.row, QUEUED, won, lost);
  }

  lemma {:induction false} RunsStayGood(s: State, run: seq<Action>, won: nat, lost: nat)
    requires Good(s, won, lost) && Feasible(s, run)
    ensures Good(Run(s, run), won + Successes(run), lost + Failures(run))
    decreases |run|
  {
    if run != [] {
      StepGood(s, run[0], won, lost);
      RunsStayGood(Apply(s, run[0]), run[1..], won + SuccessOf(run[0]), lost + FailureOf(run[0]));
    }
  }

  /**
   Whatever overlaps, crashes or fails: the running status is never visible to others; the job is queued exactly until
   the first success or recorded failure, so a failure with no success before it leaves it failed; the analysis rows
   are as many as the success commits of the run, one per attempt, so a rolled-back attempt leaves none; and a job
   succeeds at most once more often than it is recorded as failed. The error of an earlier failure stays, also after a
   success.
   */
  lemma JobProtocol(run: seq<Action>)
    requires Feasible(START, run)
    ensures var s := Run(START, run);
            && s.row.status != Running
            && (s.row.status == Queued <==> Successes(run) == 0 && Failures(run) == 0)
            && |s.analyses| == Successes(run) <= 1 + Failures(run)
            && AnalysesGood(s)
            && (s.row.hasResult <==> Successes(run) > 0)
            && (s.row.hasError <==> Failures(run) > 0)
  {
    RunsStayGood(START, run, 0, 0);
  }

  // ---------------------------------------------------------------- is a success final?

  predicate Reaches(run: seq<Action>, s: State) {
    Feasible(START, run) && Run(START, run) == s
  }

  lemma Then(run: seq<Action>, s: State, a: Action)
    requires Reaches(run, s) && Enabled(s, a)
    ensures Reaches(run + [a], Apply(s, a))
  {
    RunJoin(START, run, [a]);
    assert Run(s, [a]) == Apply(s, a);
  }

  lemma {:induction false} RunJoin(s: State, run: seq<Action>, more: seq<Action>)
    requires Feasible(s, run) && Feasible(Run(s, run), more)
    ensures Feasible(s, run + more) && Run(s, run + more) == Run(Run(s, run), more)
    decreases |run|
  {
    if run == [] {
      assert run + more == more;
    } else {
      assert (run + more)[1..] == run[1..] + more;
      RunJoin(Apply(s, run[0]), run[1..], more);
    }
  }

  /** Two deliveries; the second one fails at once and has loaded the queued row for its report. */
  lemma LateReport(run: seq<Action>)
    requires Reaches(run, START)
    ensures Reaches(run + [Deliver(0)] + [Deliver(1)] + [Raise(1)] + [Load(1)],
                    START.(attempts := map[0 := Delivered, 1 := Reported(QUEUED)]))
  {
    var s1 := START.(attempts := map[0 := Delivered]);
    Then(run, START, Deliver(0));
    Then(run + [Deliver(0)], s1, Deliver(1));
    Then(run + [Deliver(0)] + [Deliver(1)], s1.(attempts := map[0 := Delivered, 1 := Delivered]), Raise(1));
    Then(run + [Deliver(0)] + [Deliver(1)] + [Raise(1)], s1.(attempts := map[0 := Delivered, 1 := Raised]), Load(1));
  }

  /** The first delivery takes the job and succeeds, then the report of the second one is written. */
  lemma SuccessThenReport(run: seq<Action>)
    requires Reaches(run, START.(attempts := map[0 := Delivered, 1 := Reported(QUEUED)]))
    ensures var success := run + [Take(0)] + [Analyse(0)] + [Succeed(0)];
            && Feasible(START, success) && Run(START, success).row.status == Succeeded
            && Feasible(START, success + [RecordFailure(1)])
            && Run(START, success + [RecordFailure(1)]).row == JobRow(Failed, true, true)
  {
    var s0 := START.(attempts := map[0 := Delivered, 1 := Reported(QUEUED)]);
    var s1 := Apply(s0, Take(0));
    var s2 := Apply(s1, Analyse(0));
    var s3 := Apply(s2, Succeed(0));
    Then(run, s0, Take(0));
    Then(run + [Take(0)], s1, Analyse(0));
    Then(run + [Take(0)] + [Analyse(0)], s2, Succeed(0));
    Then(run + [Take(0)] + [Analyse(0)] + [Succeed(0)], s3, RecordFailure(1));
  }

  /** A success is not final: the failure report of another delivery can still overwrite it. */
  lemma SuccessCanBeOverwritten()
    ensures var success :=
              [] + [Deliver(0)] + [Deliver(1)] + [Raise(1)] + [Load(1)] + [Take(0)] + [Analyse(0)] + [Succeed(0)];
            && Feasible(START, success) && Run(START, success).row.status == Succeeded
            && Feasible(START, success + [RecordFailure(1)])
            && Run(START, success + [RecordFailure(1)]).row == JobRow(Failed, true, true)
  {
    LateReport([]);
    SuccessThenReport([] + [Deliver(0)] + [Deliver(1)] + [Raise(1)] + [Load(1)]);
  }

  const UNHEARD := State(JobRow(Succeeded, true, false), [0], None, Draft(JobRow(Succeeded, true, false), []),
                         map[0 := Raised], true)

  lemma UnheardSuccess(run: seq<Action>)
    requires Reaches(run, START)
    ensures Reaches(run + [Deliver(0)] + [Take(0)] + [Analyse(0)] + [SucceedUnheard(0)], UNHEARD)
  {
    var s1 := Apply(START, Deliver(0));
    var s2 := Apply(s1, Take(0));
    var s3 := Apply(s2, Analyse(0));
    Then(run, START, Deliver(0));
    Then(run + [Deliver(0)], s1, Take(0));
    Then(run + [Deliver(0)] + [Take(0)], s2, Analyse(0));
    assert Apply(s3, SucceedUnheard(0)) == UNHEARD;
    Then(run + [Deliver(0)] + [Take(0)] + [Analyse(0)], s3, SucceedUnheard(0));
  }

  lemma ReportAfterSuccess(run: seq<Action>)
    requires Reaches(run, UNHEARD)
    ensures Feasible(START, run + [Load(0)] + [RecordFailure(0)])
    ensures Run(START, run + [Load(0)] + [RecordFailure(0)]).row == JobRow(Failed, true, true)
  {
    Then(run, UNHEARD, Load(0));
    Then(run + [Load(0)], Apply(UNHEARD, Load(0)), RecordFailure(0));
  }

  /** Even one delivery alone can do it: its commit goes through, it sees an error, and reports a failure. */
  lemma UnheardSuccessIsOverwritten()
    ensures var success := [] + [Deliver(0)] + [Take(0)] + [Analyse(0)] + [SucceedUnheard(0)];
            && Feasible(START, success) && Run(START, success).row.status == Succeeded
            && Feasible(START, success + [Load(0)] + [RecordFailure(0)])
            && Run(START, success + [Load(0)] + [RecordFailure(0)]).row == JobRow(Failed, true, true)
  {
    UnheardSuccess([]);
    ReportAfterSuccess([] + [Deliver(0)] + [Take(0)] + [Analyse(0)] + [SucceedUnheard(0)]);
  }

  /** A failing enqueue, or the failure report of an attempt whose second transaction had not loaded "failed". */
  predicate Overwrites(s: State, a: Action)
    requires Enabled(s, a)
  {
    a.EnqueueFails? || (a.RecordFailure? && s.attempts[a.a].loaded.status != Failed)
  }

  lemma StepLeavesSucceeded(s: State, a: Action, won: nat, lost: nat)
    requires Good(s, won, lost) && Enabled(s, a) && s.row.status == Succeeded
    ensures Apply(s, a).row.status != Succeeded <==> Overwrites(s, a)
  {
  }

  /** Some step of the run overwrites the status. */
  predicate Overwritten(s: State, run: seq<Action>)
    requires Feasible(s, run)
    decreases |run|
  {
    run != [] && (Overwrites(s, run[0]) || Overwritten(Apply(s, run[0]), run[1..]))
  }

  /** The job is "succeeded" now and after every step of the run. */
  predicate StaysSucceeded(s: State, run: seq<Action>)
    requires Feasible(s, run)
    decreases |run|
  {
    s.row.status == Succeeded && (run != [] ==> StaysSucceeded(Apply(s, run[0]), run[1..]))
  }

  lemma {:induction false} StaysUntilOverwritten(s: State, run: seq<Action>, won: nat, lost: nat)
    requires Good(s, won, lost) && Feasible(s, run) && s.row.status == Succeeded
    ensures StaysSucceeded(s, run) <==> !Overwritten(s, run)
    decreases |run|
  {
    if run != [] {
      StepGood(s, run[0], won, lost);
      StepLeavesSucceeded(s, run[0], won, lost);
      if !Overwrites(s, run[0]) {
        StaysUntilOverwritten(Apply(s, run[0]), run[1..], won + SuccessOf(run[0]), lost + FailureOf(run[0]));
      }
    }
  }

  /**
   When a success is final, exactly: it lasts over the rest of a run if and only if no later step is a failing enqueue
   or the failure report of an attempt whose second transaction had not loaded "failed".
   */
  lemma LeavesSucceededExactly(run: seq<Action>, more: seq<Action>)
    requires Feasible(START, run + more)
    ensures Feasible(START, run) && Feasible(Run(START, run), more)
    ensures Run(START, run).row.status == Succeeded ==>
              (StaysSucceeded(Run(START, run), more) <==> !Overwritten(Run(START, run), more))
  {
    FeasibleSplit(START, run, more);
    RunsStayGood(START, run, 0, 0);
    if Run(START, run).row.status == Succeeded {
      StaysUntilOverwritten(Run(START, run), more, Successes(run), Failures(run));
    }
  }

  /** No attempt raises or sees its commit fail, and no enqueue fails. */
  predicate Untroubled(run: seq<Action>) {
    forall i | 0 <= i < |run| :: !run[i].Raise? && !run[i].SucceedUnheard? && !run[i].EnqueueFails?
  }

  predicate NoFailurePending(s: State) {
    forall i | i in s.attempts :: !s.attempts[i].Raised? && !s.attempts[i].Reported?
  }

  lemma UntroubledStep(s: State, a: Action, won: nat)
    requires Good(s, won, 0) && NoFailurePending(s) && Enabled(s, a)
    requires !a.Raise? && !a.SucceedUnheard? && !a.EnqueueFails?
    ensures NoFailurePending(Apply(s, a)) && FailureOf(a) == 0
    ensures s.row.status == Succeeded ==> Apply(s, a).row == s.row && Apply(s, a).analyses == s.analyses
  {
  }

  lemma {:induction false} UntroubledStays(s: State, run: seq<Action>, won: nat)
    requires Good(s, won, 0) && NoFailurePending(s) && Feasible(s, run) && Untroubled(run)
    ensures Good(Run(s, run), won + Successes(run), 0) && NoFailurePending(Run(s, run))
    ensures s.row.status == Succeeded ==> Run(s, run).row == s.row && Run(s, run).analyses == s.analyses
    decreases |run|
  {
    if run != [] {
      StepGood(s, run[0], won, 0);
      UntroubledStep(s, run[0], won);
      assert Untroubled(run[1..]);
      UntroubledStays(Apply(s, run[0]), run[1..], won + SuccessOf(run[0]));
    }
  }

  lemma {:induction false} FeasibleSplit(s: State, run: seq<Action>, more: seq<Action>)
    requires Feasible(s, run + more)
    ensures Feasible(s, run) && Feasible(Run(s, run), more) && Run(Run(s, run), more) == Run(s, run + more)
    decreases |run|
  {
    if run == [] {
      assert run + more == more;
    } else {
      assert (run + more)[1..] == run[1..] + more;
      FeasibleSplit(Apply(s, run[0]), run[1..], more);
    }
  }

  /** With redeliveries and crashes but no raised error, success is final and there is at most one analysis. */
  lemma UntroubledSuccessIsFinal(run: seq<Action>, more: seq<Action>)
    requires Feasible(START, run + more) && Untroubled(run + more)
    ensures Feasible(START, run)
    ensures |Run(START, run + more).analyses| <= 1
    ensures Run(START, run).row.status == Succeeded ==>
              Run(START, run + more).row == Run(START, run).row && |Run(START, run + more).analyses| == 1
  {
    FeasibleSplit(START, run, more);
    assert forall i | 0 <= i < |run| :: run[i] == (run + more)[i];
    assert forall i | 0 <= i < |more| :: more[i] == (run + more)[|run| + i];
    UntroubledStays(START, run, 0);
    UntroubledStays(Run(START, run), more, Successes(run));
  }
}
