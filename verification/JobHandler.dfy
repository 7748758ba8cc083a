/** execute_analysis_job as it is written, for an attempt that nothing overlaps, and its place in the protocol. */
module JobHandler {
  import opened Options
  import opened Jobs

  class JobTable {
    var row: JobRow
    var analyses: nat

    constructor ()
      ensures row == QUEUED && analyses == 0
    {
      row := QUEUED;
      analyses := 0;
    }

    /** Two transactions: the attempt, which is rolled back as a whole on an error, and then the failure report. */
    method Execute(ok: bool)
      modifies this
      ensures old(row).status == Succeeded ==> row == old(row)
      ensures old(row).status != Succeeded && ok ==> row == JobRow(Succeeded, true, old(row).hasError)
      ensures old(row).status != Succeeded && !ok ==> row == JobRow(Failed, old(row).hasResult, true)
      ensures analyses == old(analyses) + if old(row).status != Succeeded && ok then 1 else 0
      ensures old(row).status != Running ==> row.status != Running
    {
      if row.status == Succeeded {
        return;
      }
      var committed := row;
      row := row.(status := Running);
      if ok {
        analyses := analyses + 1;
        row := row.(status := Succeeded);
        row := row.(hasResult := true);
        return;
      }
      row := committed;
      if row.status != Failed {
        row := row.(status := Failed);
      }
      row := row.(hasError := true);
    }
  }

  /** The actions of attempt i when nothing comes between them. */
  function Actions(row: JobRow, i: AttemptId, ok: bool): seq<Action> {
    if row.status == Succeeded then [Deliver(i), Take(i)]
    else if ok then [Deliver(i), Take(i), Analyse(i), Succeed(i)]
    else [Deliver(i), Take(i), Raise(i), Load(i), RecordFailure(i)]
  }

  lemma RunOne(s: State, a: Action, rest: seq<Action>)
    requires Enabled(s, a) && Feasible(Apply(s, a), rest)
    ensures Feasible(s, [a] + rest) && Run(s, [a] + rest) == Run(Apply(s, a), rest)
  {
    assert ([a] + rest)[1..] == rest;
  }

  /** The handler run alone is a run of the protocol, with the same row and analyses. */
  lemma HandlerFollowsProtocol(s: State, i: AttemptId, ok: bool)
    requires LockGood(s) && s.lock == None && i !in s.attempts
    ensures var run := Actions(s.row, i, ok);
            && Feasible(s, run) && Run(s, run).row == (if s.row.status == Succeeded then s.row
                                                        else if ok then JobRow(Succeeded, true, s.row.hasError)
                                                        else JobRow(Failed, s.row.hasResult, true))
            && Run(s, run).analyses == s.analyses + if s.row.status != Succeeded && ok then [i] else []
  {
    var s1 := Apply(s, Deliver(i));
    var s2 := Apply(s1, Take(i));
    if s.row.status == Succeeded {
      RunOne(s1, Take(i), []);
      assert s.analyses + [] == s.analyses;
      RunOne(s, Deliver(i), [Take(i)]);
      assert [Deliver(i)] + [Take(i)] == Actions(s.row, i, ok);
    } else if ok {
      SucceedsAlone(s2, i);
      RunOne(s1, Take(i), [Analyse(i), Succeed(i)]);
      assert [Take(i)] + [Analyse(i), Succeed(i)] == [Take(i), Analyse(i), Succeed(i)];
      RunOne(s, Deliver(i), [Take(i), Analyse(i), Succeed(i)]);
      assert [Deliver(i)] + [Take(i), Analyse(i), Succeed(i)] == Actions(s.row, i, ok);
    } else {
      FailsAlone(s2, i);
      RunOne(s1, Take(i), [Raise(i), Load(i), RecordFailure(i)]);
      assert [Take(i)] + [Raise(i), Load(i), RecordFailure(i)] == [Take(i), Raise(i), Load(i), RecordFailure(i)];
      RunOne(s, Deliver(i), [Take(i), Raise(i), Load(i), RecordFailure(i)]);
      assert [Deliver(i)] + [Take(i), Raise(i), Load(i), RecordFailure(i)] == Actions(s.row, i, ok);
    }
  }

  lemma SucceedsAlone(s: State, i: AttemptId)
    requires In(s, i, Analysing) && s.lock == Some(i) && s.draft == Draft(s.row.(status := Running), [])
    ensures Feasible(s, [Analyse(i), Succeed(i)])
    ensures Run(s, [Analyse(i), Succeed(i)]).row == s.row.(status := Succeeded, hasResult := true)
    ensures Run(s, [Analyse(i), Succeed(i)]).analyses == s.analyses + [i]
  {
    var s1 := Apply(s, Analyse(i));
    assert [] + [i] == [i];
    RunOne(s1, Succeed(i), []);
    RunOne(s, Analyse(i), [Succeed(i)]);
    assert [Analyse(i)] + [Succeed(i)] == [Analyse(i), Succeed(i)];
  }

  lemma FailsAlone(s: State, i: AttemptId)
    requires In(s, i, Analysing) && s.lock == Some(i)
    ensures Feasible(s, [Raise(i), Load(i), RecordFailure(i)])
    ensures Run(s, [Raise(i), Load(i), RecordFailure(i)]).row == Failure(s.row, s.row)
    ensures Run(s, [Raise(i), Load(i), RecordFailure(i)]).analyses == s.analyses
  {
    var s1 := Apply(s, Raise(i));
    var s2 := Apply(s1, Load(i));
    RunOne(s2, RecordFailure(i), []);
    RunOne(s1, Load(i), [RecordFailure(i)]);
    assert [Load(i)] + [RecordFailure(i)] == [Load(i), RecordFailure(i)];
    RunOne(s, Raise(i), [Load(i), RecordFailure(i)]);
    assert [Raise(i)] + [Load(i), RecordFailure(i)] == [Raise(i), Load(i), RecordFailure(i)];
  }
}
