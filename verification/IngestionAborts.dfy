/** An aborted batch might as well never have been sent. */
module IngestionAborts {
  import opened Ingestion

  predicate IsOf(a: Action, t: TxId) {
    !a.Delete? && a.t == t
  }

  /** The run without the steps of transaction t. */
  function Without(run: seq<Action>, t: TxId): seq<Action>
    decreases |run|
  {
    if run == [] then []
    else if IsOf(run[0], t) then Without(run[1..], t)
    else [run[0]] + Without(run[1..], t)
  }

  ghost predicate NeverCommits(run: seq<Action>, t: TxId) {
    forall i | 0 <= i < |run| :: run[i] != Commit(t)
  }

  /** The same, but for transaction t and the identifiers it drew. */
  ghost predicate Alike(s: State, other: State, t: TxId) {
    && other.store == s.store && other.log == s.log && other.txs == s.txs - {t}
    && other.origin.Keys <= s.origin.Keys
  }

  lemma OwnStepUnseen(s: State, other: State, a: Action, t: TxId)
    requires Alike(s, other, t) && Enabled(s, a) && IsOf(a, t) && a != Commit(t)
    ensures Alike(Apply(s, a), other, t)
  {
  }

  /** What t holds can only have been in the way. */
  lemma OtherStepEnabled(s: State, other: State, a: Action, t: TxId)
    requires Alike(s, other, t) && Enabled(s, a) && !IsOf(a, t)
    ensures Enabled(other, a)
  {
  }

  /** A statement depends on the committed rows and its own transaction, which are the same. */
  lemma AdvanceSame(s: State, other: State, a: Action, t: TxId)
    requires Alike(s, other, t) && !IsOf(a, t)
    requires a.Check? || a.ReadIncident? || a.InsertAlert? || a.AttachLogs? || a.Reread?
    requires Enabled(s, a) && Enabled(other, a)
    ensures Advance(other, a) == Advance(s, a)
  {
    assert other.txs[a.t] == s.txs[a.t] && Visible(other, a.t) == Visible(s, a.t);
  }

  lemma OtherStepSame(s: State, other: State, a: Action, t: TxId)
    requires Alike(s, other, t) && Enabled(s, a) && Enabled(other, a) && !IsOf(a, t)
    ensures Alike(Apply(s, a), Apply(other, a), t)
  {
    if a.Check? || a.ReadIncident? || a.InsertAlert? || a.AttachLogs? || a.Reread? {
      AdvanceSame(s, other, a, t);
      SameUpdate(s.txs, t, a.t, Advance(s, a));
    } else if a.Begin? {
      SameUpdate(s.txs, t, a.t, Tx(a.source, a.batch, EMPTY, EMPTY, [], [], Checking));
    } else if a.CreateIncident? {
      SameUpdate(s.txs, t, a.t, OpenSavepoint(s.txs[a.t], a.id));
    } else if !a.Delete? {
      assert (s.txs - {t}) - {a.t} == (s.txs - {a.t}) - {t};
    }
  }

  lemma SameUpdate(txs: map<TxId, Tx>, t: TxId, u: TxId, tx: Tx)
    requires u != t
    ensures (txs - {t})[u := tx] == txs[u := tx] - {t}
  {
  }

  lemma {:induction false} AlikeRuns(s: State, other: State, run: seq<Action>, t: TxId)
    requires Alike(s, other, t) && Feasible(s, run) && NeverCommits(run, t)
    ensures Feasible(other, Without(run, t)) && Alike(Run(s, run), Run(other, Without(run, t)), t)
    decreases |run|
  {
    if run != [] {
      var a, rest := run[0], run[1..];
      assert NeverCommits(rest, t) by {
        assert forall i | 0 <= i < |rest| :: rest[i] == run[i + 1];
      }
      if IsOf(a, t) {
        OwnStepUnseen(s, other, a, t);
        AlikeRuns(Apply(s, a), other, rest, t);
      } else {
        OtherStepEnabled(s, other, a, t);
        OtherStepSame(s, other, a, t);
        AlikeRuns(Apply(s, a), Apply(other, a), rest, t);
        assert ([a] + Without(rest, t))[1..] == Without(rest, t);
      }
    }
  }

  /**
   A batch that does not commit, be it rolled back or still open, leaves no trace: the same run without any of its
   steps is possible too, and ends with the same committed rows and the same answers.
   */
  lemma AbortedBatchLeavesNoTrace(s: State, run: seq<Action>, t: TxId)
    requires t !in s.txs && Feasible(s, run) && NeverCommits(run, t)
    ensures Feasible(s, Without(run, t))
    ensures Run(s, Without(run, t)).store == Run(s, run).store && Run(s, Without(run, t)).log == Run(s, run).log
  {
    assert s.txs - {t} == s.txs;
    AlikeRuns(s, s, run, t);
  }
}
