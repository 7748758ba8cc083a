/**
 The export, edit and generate handlers as they are written, each run with the locks in hand: what one request alone
 does to the receipts and the postmortem.
 */
module PostmortemHandlers {
  import opened Options
  import opened Exports
  import opened ExportSafety

  /** What the exporter answers: the identifier and address of the artifact, or an error. */
  datatype Answer = Raised | Answered(externalId: string, url: string)

  /** The receipt of a destination. */
  function ReceiptOf(rows: seq<Receipt>, d: Destination): Option<Receipt> {
    var i := FindReceipt(rows, d);
    if i.Some? then Some(rows[i.value]) else None
  }

  lemma WrittenReceipt(rows: seq<Receipt>, previous: Option<nat>, receipt: Receipt)
    requires OnePerDestination(rows) && previous == FindReceipt(rows, receipt.destination)
    requires previous.Some? ==> rows[previous.value].isDemo && !receipt.isDemo
    ensures ReceiptOf(WithReceipt(rows, previous, receipt), receipt.destination) == Some(receipt)
    ensures OnlyImproved(rows, WithReceipt(rows, previous, receipt))
    ensures forall other | other != receipt.destination ::
              ReceiptOf(WithReceipt(rows, previous, receipt), other) == ReceiptOf(rows, other)
  {
    StoredReceipt(rows, previous, receipt);
  }

  class IncidentRecord {
    var receipts: seq<Receipt>
    var postmortem: Option<Postmortem>

    function Rows(): Db
      reads this
    {
      Db(receipts, postmortem)
    }

    ghost predicate Valid()
      reads this
    {
      OnePerDestination(receipts) && Linked(Rows())
    }

    constructor ()
      ensures Valid() && Rows() == Db([], None)
    {
      receipts, postmortem := [], None;
    }

    /**
     export_postmortem. A stored real receipt is final, a stored demo one is replaced only by a real export, and an
     error leaves the rows alone. `called` says whether the exporter was asked.
     */
    method Export(d: Destination, configured: bool, demoMode: bool, answer: Answer)
      returns (r: Option<Receipt>, called: bool)
      requires Valid()
      modifies this
      ensures Valid()
      ensures var had := old(ReceiptOf(receipts, d));
              && (called <==> old(postmortem).Some?
                              && if had.Some? then had.value.isDemo && configured else configured || demoMode)
              && (r.None? <==> (called && answer.Raised?)
                               || (had.None? && !called)
                               || (had.Some? && had.value.isDemo
                                   && if configured then old(postmortem).None? else !demoMode))
              && (!called ==> Rows() == old(Rows()))
              && (!called && r.Some? ==> r == had)
              && (called && answer.Raised? ==> r.None? && Rows() == old(Rows()))
              && (called && answer.Answered? ==>
                    && r == Some(Receipt(d, answer.externalId, answer.url, !configured))
                    && ReceiptOf(receipts, d) == r
                    && postmortem == Some(if d.Jira?
                                          then old(postmortem).value.(jiraKey := Some(answer.externalId),
                                                                      jiraUrl := Some(answer.url))
                                          else old(postmortem).value.(confluenceUrl := Some(answer.url))))
      ensures OnlyImproved(old(receipts), receipts)
      ensures forall other | other != d :: ReceiptOf(receipts, other) == old(ReceiptOf(receipts, other))
      ensures postmortem.Some? ==>
                && old(postmortem).Some? && postmortem.value.version == old(postmortem.value.version)
                && postmortem.value.markdown == old(postmortem.value.markdown)
    {
      called := false;
      var previous := FindReceipt(receipts, d);
      if previous.Some? && !receipts[previous.value].isDemo {
        return Some(receipts[previous.value]), called;
      }
      var exporter := GetExporter(configured, demoMode);
      if exporter.None? {
        return None, called;
      }
      if previous.Some? && exporter.value.Demo? {
        return Some(receipts[previous.value]), called;
      }
      if postmortem.None? {
        return None, called;
      }
      called := true;
      if answer.Raised? {
        return None, called;
      }
      var receipt := Receipt(d, answer.externalId, answer.url, exporter.value.Demo?);
      Store(previous, receipt);
      r := Some(receipt);
    }

    /** The write-back of an export: the receipt row is updated or added, and the postmortem gets its link. */
    method Store(previous: Option<nat>, receipt: Receipt)
      requires Valid() && postmortem.Some? && previous == FindReceipt(receipts, receipt.destination)
      requires previous.Some? ==> receipts[previous.value].isDemo && !receipt.isDemo
      modifies this
      ensures Valid()
      ensures ReceiptOf(receipts, receipt.destination) == Some(receipt)
      ensures postmortem == Some(SetLink(old(postmortem).value, receipt))
      ensures OnlyImproved(old(receipts), receipts)
      ensures forall other | other != receipt.destination ::
                ReceiptOf(receipts, other) == old(ReceiptOf(receipts, other))
    {
      ghost var before := Rows();
      WrittenReceipt(receipts, previous, receipt);
      CommitExportLinked(before, previous, receipt);
      receipts := WithReceipt(receipts, previous, receipt);
      Link(receipt);
    }

    /** The link fields of the destination, one after the other. */
    method Link(receipt: Receipt)
      requires postmortem.Some?
      modifies `postmortem
      ensures postmortem == Some(SetLink(old(postmortem).value, receipt))
    {
      if receipt.destination.Jira? {
        postmortem := Some(postmortem.value.(jiraKey := Some(receipt.externalId)));
        postmortem := Some(postmortem.value.(jiraUrl := Some(receipt.url)));
      } else {
        postmortem := Some(postmortem.value.(confluenceUrl := Some(receipt.url)));
      }
    }

    /** edit_postmortem: an error without a postmortem, otherwise new text and the next version. */
    method Edit(markdown: string) returns (ok: bool)
      requires Valid()
      modifies `postmortem
      ensures Valid()
      ensures ok <==> old(postmortem).Some?
      ensures !ok ==> postmortem == old(postmortem)
      ensures ok ==>
                postmortem == Some(old(postmortem).value.(markdown := markdown, version := Version(old(Rows())) + 1))
    {
      if postmortem.None? {
        return false;
      }
      postmortem := Some(postmortem.value.(markdown := markdown));
      postmortem := Some(postmortem.value.(version := postmortem.value.version + 1));
      return true;
    }

    /** generate_postmortem: version one, or a new draft over the old text; the links are kept. */
    method Generate(draft: string)
      requires Valid()
      modifies `postmortem
      ensures Valid() && postmortem.Some?
      ensures postmortem.value.markdown == draft && Version(Rows()) == Version(old(Rows())) + 1
      ensures old(postmortem).Some? ==>
                postmortem.value == old(postmortem).value.(markdown := draft, version := postmortem.value.version)
    {
      if postmortem.Some? {
        postmortem := Some(postmortem.value.(markdown := draft));
        postmortem := Some(postmortem.value.(version := postmortem.value.version + 1));
      } else {
        postmortem := Some(Postmortem(draft, 1, None, None, None));
      }
    }
  }

  /**
   Which exporter a request in the protocol gets, from the settings and the stored receipt alone: a real one when the
   destination is configured, a demo one in demo mode, none when a stored receipt is final or there is nothing to use.
   */
  lemma ChoosesExactly(s: State, r: RequestId, configured: bool, demoMode: bool)
    requires Enabled(s, Choose(r, configured, demoMode))
    ensures var s' := Apply(s, Choose(r, configured, demoMode));
            var had, p := ReceiptOf(s.db.receipts, s.requests[r].kind.destination), s'.requests[r].phase;
            && s'.db == s.db && s'.requests[r].kind == s.requests[r].kind
            && (p.Chosen? <==> if had.Some? then had.value.isDemo && configured else configured || demoMode)
            && (p.Chosen? ==> (p.exporter.Real? <==> configured))
            && (!p.Chosen? ==> p.Done?)
  {
  }

  /** Reading the postmortem fails exactly when there is none, except for a generate request, which then starts one. */
  lemma ReadsExactly(s: State, r: RequestId)
    requires Enabled(s, ReadPostmortem(r))
    ensures var s' := Apply(s, ReadPostmortem(r));
            var q, p, db := s.requests[r], s'.requests[r].phase, s.db;
            && s'.db == db && s'.requests[r].kind == q.kind
            && (q.kind.Generate? ==> p.Drafting? && (p.found.Some? <==> db.postmortem.Some?)
                                     && (p.found.Some? ==> p.found.value == db.postmortem.value.version))
            && (!q.kind.Generate? && db.postmortem.None? ==> p.Done?)
            && (q.kind.Export? && db.postmortem.Some? ==>
                  p == Calling(q.phase.previous, q.phase.exporter) && s'.postmortemLock == Some(r))
            && (q.kind.Edit? && db.postmortem.Some? ==>
                  p == Editing(db.postmortem.value.version) && s'.postmortemLock == Some(r))
  {
  }

  /** The receipt that is written later is what the exporter answered, marked as demo when a demo exporter did. */
  lemma ReturnsExactly(s: State, r: RequestId, externalId: string, url: string)
    requires Enabled(s, Return(r, externalId, url))
    ensures var q, p := s.requests[r], Apply(s, Return(r, externalId, url)).requests[r].phase;
            && p.Answered? && p.receipt.destination == q.kind.destination && p.receipt.externalId == externalId
            && p.receipt.url == url && (p.receipt.isDemo <==> q.phase.exporter.Demo?)
  {
  }

  /**
   However requests interleave, each commit does to the rows stored at that moment what its handler alone would do:
   nothing a request read earlier is out of date when it is written back.
   */
  lemma CommitActsAlone(s: State, r: RequestId)
    requires Good(s) && Enabled(s, Commit(r))
    ensures var q, db, db' := s.requests[r], s.db, Apply(s, Commit(r)).db;
            match q.kind
            case Edit(text) =>
              db.postmortem.Some?
              && db' == db.(postmortem := Some(db.postmortem.value.(markdown := text, version := Version(db) + 1)))
            case Generate(draft) =>
              && db'.receipts == db.receipts && db'.postmortem.Some? && Version(db') == Version(db) + 1
              && db'.postmortem.value.markdown == draft
              && (db.postmortem.Some? ==>
                    db'.postmortem.value == db.postmortem.value.(markdown := draft, version := Version(db) + 1))
            case Export(d) =>
              && q.phase.Answered? && db.postmortem.Some?
              && ReceiptOf(db'.receipts, d) == Some(q.phase.receipt)
              && db'.postmortem == Some(if d.Jira?
                                        then db.postmortem.value.(jiraKey := Some(q.phase.receipt.externalId),
                                                                  jiraUrl := Some(q.phase.receipt.url))
                                        else db.postmortem.value.(confluenceUrl := Some(q.phase.receipt.url)))
              && (forall other | other != d :: ReceiptOf(db'.receipts, other) == ReceiptOf(db.receipts, other))
              && (ReceiptOf(db.receipts, d).Some? ==>
                    ReceiptOf(db.receipts, d).value.isDemo && !q.phase.receipt.isDemo)
  {
    assert Fresh(s.db, s.requests[r]);
    if s.requests[r].phase.Answered? {
      StoredReceipt(s.db.receipts, s.requests[r].phase.previous, s.requests[r].phase.receipt);
    }
  }
}
