/**
 Whole documents: what the ADF document and the storage XML of a Markdown text say, line by line.
 */
module Documents {
  import opened Options
  import opened Markdown
  import opened MarkdownNormalForm
  import opened Storage

  lemma {:induction false} NothingVisible(lines: seq<string>)
    ensures TidyLines(lines) == [] <==> forall i | 0 <= i < |lines| :: IsBlank(lines[i])
    decreases |lines|
  {
    if lines != [] {
      if IsFence(lines[0]) {
        assert !IsSpace(lines[0][0]);
      } else if IsBlank(lines[0]) {
        NothingVisible(lines[1..]);
        assert forall i | 1 <= i < |lines| :: lines[i] == lines[1..][i - 1];
      }
    }
  }

  lemma PrintEmptyParagraph()
    ensures Print([Node(Paragraph, [])]) == []
  {
    var blocks := [Node(Paragraph, [])];
    assert blocks[..0] == [];
    assert Print(blocks) == [] + [];
  }

  lemma {:induction false} NormalPrints(blocks: seq<Adf>)
    requires Normal(blocks) && blocks != []
    ensures Print(blocks) != []
  {
    var front, b := blocks[..|blocks| - 1], blocks[|blocks| - 1];
    assert NormalBlock(b);
    if IsList(b) {
      ItemLinesMore(b.content[..|b.content| - 1], b.content[|b.content| - 1]);
    }
    assert PrintBlock(b) != [];
  }

  lemma DocumentTells(lines: seq<string>)
    ensures OneLines(lines) ==>
              && Print(Document(Blocks(lines)).content) == TidyLines(lines)
              && if forall i | 0 <= i < |lines| :: IsBlank(lines[i])
                 then Document(Blocks(lines)).content == [Node(Paragraph, [])]
                 else Document(Blocks(lines)).content != [] && Normal(Document(Blocks(lines)).content)
  {
    if OneLines(lines) {
      PrintedIsTidied(lines);
      ParsedIsNormal(lines);
      NothingVisible(lines);
      if Blocks(lines) == [] {
        PrintEmptyParagraph();
      } else {
        NormalPrints(Blocks(lines));
      }
    }
  }

  /**
   markdown_to_adf: one pass over the lines that grows `blocks`, `code` and the last list in place. Printed, the
   document is the tidied lines; its blocks are normal, and without a visible line it is one empty paragraph.
   */
  method MarkdownToAdf(lines: seq<string>) returns (doc: Adf)
    ensures doc == Document(Blocks(lines))
    ensures doc.Node? && doc.kind == Doc
    ensures OneLines(lines) ==> Print(doc.content) == TidyLines(lines)
    ensures OneLines(lines) ==>
              if forall i | 0 <= i < |lines| :: IsBlank(lines[i]) then doc.content == [Node(Paragraph, [])]
              else doc.content != [] && Normal(doc.content)
  {
    var blocks: seq<Adf> := [];
    var code: Option<seq<string>> := None;
    var i := 0;
    while i < |lines|
      invariant i <= |lines|
      invariant Steps(Parse(blocks, code), lines[i..]) == Steps(START, lines)
    {
      var line := lines[i];
      assert lines[i..][0] == line && lines[i..][1..] == lines[i + 1..];
      i := i + 1;
      if IsFence(line) {
        if code.None? {
          code := Some([]);
        } else {
          blocks := blocks + [CodeBlockOf(code.value)];
          code := None;
        }
        continue;
      }
      if code.Some? {
        code := Some(code.value + [line]);
        continue;
      }
      if IsBlank(line) {
        continue;
      }
      var heading := HeadingOf(line);
      if heading.Some? {
        blocks := blocks + [HeadingBlock(heading.value.0, heading.value.1)];
      } else if IsBullet(line) {
        var item := Item(line[2..]);
        if |blocks| > 0 && blocks[|blocks| - 1].Node? && blocks[|blocks| - 1].kind == BulletList {
          var last := blocks[|blocks| - 1];
          assert AddItem(blocks, line[2..]) == blocks[|blocks| - 1 := Node(BulletList, last.content + [item])];
          blocks := blocks[|blocks| - 1 := Node(BulletList, last.content + [item])];
        } else {
          blocks := blocks + [Node(BulletList, [item])];
        }
      } else {
        blocks := blocks + [ParagraphBlock(line)];
      }
    }
    if code.Some? {
      blocks := blocks + [CodeBlockOf(code.value)];
    }
    DocumentTells(lines);
    doc := Node(Doc, if blocks == [] then [Node(Paragraph, [])] else blocks);
  }

  // ---------------------------------------------------------------- the storage form

  lemma CleanOne(b: Adf, rest: seq<Adf>)
    requires b.Node?
    ensures Clean([b] + rest) == [Node(b.kind, Clean(b.content))] + Clean(rest)
  {
    assert ([b] + rest)[1..] == rest;
  }

  lemma {:induction false} CleanJoin(a: seq<Adf>, b: seq<Adf>)
    ensures Clean(a + b) == Clean(a) + Clean(b)
    decreases |a|
  {
    if a == [] {
      assert a + b == b;
    } else {
      assert (a + b)[1..] == a[1..] + b;
      CleanJoin(a[1..], b);
    }
  }

  lemma CleanText(t: string)
    ensures Clean([Text(t)]) == if t == "" then [] else [Text(t)]
  {
    assert [Text(t)][1..] == [];
    assert Clean([]) == [];
  }

  lemma CleanNode(kind: Kind, content: seq<Adf>)
    ensures Clean([Node(kind, content)]) == [Node(kind, Clean(content))]
  {
    assert [Node(kind, content)][1..] == [];
    assert Clean([]) == [];
  }

  /** An item without text loses its empty text node, and prints as before. */
  lemma CleanItemPrints(t: string)
    ensures Clean([Item(t)]) == [Node(ListItem, [Node(Paragraph, Clean([Text(t)]))])]
    ensures ItemLine(Clean([Item(t)])[0]) == ItemLine(Item(t))
  {
    CleanNode(ListItem, [ParagraphBlock(t)]);
    CleanNode(Paragraph, [Text(t)]);
    CleanText(t);
    ItemPrints(t);
  }

  lemma {:induction false} CleanItemsPrint(items: seq<Adf>)
    requires forall i | 0 <= i < |items| :: NormalItem(items[i])
    ensures ItemLines(Clean(items)) == ItemLines(items)
  {
    if items != [] {
      var front, item := items[..|items| - 1], items[|items| - 1];
      assert items == front + [item] && NormalItem(item);
      var t :| OneLine(t) && item == Item(t);
      CleanItemsPrint(front);
      CleanJoin(front, [item]);
      CleanItemPrints(t);
      ItemLinesMore(front, item);
      ItemLinesMore(Clean(front), Clean([item])[0]);
    }
  }

  lemma CleanBlockPrints(b: Adf)
    requires NormalBlock(b)
    ensures |Clean([b])| == 1 && PrintBlock(Clean([b])[0]) == PrintBlock(b)
  {
    CleanNode(b.kind, b.content);
    if IsList(b) {
      CleanItemsPrint(b.content);
    } else {
      assert b.content == [Text(TextOf(b))];
      CleanText(TextOf(b));
    }
  }

  lemma {:induction false} CleanPrints(blocks: seq<Adf>)
    requires forall i | 0 <= i < |blocks| :: NormalBlock(blocks[i])
    ensures Print(Clean(blocks)) == Print(blocks)
  {
    if blocks != [] {
      var front, b := blocks[..|blocks| - 1], blocks[|blocks| - 1];
      assert blocks == front + [b];
      CleanPrints(front);
      CleanJoin(front, [b]);
      CleanBlockPrints(b);
      PrintMore(front, b);
      PrintMore(Clean(front), Clean([b])[0]);
      assert Clean([b]) == [Clean([b])[0]];
    }
  }

  /** The storage XML of a Markdown text is one balanced element that, read back and printed, is the tidied lines. */
  lemma StorageTells(lines: seq<string>)
    requires OneLines(lines)
    ensures var tree := ParseDocument(MarkdownToStorage(lines));
            tree.Some? && tree.value.Node? && tree.value.kind == Doc && Print(tree.value.content) == TidyLines(lines)
  {
    MarkdownStorageRoundTrip(lines);
    DocumentTells(lines);
    var content := Document(Blocks(lines)).content;
    if content == [Node(Paragraph, [])] {
      CleanNode(Paragraph, []);
      PrintEmptyParagraph();
    } else {
      CleanPrints(content);
    }
  }
}
