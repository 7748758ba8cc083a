/**
 The normal form of Markdown documents. The parser only produces normal blocks, every list of normal blocks is what
 its own printout parses to, and printing what was parsed rewrites the lines in an exactly described way.
 */
module MarkdownNormalForm {
  import opened Options
  import opened Markdown

  predicate OneLine(s: string) {
    '\n' !in s
  }

  ghost predicate OneLines(lines: seq<string>) {
    forall i | 0 <= i < |lines| :: OneLine(lines[i])
  }

  // ---------------------------------------------------------------- normal blocks

  predicate HasText(b: Adf) {
    b.Node? && |b.content| == 1 && b.content[0].Text?
  }

  /** What a heading pattern can capture: it starts with a visible character or is one white space character. */
  predicate HeadingText(t: string) {
    OneLine(t) && t != "" && (|t| == 1 || !IsSpace(t[0]))
  }

  predicate PlainText(t: string) {
    OneLine(t) && !IsFence(t) && !IsBlank(t) && HeadingOf(t).None? && !IsBullet(t)
  }

  ghost predicate NoFences(lines: seq<string>) {
    forall i | 0 <= i < |lines| :: !IsFence(lines[i])
  }

  ghost predicate NormalItem(i: Adf) {
    exists t :: OneLine(t) && i == Item(t)
  }

  ghost predicate NormalBlock(b: Adf) {
    b.Node? &&
    match b.kind
    case Heading(level) => 1 <= level <= 6 && HasText(b) && HeadingText(TextOf(b))
    case Paragraph => HasText(b) && PlainText(TextOf(b))
    case BulletList => b.content != [] && forall i | 0 <= i < |b.content| :: NormalItem(b.content[i])
    case CodeBlock => HasText(b) && TextOf(b) != "" && NoFences(Split(TextOf(b)))
    case _ => false
  }

  predicate IsList(b: Adf) {
    b.Node? && b.kind == BulletList
  }

  predicate TwoLists(blocks: seq<Adf>, i: nat)
    requires i + 1 < |blocks|
  {
    IsList(blocks[i]) && IsList(blocks[i + 1])
  }

  ghost predicate Normal(blocks: seq<Adf>) {
    && (forall i | 0 <= i < |blocks| :: NormalBlock(blocks[i]))
    && (forall i | 0 <= i < |blocks| - 1 :: !TwoLists(blocks, i))
  }

  // ---------------------------------------------------------------- join and split

  lemma {:induction false} SplitOneLine(t: string)
    requires OneLine(t)
    ensures Split(t) == [t]
  {
    if t != "" {
      assert t == [t[0]] + t[1..];
      SplitOneLine(t[1..]);
    }
  }

  lemma {:induction false} SplitCons(line: string, rest: string)
    requires OneLine(line)
    ensures Split(line + "\n" + rest) == [line] + Split(rest)
  {
    var text := line + "\n" + rest;
    if line == "" {
      assert text[1..] == rest;
    } else {
      assert text[1..] == line[1..] + "\n" + rest;
      SplitCons(line[1..], rest);
      assert [text[0]] + line[1..] == line;
    }
  }

  lemma {:induction false} SplitJoin(lines: seq<string>)
    requires lines != [] && OneLines(lines)
    ensures Split(Join(lines)) == lines
  {
    if |lines| == 1 {
      SplitOneLine(lines[0]);
    } else {
      SplitCons(lines[0], Join(lines[1..]));
      SplitJoin(lines[1..]);
    }
  }

  lemma {:induction false} JoinSplit(t: string)
    ensures Join(Split(t)) == t && OneLines(Split(t))
  {
    if t != "" {
      var rest := Split(t[1..]);
      JoinSplit(t[1..]);
      assert t == [t[0]] + t[1..];
      if t[0] == '\n' {
        assert ([""] + rest)[1..] == rest;
      } else {
        var lines := [[t[0]] + rest[0]] + rest[1..];
        assert lines[1..] == rest[1..];
        if |rest| > 1 {
          assert Join(rest) == rest[0] + "\n" + Join(rest[1..]);
          assert [t[0]] + (rest[0] + "\n" + Join(rest[1..])) == ([t[0]] + rest[0]) + "\n" + Join(rest[1..]);
        }
      }
    }
  }

  // ---------------------------------------------------------------- the parser produces normal blocks

  ghost predicate NormalParse(p: Parse) {
    Normal(p.blocks) && (p.code.Some? ==> OneLines(p.code.value) && NoFences(p.code.value))
  }

  lemma CodeIsNormal(code: seq<string>)
    requires OneLines(code) && NoFences(code)
    ensures NormalBlock(CodeBlockOf(code))
  {
    if Join(code) == "" {
      SplitOneLine(" ");
    } else {
      SplitJoin(code);
    }
  }

  lemma HeadingIsNormal(line: string)
    requires OneLine(line) && HeadingOf(line).Some?
    ensures var (h, t) := HeadingOf(line).value; NormalBlock(HeadingBlock(h, t))
  {
    var h := Hashes(line);
    var w := Spaces(line[h..]);
    if h + w < |line| {
      assert line[h + w] == line[h..][w];
    }
  }

  lemma NormalAppend(blocks: seq<Adf>, b: Adf)
    requires Normal(blocks) && NormalBlock(b) && !(EndsInList(blocks) && IsList(b))
    ensures Normal(blocks + [b])
  {
    var all := blocks + [b];
    forall i | 0 <= i < |all| ensures NormalBlock(all[i]) {
      assert i < |blocks| ==> all[i] == blocks[i];
    }
    forall i | 0 <= i < |all| - 1 ensures !TwoLists(all, i) {
      assert i < |blocks| - 1 ==> TwoLists(all, i) == TwoLists(blocks, i);
    }
  }

  lemma NormalFront(blocks: seq<Adf>)
    requires Normal(blocks) && blocks != []
    ensures var front, b := blocks[..|blocks| - 1], blocks[|blocks| - 1];
            Normal(front) && NormalBlock(b) && !(EndsInList(front) && IsList(b))
  {
    var front := blocks[..|blocks| - 1];
    forall i | 0 <= i < |front| - 1 ensures !TwoLists(front, i) {
      assert TwoLists(front, i) == TwoLists(blocks, i);
    }
    assert |front| > 0 ==> !TwoLists(blocks, |blocks| - 2);
  }

  lemma ListIsNormal(items: seq<Adf>, t: string)
    requires OneLine(t) && forall i | 0 <= i < |items| :: NormalItem(items[i])
    ensures NormalBlock(Node(BulletList, items + [Item(t)]))
  {
    var all := items + [Item(t)];
    forall i | 0 <= i < |all| ensures NormalItem(all[i]) {
      assert i < |items| ==> all[i] == items[i];
    }
  }

  lemma AddItemNormal(blocks: seq<Adf>, t: string)
    requires Normal(blocks) && OneLine(t)
    ensures Normal(AddItem(blocks, t))
  {
    if EndsInList(blocks) {
      NormalFront(blocks);
      var front, last := blocks[..|blocks| - 1], blocks[|blocks| - 1];
      ListIsNormal(last.content, t);
      NormalAppend(front, Node(BulletList, last.content + [Item(t)]));
    } else {
      assert [] + [Item(t)] == [Item(t)];
      ListIsNormal([], t);
      NormalAppend(blocks, Node(BulletList, [Item(t)]));
    }
  }

  lemma StepNormal(p: Parse, line: string)
    requires NormalParse(p) && OneLine(line)
    ensures NormalParse(Step(p, line))
  {
    if IsFence(line) {
      if p.code.Some? {
        CodeIsNormal(p.code.value);
        NormalAppend(p.blocks, CodeBlockOf(p.code.value));
      }
    } else if p.code.None? && !IsBlank(line) {
      if HeadingOf(line).Some? {
        HeadingIsNormal(line);
        NormalAppend(p.blocks, HeadingBlock(HeadingOf(line).value.0, HeadingOf(line).value.1));
      } else if IsBullet(line) {
        AddItemNormal(p.blocks, line[2..]);
      } else {
        NormalAppend(p.blocks, ParagraphBlock(line));
      }
    }
  }

  lemma {:induction false} StepsNormal(p: Parse, lines: seq<string>)
    requires NormalParse(p) && OneLines(lines)
    ensures NormalParse(Steps(p, lines))
    decreases |lines|
  {
    if lines != [] {
      StepNormal(p, lines[0]);
      StepsNormal(Step(p, lines[0]), lines[1..]);
    }
  }

  /** Whatever the lines: headings, plain paragraphs, code blocks and lists of items, and never two lists in a row. */
  lemma ParsedIsNormal(lines: seq<string>)
    requires OneLines(lines)
    ensures Normal(Blocks(lines))
  {
    StepsNormal(START, lines);
    var p := Steps(START, lines);
    if p.code.Some? {
      CodeIsNormal(p.code.value);
      NormalAppend(p.blocks, CodeBlockOf(p.code.value));
    }
  }

  // ---------------------------------------------------------------- normal blocks come back from their printout

  lemma {:induction false} StepsJoin(p: Parse, a: seq<string>, b: seq<string>)
    ensures Steps(p, a + b) == Steps(Steps(p, a), b)
    decreases |a|
  {
    if a == [] {
      assert a + b == b;
    } else {
      assert (a + b)[1..] == a[1..] + b;
      StepsJoin(Step(p, a[0]), a[1..], b);
    }
  }

  lemma StepsOne(p: Parse, line: string)
    ensures Steps(p, [line]) == Step(p, line)
  {
  }

  lemma {:induction false} HashMarkCount(n: nat, t: string)
    requires t != "" && t[0] != '#'
    ensures Hashes(HashMarks(n) + t) == n
  {
    var line := HashMarks(n) + t;
    if n > 0 {
      assert line[1..] == HashMarks(n - 1) + t;
      HashMarkCount(n - 1, t);
    } else {
      assert line == t;
    }
  }

  lemma PrintedHeading(level: nat, t: string)
    requires 1 <= level <= 6 && HeadingText(t)
    ensures var line := HashMarks(level) + " " + t;
            !IsFence(line) && !IsBlank(line) && HeadingOf(line) == Some((level, t))
  {
    var line := HashMarks(level) + " " + t;
    assert line == HashMarks(level) + (" " + t);
    HashMarkCount(level, " " + t);
    assert line[0] == '#' && !IsSpace(line[0]);
    assert line[level..] == " " + t;
    assert (" " + t)[1..] == t;
    if IsSpace(t[0]) {
      assert t[1..] == "";
      assert Spaces(t) == 1 && Spaces(" " + t) == 2;
      assert line[|line| - 1..] == t;
    } else {
      assert Spaces(t) == 0 && Spaces(" " + t) == 1;
      assert line[level + 1..] == t;
    }
  }

  lemma PrintedItem(t: string)
    ensures var line := "- " + t;
            !IsFence(line) && !IsBlank(line) && HeadingOf(line).None? && IsBullet(line) && line[2..] == t
  {
    var line := "- " + t;
    assert line[0] == '-' && line[1] == ' ' && !IsSpace(line[0]);
  }

  lemma ItemLinesMore(items: seq<Adf>, item: Adf)
    ensures ItemLines(items + [item]) == ItemLines(items) + [ItemLine(item)]
  {
    assert (items + [item])[..|items|] == items;
  }

  function WithList(blocks: seq<Adf>, items: seq<Adf>): seq<Adf> {
    if items == [] then blocks else blocks + [Node(BulletList, items)]
  }

  lemma {:induction false} ItemsComeBack(blocks: seq<Adf>, items: seq<Adf>)
    requires !EndsInList(blocks)
    requires forall i | 0 <= i < |items| :: NormalItem(items[i])
    ensures Steps(Parse(blocks, None), ItemLines(items)) == Parse(WithList(blocks, items), None)
  {
    if items != [] {
      var front, item := items[..|items| - 1], items[|items| - 1];
      assert NormalItem(item);
      var t :| OneLine(t) && item == Item(t);
      ItemsComeBack(blocks, front);
      StepsJoin(Parse(blocks, None), ItemLines(front), [ItemLine(item)]);
      StepsOne(Parse(WithList(blocks, front), None), ItemLine(item));
      ItemComesBack(blocks, front, t);
      assert front + [item] == items;
      ItemLinesMore(front, item);
    }
  }

  /** One more item line after the items so far. */
  lemma ItemComesBack(blocks: seq<Adf>, items: seq<Adf>, t: string)
    requires !EndsInList(blocks)
    ensures ItemLine(Item(t)) == "- " + t
    ensures Step(Parse(WithList(blocks, items), None), "- " + t) == Parse(WithList(blocks, items + [Item(t)]), None)
  {
    PrintedItem(t);
    if items == [] {
      assert [] + [Item(t)] == [Item(t)];
    } else {
      assert (blocks + [Node(BulletList, items)])[..|blocks|] == blocks;
    }
  }

  lemma {:induction false} CodeLinesComeBack(blocks: seq<Adf>, code: seq<string>, lines: seq<string>)
    requires NoFences(lines)
    ensures Steps(Parse(blocks, Some(code)), lines) == Parse(blocks, Some(code + lines))
    decreases |lines|
  {
    if lines == [] {
      assert code + lines == code;
    } else {
      CodeLinesComeBack(blocks, code + [lines[0]], lines[1..]);
      assert code + [lines[0]] + lines[1..] == code + lines;
    }
  }

  lemma CodeComesBack(blocks: seq<Adf>, b: Adf)
    requires NormalBlock(b) && b.kind == CodeBlock
    ensures Steps(Parse(blocks, None), PrintBlock(b)) == Parse(blocks + [b], None)
  {
    var lines := Split(TextOf(b));
    var p := Parse(blocks, None);
    var inside := Parse(blocks, Some(lines));
    StepsJoin(p, ["```"] + lines, ["```"]);
    StepsJoin(p, ["```"], lines);
    StepsOne(p, "```");
    CodeLinesComeBack(blocks, [], lines);
    assert [] + lines == lines;
    StepsOne(inside, "```");
    JoinSplit(TextOf(b));
    assert b == CodeBlockOf(lines);
  }

  lemma BlockComesBack(blocks: seq<Adf>, b: Adf)
    requires NormalBlock(b) && !(EndsInList(blocks) && IsList(b))
    ensures Steps(Parse(blocks, None), PrintBlock(b)) == Parse(blocks + [b], None)
  {
    var p := Parse(blocks, None);
    match b.kind
    case Heading(level) =>
      PrintedHeading(level, TextOf(b));
      StepsOne(p, HashMarks(level) + " " + TextOf(b));
      assert b == HeadingBlock(level, TextOf(b));
    case Paragraph =>
      StepsOne(p, TextOf(b));
      assert b == ParagraphBlock(TextOf(b));
    case BulletList => ItemsComeBack(blocks, b.content);
    case CodeBlock => CodeComesBack(blocks, b);
  }

  lemma {:induction false} StepsPrint(blocks: seq<Adf>)
    requires Normal(blocks)
    ensures Steps(START, Print(blocks)) == Parse(blocks, None)
  {
    if blocks != [] {
      var front, b := blocks[..|blocks| - 1], blocks[|blocks| - 1];
      NormalFront(blocks);
      StepsPrint(front);
      StepsJoin(START, Print(front), PrintBlock(b));
      BlockComesBack(front, b);
      assert front + [b] == blocks;
    }
  }

  /** Printing loses nothing: normal blocks are what their printout parses to. */
  lemma PrintedBlocksComeBack(blocks: seq<Adf>)
    requires Normal(blocks)
    ensures Blocks(Print(blocks)) == blocks
  {
    StepsPrint(blocks);
  }

  /** The normal form of any document is a fixed point. */
  lemma NormalFormIsStable(lines: seq<string>)
    requires OneLines(lines)
    ensures Blocks(Print(Blocks(lines))) == Blocks(lines)
  {
    ParsedIsNormal(lines);
    PrintedBlocksComeBack(Blocks(lines));
  }

  // ---------------------------------------------------------------- what becomes of each line

  /** The lines before the next fence. */
  function UpToFence(lines: seq<string>): (n: nat)
    ensures n <= |lines| && NoFences(lines[..n]) && (n < |lines| ==> IsFence(lines[n]))
  {
    if lines == [] || IsFence(lines[0]) then 0
    else
      var n := UpToFence(lines[1..]);
      assert lines[..n + 1] == [lines[0]] + lines[1..][..n];
      n + 1
  }

  function Tidy(line: string): string {
    match HeadingOf(line)
    case Some(ht) => HashMarks(ht.0) + " " + ht.1
    case None => if IsBullet(line) then "- " + line[2..] else line
  }

  /** A code block without any character becomes one space; other code is kept as it is. */
  function TidyCode(code: seq<string>): seq<string> {
    if code == [] || code == [""] then [" "] else code
  }

  /**
   The tidied document: outside fences blank lines go and each other line is tidied by itself; a fence loses its info
   string, keeps its lines, and is closed if it was not.
   */
  function TidyLines(lines: seq<string>): seq<string>
    decreases |lines|
  {
    if lines == [] then []
    else if IsFence(lines[0]) then
      var n := UpToFence(lines[1..]);
      ["```"] + TidyCode(lines[1..][..n]) + ["```"]
      + TidyLines(if n + 2 <= |lines| then lines[n + 2..] else [])
    else if IsBlank(lines[0]) then TidyLines(lines[1..])
    else [Tidy(lines[0])] + TidyLines(lines[1..])
  }

  lemma PrintMore(blocks: seq<Adf>, b: Adf)
    ensures Print(blocks + [b]) == Print(blocks) + PrintBlock(b)
  {
    assert (blocks + [b])[..|blocks|] == blocks;
  }

  lemma PrintLongerList(front: seq<Adf>, items: seq<Adf>, item: Adf)
    ensures Print(front + [Node(BulletList, items + [item])])
            == Print(front + [Node(BulletList, items)]) + [ItemLine(item)]
  {
    PrintMore(front, Node(BulletList, items));
    PrintMore(front, Node(BulletList, items + [item]));
    ItemLinesMore(items, item);
    Regroup(Print(front), ItemLines(items), [ItemLine(item)]);
  }

  lemma ItemPrints(t: string)
    ensures ItemLine(Item(t)) == "- " + t
  {
  }

  lemma PrintNewList(blocks: seq<Adf>, item: Adf)
    ensures Print(blocks + [Node(BulletList, [item])]) == Print(blocks) + [ItemLine(item)]
  {
    PrintMore(blocks, Node(BulletList, [item]));
    ItemLinesMore([], item);
    assert [] + [item] == [item];
  }

  lemma PrintAddItem(blocks: seq<Adf>, t: string)
    ensures Print(AddItem(blocks, t)) == Print(blocks) + ["- " + t]
  {
    ItemPrints(t);
    var item := Item(t);
    if EndsInList(blocks) {
      var front, last := blocks[..|blocks| - 1], blocks[|blocks| - 1];
      PrintLongerList(front, last.content, item);
      assert front + [Node(BulletList, last.content)] == blocks;
      assert AddItem(blocks, t) == front + [Node(BulletList, last.content + [item])];
    } else {
      PrintNewList(blocks, item);
    }
  }

  lemma PrintCode(code: seq<string>)
    requires OneLines(code)
    ensures PrintBlock(CodeBlockOf(code)) == ["```"] + TidyCode(code) + ["```"]
  {
    if code == [] || code == [""] {
      SplitOneLine(" ");
    } else {
      assert Join(code) != "" by {
        if |code| == 1 {
          assert code == [code[0]];
        }
      }
      SplitJoin(code);
    }
  }

  lemma PrintHeadingOrParagraph(blocks: seq<Adf>, level: nat, t: string)
    ensures Print(blocks + [HeadingBlock(level, t)]) == Print(blocks) + [HashMarks(level) + " " + t]
    ensures Print(blocks + [ParagraphBlock(t)]) == Print(blocks) + [t]
  {
    PrintMore(blocks, HeadingBlock(level, t));
    PrintMore(blocks, ParagraphBlock(t));
  }

  lemma LinePrints(blocks: seq<Adf>, line: string)
    requires !IsFence(line) && !IsBlank(line)
    ensures var q := Step(Parse(blocks, None), line); q.code.None? && Print(q.blocks) == Print(blocks) + [Tidy(line)]
  {
    match HeadingOf(line)
    case Some(ht) => PrintHeadingOrParagraph(blocks, ht.0, ht.1);
    case None =>
      if IsBullet(line) {
        PrintAddItem(blocks, line[2..]);
      } else {
        PrintHeadingOrParagraph(blocks, 0, line);
      }
  }

  /** A fence, its lines and its closing fence become one block. */
  lemma FenceSteps(blocks: seq<Adf>, lines: seq<string>)
    requires lines != [] && IsFence(lines[0])
    ensures var n := UpToFence(lines[1..]);
            var code := lines[1..][..n];
            Steps(Parse(blocks, None), lines)
            == if n + 2 <= |lines| then Steps(Parse(blocks + [CodeBlockOf(code)], None), lines[n + 2..])
               else Parse(blocks, Some(code))
  {
    var n := UpToFence(lines[1..]);
    var code, rest := lines[1..][..n], lines[n + 1..];
    assert lines == [lines[0]] + (code + rest);
    FenceOpens(blocks, lines[0], code, rest);
    if n + 2 <= |lines| {
      assert rest[0] == lines[1..][n] && rest[1..] == lines[n + 2..];
      FenceCloses(blocks, code, rest);
    } else {
      assert rest == [];
    }
  }

  lemma FenceOpens(blocks: seq<Adf>, fence: string, code: seq<string>, rest: seq<string>)
    requires IsFence(fence) && NoFences(code)
    ensures Steps(Parse(blocks, None), [fence] + (code + rest)) == Steps(Parse(blocks, Some(code)), rest)
  {
    assert ([fence] + (code + rest))[1..] == code + rest;
    StepsJoin(Parse(blocks, Some([])), code, rest);
    CodeLinesComeBack(blocks, [], code);
    assert [] + code == code;
  }

  lemma FenceCloses(blocks: seq<Adf>, code: seq<string>, rest: seq<string>)
    requires rest != [] && IsFence(rest[0])
    ensures Steps(Parse(blocks, Some(code)), rest) == Steps(Parse(blocks + [CodeBlockOf(code)], None), rest[1..])
  {
  }

  lemma Regroup<T>(a: seq<T>, b: seq<T>, c: seq<T>)
    ensures a + b + c == a + (b + c)
  {
  }

  lemma {:induction false} TidiedFrom(blocks: seq<Adf>, lines: seq<string>)
    requires OneLines(lines)
    ensures Print(Finish(Steps(Parse(blocks, None), lines))) == Print(blocks) + TidyLines(lines)
    decreases |lines|, 1
  {
    if lines == [] {
      assert Print(blocks) + [] == Print(blocks);
    } else if IsFence(lines[0]) {
      FenceTidied(blocks, lines);
    } else if IsBlank(lines[0]) {
      TidiedFrom(blocks, lines[1..]);
    } else {
      LinePrints(blocks, lines[0]);
      TidiedFrom(Step(Parse(blocks, None), lines[0]).blocks, lines[1..]);
      Regroup(Print(blocks), [Tidy(lines[0])], TidyLines(lines[1..]));
    }
  }

  lemma {:induction false} FenceTidied(blocks: seq<Adf>, lines: seq<string>)
    requires OneLines(lines) && lines != [] && IsFence(lines[0])
    ensures Print(Finish(Steps(Parse(blocks, None), lines))) == Print(blocks) + TidyLines(lines)
    decreases |lines|, 0
  {
    var n := UpToFence(lines[1..]);
    var code := lines[1..][..n];
    FenceSteps(blocks, lines);
    PrintMore(blocks, CodeBlockOf(code));
    PrintCode(code);
    var fenced := ["```"] + TidyCode(code) + ["```"];
    if n + 2 <= |lines| {
      TidiedFrom(blocks + [CodeBlockOf(code)], lines[n + 2..]);
      Regroup(Print(blocks), fenced, TidyLines(lines[n + 2..]));
    } else {
      assert fenced + TidyLines([]) == fenced;
    }
  }

  /** Parsing and printing rewrites the lines of any document exactly as TidyLines says, and loses nothing else. */
  lemma PrintedIsTidied(lines: seq<string>)
    requires OneLines(lines)
    ensures Print(Blocks(lines)) == TidyLines(lines)
  {
    TidiedFrom([], lines);
    assert [] + TidyLines(lines) == TidyLines(lines);
  }
}
