/**
 Markdown lines to Atlassian Document Format blocks: the one-pass parser, a printer back to lines, and what the
 two are to each other. Lines are the already split, already redacted lines of the document.
 */
module Markdown {
  import opened Options

  datatype Kind = Doc | Paragraph | Heading(level: nat) | BulletList | ListItem | CodeBlock
  datatype Adf = Text(text: string) | Node(kind: Kind, content: seq<Adf>)

  // ---------------------------------------------------------------- one line

  /** The characters that `\s` and `str.strip` take for white space. */
  predicate IsSpace(c: char) {
    var n := c as int;
    9 <= n <= 13 || 0x1c <= n <= 0x20 || n == 0x85 || n == 0xa0 || n == 0x1680 || 0x2000 <= n <= 0x200a
    || n == 0x2028 || n == 0x2029 || n == 0x202f || n == 0x205f || n == 0x3000
  }

  predicate IsFence(line: string) {
    |line| >= 3 && line[0] == '`' && line[1] == '`' && line[2] == '`'
  }

  predicate IsBlank(line: string) {
    forall i | 0 <= i < |line| :: IsSpace(line[i])
  }

  /** `^[-*]\s+` */
  predicate IsBullet(line: string) {
    |line| >= 2 && (line[0] == '-' || line[0] == '*') && IsSpace(line[1])
  }

  /** What the patterns of a line mean. */
  lemma LinePatterns(line: string)
    ensures IsFence(line) <==> "```" <= line
    ensures IsBullet(line) <==> exists c, rest :: IsSpace(c) && (line == "-" + [c] + rest || line == "*" + [c] + rest)
  {
    if IsBullet(line) {
      assert line == [line[0]] + [line[1]] + line[2..];
    }
  }

  function Hashes(line: string): (n: nat)
    ensures n <= |line| && (forall i | 0 <= i < n :: line[i] == '#') && (n < |line| ==> line[n] != '#')
  {
    if line != [] && line[0] == '#' then 1 + Hashes(line[1..]) else 0
  }

  function Spaces(line: string): (n: nat)
    ensures n <= |line| && (forall i | 0 <= i < n :: IsSpace(line[i])) && (n < |line| ==> !IsSpace(line[n]))
  {
    if line != [] && IsSpace(line[0]) then 1 + Spaces(line[1..]) else 0
  }

  /** `^(#{1,6})\s+(.+)$`: when nothing follows the white space, `\s+` gives its last character back to `.+`. */
  function HeadingOf(line: string): Option<(nat, string)> {
    var h := Hashes(line);
    if !(1 <= h <= 6) then None
    else
      var w := Spaces(line[h..]);
      if w == 0 then None
      else if h + w < |line| then Some((h, line[h + w..]))
      else if w >= 2 then Some((h, line[|line| - 1..]))
      else None
  }

  /** One way the heading pattern can match: h hashes, w white space characters, and a text. */
  ghost predicate HeadingMatch(line: string, h: nat, w: nat, text: string) {
    && 1 <= h <= 6 && w >= 1 && text != [] && h + w + |text| == |line|
    && (forall i | 0 <= i < h :: line[i] == '#')
    && (forall i | h <= i < h + w :: IsSpace(line[i]))
    && line[h + w..] == text
  }

  lemma AnyMatch(line: string, h: nat, w: nat, text: string)
    requires HeadingMatch(line, h, w, text)
    ensures h == Hashes(line) && 1 <= w <= Spaces(line[h..]) && HeadingOf(line).Some?
    ensures w <= |line| - h - |HeadingOf(line).value.1|
  {
    assert IsSpace(line[h]) && line[h] != '#';
    var most := Spaces(line[h..]);
    if h + most < |line| {
      assert line[h..][most] == line[h + most];
    }
  }

  lemma OwnMatch(line: string)
    requires HeadingOf(line).Some?
    ensures var (h, text) := HeadingOf(line).value; HeadingMatch(line, h, |line| - h - |text|, text)
  {
    var h := Hashes(line);
    assert forall i | h <= i < h + Spaces(line[h..]) :: line[i] == line[h..][i - h];
  }

  /** The function is the pattern: it finds the match with the longest white space, and misses none. */
  lemma HeadingIsGreedyMatch(line: string)
    ensures HeadingOf(line).Some? ==>
              var (h, text) := HeadingOf(line).value;
              && HeadingMatch(line, h, |line| - h - |text|, text)
              && forall h': nat, w': nat, text': string | HeadingMatch(line, h', w', text') ::
                   h' == h && w' <= |line| - h - |text|
    ensures HeadingOf(line).None? ==> forall h': nat, w': nat, text': string :: !HeadingMatch(line, h', w', text')
  {
    forall h': nat, w': nat, text': string | HeadingMatch(line, h', w', text')
      ensures HeadingOf(line).Some? && h' == HeadingOf(line).value.0 && w' <= |line| - h' - |HeadingOf(line).value.1|
    {
      AnyMatch(line, h', w', text');
    }
    if HeadingOf(line).Some? {
      OwnMatch(line);
    }
  }

  // ---------------------------------------------------------------- blocks

  function HeadingBlock(level: nat, text: string): Adf {
    Node(Heading(level), [Text(text)])
  }

  function ParagraphBlock(text: string): Adf {
    Node(Paragraph, [Text(text)])
  }

  function Item(text: string): Adf {
    Node(ListItem, [ParagraphBlock(text)])
  }

  /** `"\n".join(code)` */
  function Join(lines: seq<string>): string {
    if lines == [] then ""
    else if |lines| == 1 then lines[0]
    else lines[0] + "\n" + Join(lines[1..])
  }

  function CodeBlockOf(code: seq<string>): Adf {
    Node(CodeBlock, [Text(if Join(code) == "" then " " else Join(code))])
  }

  predicate EndsInList(blocks: seq<Adf>) {
    |blocks| > 0 && blocks[|blocks| - 1].Node? && blocks[|blocks| - 1].kind == BulletList
  }

  function AddItem(blocks: seq<Adf>, text: string): seq<Adf> {
    if EndsInList(blocks) then
      var last := blocks[|blocks| - 1];
      blocks[..|blocks| - 1] + [Node(BulletList, last.content + [Item(text)])]
    else
      blocks + [Node(BulletList, [Item(text)])]
  }

  // ---------------------------------------------------------------- the parser

  /** The blocks so far and, inside a fence, the code lines so far. */
  datatype Parse = Parse(blocks: seq<Adf>, code: Option<seq<string>>)

  const START := Parse([], None)

  function Step(p: Parse, line: string): Parse {
    if IsFence(line) then
      match p.code
      case None => p.(code := Some([]))
      case Some(code) => Parse(p.blocks + [CodeBlockOf(code)], None)
    else if p.code.Some? then p.(code := Some(p.code.value + [line]))
    else if IsBlank(line) then p
    else
      match HeadingOf(line)
      case Some(ht) => p.(blocks := p.blocks + [HeadingBlock(ht.0, ht.1)])
      case None =>
        if IsBullet(line) then p.(blocks := AddItem(p.blocks, line[2..]))
        else p.(blocks := p.blocks + [ParagraphBlock(line)])
  }

  function Steps(p: Parse, lines: seq<string>): Parse
    decreases |lines|
  {
    if lines == [] then p else Steps(Step(p, lines[0]), lines[1..])
  }

  function Finish(p: Parse): seq<Adf> {
    match p.code
    case None => p.blocks
    case Some(code) => p.blocks + [CodeBlockOf(code)]
  }

  function Blocks(lines: seq<string>): seq<Adf> {
    Finish(Steps(START, lines))
  }

  function Document(blocks: seq<Adf>): Adf {
    Node(Doc, if blocks == [] then [Node(Paragraph, [])] else blocks)
  }

  // ---------------------------------------------------------------- the printer

  function Split(text: string): (lines: seq<string>)
    ensures |lines| >= 1
  {
    if text == "" then [""]
    else
      var rest := Split(text[1..]);
      if text[0] == '\n' then [""] + rest else [[text[0]] + rest[0]] + rest[1..]
  }

  function HashMarks(n: nat): string {
    seq(n, _ => '#')
  }

  function TextOf(b: Adf): string {
    if b.Node? && |b.content| > 0 && b.content[0].Text? then b.content[0].text else ""
  }

  function ItemLine(item: Adf): string {
    "- " + (if item.Node? && |item.content| > 0 then TextOf(item.content[0]) else "")
  }

  function ItemLines(items: seq<Adf>): seq<string> {
    if items == [] then [] else ItemLines(items[..|items| - 1]) + [ItemLine(items[|items| - 1])]
  }

  function PrintBlock(b: Adf): seq<string> {
    if b.Text? then [b.text]
    else
      match b.kind
      case Heading(level) => [HashMarks(level) + " " + TextOf(b)]
      case BulletList => ItemLines(b.content)
      case CodeBlock => ["```"] + Split(TextOf(b)) + ["```"]
      case _ => if b.content == [] then [] else [TextOf(b)]
  }

  function Print(blocks: seq<Adf>): seq<string> {
    if blocks == [] then [] else Print(blocks[..|blocks| - 1]) + PrintBlock(blocks[|blocks| - 1])
  }
}
