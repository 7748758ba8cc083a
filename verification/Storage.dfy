/**
 ADF documents to Confluence storage XML and back: the escaping printer, a parser for the tags it emits, and the
 round trip.
 */
module Storage {
  import opened Options
  import opened Markdown
  import opened MarkdownNormalForm

  // ---------------------------------------------------------------- escaping

  function Replace(s: string, c: char, sub: string): string {
    if s == "" then "" else (if s[0] == c then sub else [s[0]]) + Replace(s[1..], c, sub)
  }

  /** html.escape: five replacements, one after the other, the ampersand first. */
  function Escape(s: string): string {
    Replace(Replace(Replace(Replace(Replace(s, '&', "&amp;"), '<', "&lt;"), '>', "&gt;"),
        '"', "&quot;"), '\'', "&#x27;")
  }

  function EscapeChar(c: char): string {
    match c
    case '&' => "&amp;"
    case '<' => "&lt;"
    case '>' => "&gt;"
    case '"' => "&quot;"
    case '\'' => "&#x27;"
    case _ => [c]
  }

  function EscapeChars(s: string): string {
    if s == "" then "" else EscapeChar(s[0]) + EscapeChars(s[1..])
  }

  lemma {:induction false} ReplaceJoin(a: string, b: string, c: char, sub: string)
    ensures Replace(a + b, c, sub) == Replace(a, c, sub) + Replace(b, c, sub)
  {
    if a == "" {
      assert a + b == b;
    } else {
      assert (a + b)[1..] == a[1..] + b;
      ReplaceJoin(a[1..], b, c, sub);
    }
  }

  lemma {:induction false} ReplaceAbsent(s: string, c: char, sub: string)
    requires c !in s
    ensures Replace(s, c, sub) == s
  {
    if s != "" {
      ReplaceAbsent(s[1..], c, sub);
      assert s == [s[0]] + s[1..];
    }
  }

  lemma EscapeJoin(a: string, b: string)
    ensures Escape(a + b) == Escape(a) + Escape(b)
  {
    ReplaceJoin(a, b, '&', "&amp;");
    var a1, b1 := Replace(a, '&', "&amp;"), Replace(b, '&', "&amp;");
    ReplaceJoin(a1, b1, '<', "&lt;");
    var a2, b2 := Replace(a1, '<', "&lt;"), Replace(b1, '<', "&lt;");
    ReplaceJoin(a2, b2, '>', "&gt;");
    var a3, b3 := Replace(a2, '>', "&gt;"), Replace(b2, '>', "&gt;");
    ReplaceJoin(a3, b3, '"', "&quot;");
    ReplaceJoin(Replace(a3, '"', "&quot;"), Replace(b3, '"', "&quot;"), '\'', "&#x27;");
  }

  lemma ReplaceOne(c: char, d: char, sub: string)
    ensures Replace([c], d, sub) == if c == d then sub else [c]
  {
    assert [c][1..] == "";
  }

  /** A reference is not touched by the passes after the one that made it. */
  lemma NotReplaced(e: string)
    requires '>' !in e && '"' !in e && '\'' !in e
    ensures Replace(Replace(Replace(e, '>', "&gt;"), '"', "&quot;"), '\'', "&#x27;") == e
  {
    ReplaceAbsent(e, '>', "&gt;");
    ReplaceAbsent(e, '"', "&quot;");
    ReplaceAbsent(e, '\'', "&#x27;");
  }

  lemma EscapeAmpersand(c: char, e: string)
    requires c == '&' && e == "&amp;"
    ensures Escape([c]) == e
  {
    ReplaceOne(c, '&', e);
    ReplaceAbsent(e, '<', "&lt;");
    NotReplaced(e);
  }

  lemma EscapeLess(c: char, e: string)
    requires c == '<' && e == "&lt;"
    ensures Escape([c]) == e
  {
    ReplaceOne(c, '&', "&amp;");
    ReplaceOne(c, '<', e);
    NotReplaced(e);
  }

  lemma EscapeGreater(c: char, e: string)
    requires c == '>' && e == "&gt;"
    ensures Escape([c]) == e
  {
    ReplaceOne(c, '&', "&amp;");
    ReplaceOne(c, '<', "&lt;");
    ReplaceOne(c, '>', e);
    ReplaceAbsent(e, '"', "&quot;");
    ReplaceAbsent(e, '\'', "&#x27;");
  }

  lemma EscapeQuote(c: char, e: string)
    requires (c == '"' && e == "&quot;") || (c == '\'' && e == "&#x27;")
    ensures Escape([c]) == e
  {
    ReplaceOne(c, '&', "&amp;");
    ReplaceOne(c, '<', "&lt;");
    ReplaceOne(c, '>', "&gt;");
    ReplaceOne(c, '"', "&quot;");
    if c == '"' {
      ReplaceAbsent(e, '\'', "&#x27;");
    } else {
      ReplaceOne(c, '\'', "&#x27;");
    }
  }

  lemma EscapeOther(c: char)
    requires EscapeChar(c) == [c]
    ensures Escape([c]) == [c]
  {
    ReplaceAbsent([c], '&', "&amp;");
    ReplaceAbsent([c], '<', "&lt;");
    ReplaceAbsent([c], '>', "&gt;");
    ReplaceAbsent([c], '"', "&quot;");
    ReplaceAbsent([c], '\'', "&#x27;");
  }

  lemma EscapeOne(c: char)
    ensures Escape([c]) == EscapeChar(c)
  {
    match c
    case '&' => EscapeAmpersand(c, EscapeChar(c));
    case '<' => EscapeLess(c, EscapeChar(c));
    case '>' => EscapeGreater(c, EscapeChar(c));
    case '"' => EscapeQuote(c, EscapeChar(c));
    case '\'' => EscapeQuote(c, EscapeChar(c));
    case _ => EscapeOther(c);
  }

  /** The five passes amount to one pass over the characters. */
  lemma {:induction false} EscapeIsCharwise(s: string)
    ensures Escape(s) == EscapeChars(s)
  {
    if s != "" {
      assert s == [s[0]] + s[1..];
      EscapeJoin([s[0]], s[1..]);
      EscapeOne(s[0]);
      EscapeIsCharwise(s[1..]);
    }
  }

  /** The reference at the start of s: the character it stands for and its length. */
  function Entity(s: string): Option<(char, nat)> {
    if "&amp;" <= s then Some(('&', 5))
    else if "&lt;" <= s then Some(('<', 4))
    else if "&gt;" <= s then Some(('>', 4))
    else if "&quot;" <= s then Some(('"', 6))
    else if "&#x27;" <= s then Some(('\'', 6))
    else None
  }

  function Unescape(s: string): Option<string>
    decreases |s|
  {
    if s == "" then Some("")
    else if s[0] == '&' then
      var e :- Entity(s);
      var rest :- Unescape(s[e.1..]);
      Some([e.0] + rest)
    else
      var rest :- Unescape(s[1..]);
      Some([s[0]] + rest)
  }

  lemma UnescapeChar(c: char, rest: string)
    ensures Unescape(EscapeChar(c) + rest)
            == match Unescape(rest) case Some(r) => Some([c] + r) case None => None
  {
    var s := EscapeChar(c) + rest;
    assert s[|EscapeChar(c)|..] == rest;
    if |EscapeChar(c)| > 1 {
      assert s[..|EscapeChar(c)|] == EscapeChar(c);
      assert EscapeChar(c) <= s;
      assert s[1] == EscapeChar(c)[1] && s[2] == EscapeChar(c)[2];
    }
  }

  /** Escaping is invertible. */
  lemma {:induction false} EscapeRoundTrip(s: string)
    ensures Unescape(Escape(s)) == Some(s)
  {
    EscapeIsCharwise(s);
    if s != "" {
      EscapeRoundTrip(s[1..]);
      EscapeIsCharwise(s[1..]);
      UnescapeChar(s[0], EscapeChars(s[1..]));
      assert s == [s[0]] + s[1..];
    }
  }

  /** Character data holds no markup: no '<' or '>' or quote, and '&' only at the start of one of five references. */
  ghost predicate Safe(s: string) {
    && '<' !in s && '>' !in s && '"' !in s && '\'' !in s
    && forall i | 0 <= i < |s| && s[i] == '&' :: Entity(s[i..]).Some?
  }

  /** What one character becomes: itself, or one of the five references. */
  lemma OneReference(c: char)
    ensures var e := EscapeChar(c);
            && |e| >= 1 && '<' !in e && '>' !in e && '"' !in e && '\'' !in e
            && (e[0] == '&' ==> Entity(e).Some?) && forall j | 1 <= j < |e| :: e[j] != '&'
  {
  }

  lemma EntityPrefix(e: string, s: string)
    requires e <= s && Entity(e).Some?
    ensures Entity(s).Some?
  {
  }

  lemma SafeCons(e: string, rest: string)
    requires |e| >= 1 && '<' !in e && '>' !in e && '"' !in e && '\'' !in e
    requires (e[0] == '&' ==> Entity(e).Some?) && (forall j | 1 <= j < |e| :: e[j] != '&') && Safe(rest)
    ensures Safe(e + rest)
  {
    var s := e + rest;
    forall i | 0 <= i < |s| && s[i] == '&' ensures Entity(s[i..]).Some? {
      if i >= |e| {
        assert s[i] == rest[i - |e|] && s[i..] == rest[i - |e|..];
      } else {
        assert i == 0 && s[i..] == s;
        EntityPrefix(e, s);
      }
    }
  }

  lemma {:induction false} EscapeIsSafe(s: string)
    ensures Safe(Escape(s)) && (s != "" ==> Escape(s) != "")
  {
    EscapeIsCharwise(s);
    if s != "" {
      EscapeIsSafe(s[1..]);
      EscapeIsCharwise(s[1..]);
      OneReference(s[0]);
      SafeCons(EscapeChar(s[0]), EscapeChars(s[1..]));
    }
  }

  // ---------------------------------------------------------------- rendering

  function Decimal(n: nat): string {
    (if n < 10 then "" else Decimal(n / 10)) + ["0123456789"[n % 10]]
  }

  function TagOf(k: Kind): string {
    match k
    case Doc => "div"
    case Paragraph => "p"
    case Heading(level) => "h" + Decimal(level)
    case BulletList => "ul"
    case ListItem => "li"
    case CodeBlock => "pre"
  }

  function Render(n: Adf): string
    decreases n, 1
  {
    match n
    case Text(text) => Escape(text)
    case Node(kind, content) => "<" + TagOf(kind) + ">" + RenderAll(content) + "</" + TagOf(kind) + ">"
  }

  function RenderAll(ns: seq<Adf>): string
    decreases ns, 0
  {
    if ns == [] then "" else Render(ns[0]) + RenderAll(ns[1..])
  }

  // ---------------------------------------------------------------- parsing what was rendered

  function KindOf(tag: string): Option<Kind> {
    if tag == "div" then Some(Doc)
    else if tag == "p" then Some(Paragraph)
    else if tag == "ul" then Some(BulletList)
    else if tag == "li" then Some(ListItem)
    else if tag == "pre" then Some(CodeBlock)
    else if |tag| == 2 && tag[0] == 'h' && '1' <= tag[1] <= '6' then Some(Heading(tag[1] as nat - '0' as nat))
    else None
  }

  /** The position of c, or the length when it does not occur. */
  function IndexOf(s: string, c: char): (n: nat)
    ensures n <= |s| && c !in s[..n] && (n < |s| ==> s[n] == c)
  {
    if s == "" || s[0] == c then 0
    else
      var n := IndexOf(s[1..], c);
      assert s[..n + 1] == [s[0]] + s[1..][..n];
      n + 1
  }

  predicate AtClose(s: string) {
    s == "" || (|s| >= 2 && s[0] == '<' && s[1] == '/')
  }

  /** Nodes up to the next closing tag or the end, and what follows them. */
  function ParseNodes(s: string): (r: Option<(seq<Adf>, string)>)
    ensures r.Some? ==> |r.value.1| <= |s|
    decreases |s|
  {
    if AtClose(s) then Some(([], s))
    else if s[0] == '<' then
      var end := IndexOf(s, '>');
      if end == |s| then None
      else
        var tag := s[1..end];
        var kind :- KindOf(tag);
        var inner :- ParseNodes(s[end + 1..]);
        var close := "</" + tag + ">";
        if !(close <= inner.1) then None
        else
          var more :- ParseNodes(inner.1[|close|..]);
          Some(([Node(kind, inner.0)] + more.0, more.1))
    else
      var n := IndexOf(s, '<');
      var text :- Unescape(s[..n]);
      var more :- ParseNodes(s[n..]);
      Some(([Text(text)] + more.0, more.1))
  }

  function ParseDocument(s: string): Option<Adf> {
    var r :- ParseNodes(s);
    if r.1 == "" && |r.0| == 1 then Some(r.0[0]) else None
  }

  // ---------------------------------------------------------------- the round trip

  predicate KnownKind(k: Kind) {
    k.Heading? ==> 1 <= k.level <= 6
  }

  /** Known tags, and no two text nodes side by side. */
  predicate Printable(n: Adf)
    decreases n, 1
  {
    n.Node? ==> KnownKind(n.kind) && PrintableAll(n.content)
  }

  predicate PrintableAll(ns: seq<Adf>)
    decreases ns, 0
  {
    ns == [] || (Printable(ns[0]) && PrintableAll(ns[1..]) && !(|ns| >= 2 && ns[0].Text? && ns[1].Text?))
  }

  /** The same tree without empty text nodes, which leave no trace in XML. */
  function Clean(ns: seq<Adf>): seq<Adf>
    decreases ns
  {
    if ns == [] then []
    else
      var head := match ns[0]
                  case Text(t) => if t == "" then [] else [ns[0]]
                  case Node(kind, content) => [Node(kind, Clean(content))];
      head + Clean(ns[1..])
  }

  lemma TagRoundTrip(k: Kind)
    requires KnownKind(k)
    ensures KindOf(TagOf(k)) == Some(k)
    ensures |TagOf(k)| > 0 && TagOf(k)[0] != '/' && '>' !in TagOf(k)
  {
    if k.Heading? {
      assert TagOf(k) == "h" + Decimal(k.level) && Decimal(k.level) == [] + ["0123456789"[k.level]];
    }
  }

  lemma {:induction false} IndexOfAt(a: string, c: char, b: string)
    requires c !in a && (b == "" || b[0] == c)
    ensures IndexOf(a + b, c) == |a|
  {
    if a == "" {
      assert a + b == b;
    } else {
      assert (a + b)[1..] == a[1..] + b;
      IndexOfAt(a[1..], c, b);
    }
  }

  lemma ParseText(t: string, tail: string)
    requires t != "" && (tail == "" || tail[0] == '<')
    ensures ParseNodes(Escape(t) + tail)
            == match ParseNodes(tail) case Some(r) => Some(([Text(t)] + r.0, r.1)) case None => None
  {
    var e := Escape(t);
    var s := e + tail;
    EscapeIsSafe(t);
    EscapeRoundTrip(t);
    IndexOfAt(e, '<', tail);
    assert s[0] == e[0] && e[0] in e;
    assert s[..|e|] == e && s[|e|..] == tail;
  }

  /** Reading an opening tag. */
  lemma ReadTag(tag: string, body: string)
    requires |tag| > 0 && tag[0] != '/' && '>' !in tag
    ensures var s := "<" + tag + (">" + body);
            var end := IndexOf(s, '>');
            !AtClose(s) && s[0] == '<' && end < |s| && end >= 1 && s[1..end] == tag && s[end + 1..] == body
  {
    var open := "<" + tag;
    IndexOfAt(open, '>', ">" + body);
    assert (open + (">" + body))[1] == tag[0];
  }

  lemma ParseElement(kind: Kind, inner: string, children: seq<Adf>, tail: string)
    requires KnownKind(kind)
    requires ParseNodes(inner + ("</" + TagOf(kind) + ">" + tail)) == Some((children, "</" + TagOf(kind) + ">" + tail))
    ensures ParseNodes("<" + TagOf(kind) + (">" + (inner + ("</" + TagOf(kind) + ">" + tail))))
            == match ParseNodes(tail) case Some(r) => Some(([Node(kind, children)] + r.0, r.1)) case None => None
  {
    var tag := TagOf(kind);
    var close := "</" + tag + ">";
    TagRoundTrip(kind);
    ReadTag(tag, inner + (close + tail));
    assert (close + tail)[|close|..] == tail;
    assert close <= close + tail;
  }

  lemma StartsWithTag(ns: seq<Adf>, k: string)
    requires AtClose(k) && (ns == [] || ns[0].Node?)
    ensures var s := RenderAll(ns) + k; s == "" || s[0] == '<'
  {
    if ns == [] {
      assert RenderAll(ns) + k == k;
    } else {
      assert Render(ns[0])[0] == '<';
    }
  }

  lemma TextFirst(t: string, ns: seq<Adf>, k: string)
    requires ParseNodes(RenderAll(ns) + k) == Some((Clean(ns), k)) && AtClose(k) && (ns == [] || ns[0].Node?)
    ensures ParseNodes(Escape(t) + (RenderAll(ns) + k)) == Some((Clean([Text(t)] + ns), k))
  {
    assert ([Text(t)] + ns)[1..] == ns;
    if t == "" {
      EscapeIsCharwise("");
      assert "" + (RenderAll(ns) + k) == RenderAll(ns) + k;
      assert [] + Clean(ns) == Clean(ns);
    } else {
      StartsWithTag(ns, k);
      ParseText(t, RenderAll(ns) + k);
    }
  }

  lemma RenderShape(kind: Kind, content: seq<Adf>, tail: string)
    ensures Render(Node(kind, content)) + tail
            == "<" + TagOf(kind) + (">" + (RenderAll(content) + ("</" + TagOf(kind) + ">" + tail)))
    ensures AtClose("</" + TagOf(kind) + ">" + tail)
  {
    Regrouped("<", TagOf(kind), ">", RenderAll(content), "</", tail);
    var close := "</" + TagOf(kind) + ">" + tail;
    assert close[0] == '<' && close[1] == '/';
  }

  lemma Regrouped(a: string, b: string, c: string, d: string, e: string, f: string)
    ensures a + b + c + d + e + b + c + f == a + b + (c + (d + (e + b + c + f)))
  {
  }

  lemma ElementFirst(kind: Kind, content: seq<Adf>, ns: seq<Adf>, k: string)
    requires KnownKind(kind) && ParseNodes(RenderAll(ns) + k) == Some((Clean(ns), k))
    requires var rest := "</" + TagOf(kind) + ">" + (RenderAll(ns) + k);
             ParseNodes(RenderAll(content) + rest) == Some((Clean(content), rest))
    ensures ParseNodes(Render(Node(kind, content)) + (RenderAll(ns) + k))
        == Some((Clean([Node(kind, content)] + ns), k))
  {
    RenderShape(kind, content, RenderAll(ns) + k);
    ParseElement(kind, RenderAll(content), Clean(content), RenderAll(ns) + k);
    assert ([Node(kind, content)] + ns)[1..] == ns;
  }

  lemma RenderHead(ns: seq<Adf>, k: string)
    requires ns != []
    ensures RenderAll(ns) + k == Render(ns[0]) + (RenderAll(ns[1..]) + k)
  {
    Regroup(Render(ns[0]), RenderAll(ns[1..]), k);
  }

  /** Text nodes are separated by elements. */
  lemma PrintableTail(ns: seq<Adf>)
    requires PrintableAll(ns) && ns != []
    ensures Printable(ns[0]) && PrintableAll(ns[1..])
    ensures ns[0].Text? ==> ns[1..] == [] || ns[1..][0].Node?
    ensures ns[0].Node? ==> KnownKind(ns[0].kind) && PrintableAll(ns[0].content)
  {
  }

  lemma {:induction false} NodesRoundTrip(ns: seq<Adf>, k: string)
    requires PrintableAll(ns) && AtClose(k)
    ensures ParseNodes(RenderAll(ns) + k) == Some((Clean(ns), k))
    decreases ns
  {
    if ns == [] {
      assert RenderAll(ns) + k == k;
    } else {
      var rest := ns[1..];
      PrintableTail(ns);
      RenderHead(ns, k);
      assert [ns[0]] + rest == ns;
      NodesRoundTrip(rest, k);
      match ns[0] {
        case Text(t) => TextFirst(t, rest, k);
        case Node(kind, content) =>
          RenderShape(kind, content, RenderAll(rest) + k);
          NodesRoundTrip(content, "</" + TagOf(kind) + ">" + (RenderAll(rest) + k));
          ElementFirst(kind, content, rest, k);
      }
    }
  }

  /** Rendering an element and parsing the result gives the element back, less its empty text nodes. */
  lemma DocumentRoundTrip(n: Adf)
    requires Printable(n) && n.Node?
    ensures ParseDocument(Render(n)) == Some(Node(n.kind, Clean(n.content)))
  {
    assert RenderAll([n]) + "" == Render(n) by {
      assert [n][1..] == [];
    }
    NodesRoundTrip([n], "");
    assert Clean([n]) == [Node(n.kind, Clean(n.content))] + Clean([]);
  }

  // ---------------------------------------------------------------- documents made from Markdown

  lemma {:induction false} PrintableByElements(ns: seq<Adf>)
    requires forall i | 0 <= i < |ns| :: ns[i].Node? && Printable(ns[i])
    ensures PrintableAll(ns)
  {
    if ns != [] {
      PrintableByElements(ns[1..]);
    }
  }

  lemma OneIsPrintable(n: Adf)
    requires Printable(n)
    ensures PrintableAll([n])
  {
    var ns := [n];
    assert ns[1..] == [];
    assert PrintableAll(ns[1..]);
  }

  lemma NormalIsPrintable(b: Adf)
    requires NormalBlock(b)
    ensures Printable(b)
  {
    if IsList(b) {
      forall i | 0 <= i < |b.content| ensures b.content[i].Node? && Printable(b.content[i]) {
        assert NormalItem(b.content[i]);
        var t :| OneLine(t) && b.content[i] == Item(t);
        OneIsPrintable(Text(t));
        OneIsPrintable(ParagraphBlock(t));
      }
      PrintableByElements(b.content);
    } else {
      assert b.content[1..] == [];
    }
  }

  lemma MarkdownIsPrintable(lines: seq<string>)
    requires OneLines(lines)
    ensures Printable(Document(Blocks(lines)))
  {
    var blocks := Blocks(lines);
    ParsedIsNormal(lines);
    forall i | 0 <= i < |blocks| ensures blocks[i].Node? && Printable(blocks[i]) {
      assert NormalBlock(blocks[i]);
      NormalIsPrintable(blocks[i]);
    }
    PrintableByElements(blocks);
    assert Printable(Node(Paragraph, []));
  }

  /** markdown_to_storage, for the lines of any document. */
  function MarkdownToStorage(lines: seq<string>): string {
    Render(Document(Blocks(lines)))
  }

  /** The storage XML of every Markdown document is balanced and gives its ADF tree back, less empty text nodes. */
  lemma MarkdownStorageRoundTrip(lines: seq<string>)
    requires OneLines(lines)
    ensures ParseDocument(MarkdownToStorage(lines)) == Some(Node(Doc, Clean(Document(Blocks(lines)).content)))
  {
    MarkdownIsPrintable(lines);
    DocumentRoundTrip(Document(Blocks(lines)));
  }
}
