/** The writer that turns a parsed XHTML fragment into plain text. Its words are exactly the words of
    the visible text. */
module XhtmlText {
  import opened Text

  datatype Attr = Attr(key: string, val: string)

  /** Comments and other nodes are skipped. */
  datatype Node = TextNode(data: string) | Element(name: string, attrs: seq<Attr>, children: seq<Node>) | Skipped

  // ----- words

  /** How far a reader of words has come: the words that ended and the one that may still grow. */
  datatype Scan = Scan(ended: seq<string>, word: string) {
    function Close(): Scan {
      if word == "" then this else Scan(ended + [word], "")
    }

    function Step(c: char): Scan {
      if IsSpace(c) then Close() else Scan(ended, word + [c])
    }
  }

  const START := Scan([], "")

  function Run(st: Scan, s: string): Scan
    decreases |s|
  {
    if s == "" then st else Run(st.Step(s[0]), s[1..])
  }

  /** The maximal runs of characters that are not white space. */
  function Words(s: string): seq<string> {
    Run(START, s).Close().ended
  }

  lemma {:induction false} RunAppend(st: Scan, a: string, b: string)
    ensures Run(st, a + b) == Run(Run(st, a), b)
    decreases |a|
  {
    if a == "" {
      assert a + b == b;
    } else {
      assert (a + b)[1..] == a[1..] + b;
      RunAppend(st.Step(a[0]), a[1..], b);
    }
  }

  lemma RunChar(st: Scan, c: char)
    ensures Run(st, [c]) == st.Step(c)
  {
    assert [c][1..] == "";
  }

  lemma RunSnoc(st: Scan, s: string, c: char)
    ensures Run(st, s + [c]) == Run(st, s).Step(c)
  {
    RunAppend(st, s, [c]);
    RunChar(Run(st, s), c);
  }

  lemma {:induction false} RunBlank(st: Scan, s: string)
    requires st.word == "" && forall i :: 0 <= i < |s| ==> IsSpace(s[i])
    ensures Run(st, s) == st
    decreases |s|
  {
    if s != "" {
      assert IsSpace(s[0]);
      RunBlank(st, s[1..]);
    }
  }

  // ----- the visible text

  function WithoutNbsp(s: string): string {
    seq(|s|, i requires 0 <= i < |s| => if s[i] == '\U{A0}' then ' ' else s[i])
  }

  /** What a piece of text shows: html.UnescapeString, with plain spaces. */
  function Piece(unescape: string -> string, s: string): string {
    if s == "" then "" else WithoutNbsp(unescape(s))
  }

  function Attribute(attrs: seq<Attr>, key: string): string {
    if attrs == [] then ""
    else if EqualFold(attrs[0].key, key) then TrimSpace(attrs[0].val)
    else Attribute(attrs[1..], key)
  }

  const BLOCK_TAGS := {
    "p", "div", "section", "article", "header", "footer",
    "h1", "h2", "h3", "h4", "h5", "h6",
    "pre", "blockquote",
    "table", "thead", "tbody", "tfoot", "tr", "th", "td",
    "ac:structured-macro", "ac:rich-text-body", "ac:plain-text-body"}

  function TagOf(name: string): string {
    ToLower(TrimSpace(name))
  }

  function TargetKey(tag: string): string {
    if tag == "ri:url" then "ri:value"
    else if tag == "ri:page" then "ri:content-title"
    else if tag == "ri:attachment" then "ri:filename"
    else ""
  }

  function Target(tag: string, attrs: seq<Attr>): string {
    if TargetKey(tag) == "" then "" else Attribute(attrs, TargetKey(tag))
  }

  function Href(tag: string, attrs: seq<Attr>, links: bool): string {
    if tag == "a" && links && Attribute(attrs, "href") != "" then " (" + Attribute(attrs, "href") + ")" else ""
  }

  /** The text of an element around the text of its children. */
  function Rendered(unescape: string -> string, links: bool, tag: string, attrs: seq<Attr>, inner: string): string {
    if tag == "br" then "\n"
    else if tag == "ul" || tag == "ol" then inner + "\n"
    else if tag == "li" then "\n" + "- " + inner + "\n"
    else Edge(tag) + Piece(unescape, Target(tag, attrs)) + inner + Piece(unescape, Href(tag, attrs, links)) + Edge(tag)
  }

  function Edge(tag: string): string {
    if tag in BLOCK_TAGS then "\n" else ""
  }

  /** What a reader makes of an element behind its first line end. */
  function Inside(unescape: string -> string, links: bool, tag: string, attrs: seq<Attr>, inner: string, st: Scan)
    : Scan
  {
    if tag in {"ul", "ol", "li"} then Run(st, Rendered(unescape, links, tag, attrs, inner))
    else
      Run(Run(Run(Run(st, Piece(unescape, Target(tag, attrs))), inner), Piece(unescape, Href(tag, attrs, links))),
          Edge(tag))
  }

  lemma InsideIsRendered(unescape: string -> string, links: bool, tag: string, attrs: seq<Attr>, inner: string,
                         st: Scan)
    requires tag != "br"
    ensures Inside(unescape, links, tag, attrs, inner, Run(st, Edge(tag))) ==
            Run(st, Rendered(unescape, links, tag, attrs, inner))
  {
    var e := Edge(tag);
    var a, z := Piece(unescape, Target(tag, attrs)), Piece(unescape, Href(tag, attrs, links));
    RunAppend(st, e, a);
    RunAppend(st, e + a, inner);
    RunAppend(st, e + a + inner, z);
    RunAppend(st, e + a + inner + z, e);
  }

  /** The visible text of a node: its text nodes in order, with line ends for breaks and blocks,
      bullets, link targets and, when they are preserved, hrefs. */
  function Visible(unescape: string -> string, links: bool, n: Node): string
    decreases n
  {
    match n
    case TextNode(data) => Piece(unescape, data)
    case Skipped => ""
    case Element(name, attrs, children) =>
      Rendered(unescape, links, TagOf(name), attrs, VisibleAll(unescape, links, children, |children|))
  }

  function VisibleAll(unescape: string -> string, links: bool, ns: seq<Node>, k: nat): string
    requires k <= |ns|
    decreases ns, k
  {
    if k == 0 then "" else VisibleAll(unescape, links, ns, k - 1) + Visible(unescape, links, ns[k - 1])
  }

  /** a is b without some of its characters. */
  predicate Within(a: string, b: string)
    decreases |b|
  {
    a == "" || (b != "" && (if a[0] == b[0] then Within(a[1..], b[1..]) else Within(a, b[1..])))
  }

  lemma {:induction false} WithinTail(a: string, b: string)
    requires a != "" && Within(a, b)
    ensures Within(a[1..], b)
    decreases |b|, 0
  {
    if a[0] != b[0] { WithinTail(a, b[1..]); }
    WithinMore(a[1..], b[0], b[1..]);
    assert b == [b[0]] + b[1..];
  }

  lemma {:induction false} WithinMore(a: string, c: char, b: string)
    requires Within(a, b)
    ensures Within(a, [c] + b)
    decreases |b|, 1
  {
    assert ([c] + b)[1..] == b;
    if a != "" && a[0] == c { WithinTail(a, b); }
  }

  lemma {:induction false} WithinBehind(a: string, more: string, b: string)
    requires Within(a, b)
    ensures Within(a, more + b)
    decreases |more|
  {
    if more == "" {
      assert more + b == b;
    } else {
      WithinBehind(a, more[1..], b);
      WithinMore(a, more[0], more[1..] + b);
      assert more + b == [more[0]] + (more[1..] + b);
    }
  }

  lemma {:induction false} WithinTogether(a: string, b: string, c: string, d: string)
    requires Within(a, b) && Within(c, d)
    ensures Within(a + c, b + d)
    decreases |b|
  {
    if a == "" {
      assert a + c == c;
      WithinBehind(c, b, d);
    } else {
      assert (b + d)[1..] == b[1..] + d && (a + c)[1..] == a[1..] + c;
      if a[0] == b[0] { WithinTogether(a[1..], b[1..], c, d); } else { WithinTogether(a, b[1..], c, d); }
    }
  }

  /** The text nodes of a tree, without what stands inside a line break. */
  function TextOf(unescape: string -> string, n: Node): string
    decreases n
  {
    match n
    case TextNode(data) => Piece(unescape, data)
    case Skipped => ""
    case Element(name, _, children) =>
      if TagOf(name) == "br" then "" else TextOfAll(unescape, children, |children|)
  }

  function TextOfAll(unescape: string -> string, ns: seq<Node>, k: nat): string
    requires k <= |ns|
    decreases ns, k
  {
    if k == 0 then "" else TextOfAll(unescape, ns, k - 1) + TextOf(unescape, ns[k - 1])
  }

  lemma {:induction false} WithinItself(a: string)
    ensures Within(a, a)
    decreases |a|
  {
    if a != "" { WithinItself(a[1..]); }
  }

  lemma WithinBetween(text: string, before: string, inner: string, after: string)
    requires Within(text, inner)
    ensures Within(text, before + inner + after)
  {
    WithinBehind(text, before, inner);
    WithinTogether(text, before + inner, "", after);
    assert text + "" == text;
  }

  lemma RenderedHolds(unescape: string -> string, links: bool, tag: string, attrs: seq<Attr>, inner: string,
                      text: string)
    requires tag != "br" && Within(text, inner)
    ensures Within(text, Rendered(unescape, links, tag, attrs, inner))
  {
    if tag == "ul" || tag == "ol" {
      WithinBetween(text, "", inner, "\n");
      assert "" + inner + "\n" == inner + "\n";
    } else if tag == "li" {
      WithinBetween(text, "\n" + "- ", inner, "\n");
    } else {
      var e, target, href := Edge(tag), Piece(unescape, Target(tag, attrs)), Piece(unescape, Href(tag, attrs, links));
      WithinBetween(text, e + target, inner, href);
      WithinBetween(text, "", e + target + inner + href, e);
      assert "" + (e + target + inner + href) + e == e + target + inner + href + e;
    }
  }

  /** No text node is lost or moved: their text, in document order, stands in the visible text. */
  lemma {:induction false} VisibleHoldsText(unescape: string -> string, links: bool, n: Node)
    ensures Within(TextOf(unescape, n), Visible(unescape, links, n))
    decreases n, 0
  {
    match n {
      case TextNode(data) => WithinItself(Piece(unescape, data));
      case Skipped =>
      case Element(name, attrs, children) =>
        if TagOf(name) != "br" {
          VisibleAllHoldsText(unescape, links, children, |children|);
          RenderedHolds(unescape, links, TagOf(name), attrs, VisibleAll(unescape, links, children, |children|),
                        TextOfAll(unescape, children, |children|));
        }
    }
  }

  lemma {:induction false} VisibleAllHoldsText(unescape: string -> string, links: bool, ns: seq<Node>, k: nat)
    requires k <= |ns|
    ensures Within(TextOfAll(unescape, ns, k), VisibleAll(unescape, links, ns, k))
    decreases ns, k
  {
    if k > 0 {
      VisibleAllHoldsText(unescape, links, ns, k - 1);
      VisibleHoldsText(unescape, links, ns[k - 1]);
      WithinTogether(TextOfAll(unescape, ns, k - 1), VisibleAll(unescape, links, ns, k - 1),
                     TextOf(unescape, ns[k - 1]), Visible(unescape, links, ns[k - 1]));
    }
  }

  /** Blocks stand on lines of their own, items begin with a bullet, breaks and lists end a line, and all other
      elements without attributes show nothing but their children. */
  lemma TagsShow(unescape: string -> string, links: bool, name: string, children: seq<Node>)
    ensures var tag, v := TagOf(name), Visible(unescape, links, Element(name, [], children));
            var inner := VisibleAll(unescape, links, children, |children|);
            if tag in {"p", "div", "section", "article", "header", "footer", "h1", "h2", "h3", "h4", "h5", "h6", "pre",
                       "blockquote", "table", "thead", "tbody", "tfoot", "tr", "th", "td", "ac:structured-macro",
                       "ac:rich-text-body", "ac:plain-text-body"} then v == "\n" + inner + "\n"
            else if tag == "br" then v == "\n"
            else if tag == "ul" || tag == "ol" then v == inner + "\n"
            else if tag == "li" then v == "\n- " + inner + "\n"
            else v == inner
  {
    var inner, e := VisibleAll(unescape, links, children, |children|), Edge(TagOf(name));
    assert "\n" + "- " == "\n- ";
    NoAttributes(unescape, links, TagOf(name));
    assert e + "" + inner + "" + e == e + inner + e;
    assert "" + inner + "" == inner;
  }

  lemma NoAttributes(unescape: string -> string, links: bool, tag: string)
    ensures Piece(unescape, Target(tag, [])) == "" && Piece(unescape, Href(tag, [], links)) == ""
  {
  }

  lemma TagIs(tag: string)
    requires tag in {"a", "ri:url", "ri:page", "ri:attachment"}
    ensures TagOf(tag) == tag && tag !in BLOCK_TAGS
  {
    TrimSpaceOfTrimmed(tag);
    assert ToLower(tag) == tag;
  }

  lemma OneAttribute(key: string, u: string)
    requires Trimmed(u)
    ensures Attribute([Attr(key, u)], key) == u
  {
    TrimSpaceOfTrimmed(u);
  }

  /** A link shows its target behind its text when links are preserved. */
  lemma LinkShows(unescape: string -> string, links: bool, u: string, children: seq<Node>)
    requires u != "" && Trimmed(u)
    ensures Visible(unescape, links, Element("a", [Attr("href", u)], children)) ==
            VisibleAll(unescape, links, children, |children|)
            + if links then WithoutNbsp(unescape(" (" + u + ")")) else ""
  {
    TagIs("a");
    OneAttribute("href", u);
    var inner := VisibleAll(unescape, links, children, |children|);
    assert "" + "" + inner == inner && inner + "" == inner;
  }

  /** A reference of the storage format shows what it refers to. */
  lemma ReferenceShows(unescape: string -> string, links: bool, tag: string, key: string, u: string)
    requires u != "" && Trimmed(u)
    requires (tag, key) in {("ri:url", "ri:value"), ("ri:page", "ri:content-title"), ("ri:attachment", "ri:filename")}
    ensures Visible(unescape, links, Element(tag, [Attr(key, u)], [])) == WithoutNbsp(unescape(u))
  {
    TagIs(tag);
    OneAttribute(key, u);
    var piece := WithoutNbsp(unescape(u));
    assert "" + piece + "" + "" + "" == piece;
  }

  // ----- the writer

  function CountTrailingNewlines(s: string): nat {
    if s != "" && s[|s| - 1] == '\n' then 1 + CountTrailingNewlines(s[..|s| - 1]) else 0
  }

  function Spaces(n: nat): (s: string)
    ensures forall i :: 0 <= i < |s| ==> s[i] == ' '
  {
    if n == 0 then "" else Spaces(n - 1) + "  "
  }

  lemma {:induction false} RunEndsClosed(st: Scan, s: string)
    requires CountTrailingNewlines(s) > 0
    ensures Run(st, s).word == ""
  {
    RunSnoc(st, s[..|s| - 1], '\n');
    assert s == s[..|s| - 1] + ['\n'];
  }

  function Breaks(n: nat): string {
    seq(n, _ => '\n')
  }

  lemma BreaksSnoc(s: string, n: nat)
    ensures s + Breaks(n) + "\n" == s + Breaks(n + 1)
  {
    assert Breaks(n) + "\n" == Breaks(n + 1);
  }

  // ----- flowing and preformatted text

  /** Flowing text as it is written: white space is only remembered, and becomes one space before the
      next character unless that is the first on its line. */
  datatype Flow = Flow(out: string, pending: bool, lineStart: bool) {
    function Step(c: char): Flow {
      if IsSpace(c) then Flow(out, true, lineStart)
      else Flow(out + (if pending && !lineStart then " " else "") + [c], false, false)
    }
  }

  function Flowing(f: Flow, s: string): Flow
    decreases |s|
  {
    if s == "" then f else Flowing(f.Step(s[0]), s[1..])
  }

  function Spaced(words: seq<string>): string {
    Join(words, ' ')
  }

  lemma {:induction false} SpacedSnoc(words: seq<string>, w: string)
    ensures Spaced(words + [w]) == if words == [] then w else Spaced(words) + " " + w
  {
    if |words| == 1 {
      assert (words + [w])[1..] == [w] && Spaced([w]) == w;
    } else if words != [] {
      assert (words + [w])[1..] == words[1..] + [w];
      SpacedSnoc(words[1..], w);
    }
  }

  /** How what is written and a reader of the text stand to one another. */
  predicate InStep(f: Flow, st: Scan) {
    && f.out == Spaced(st.Close().ended)
    && (f.lineStart <==> st == START)
    && (st != START ==> (f.pending <==> st.word == ""))
  }

  lemma StepsInStep(f: Flow, st: Scan, c: char)
    requires InStep(f, st)
    ensures InStep(f.Step(c), st.Step(c))
  {
    if !IsSpace(c) {
      SpacedSnoc(st.ended, st.word + [c]);
      SpacedSnoc(st.ended, st.word);
    }
  }

  lemma {:induction false} FlowingInStep(f: Flow, st: Scan, s: string)
    requires InStep(f, st)
    ensures InStep(Flowing(f, s), Run(st, s))
    decreases |s|
  {
    if s != "" {
      StepsInStep(f, st, s[0]);
      FlowingInStep(f.Step(s[0]), st.Step(s[0]), s[1..]);
    }
  }

  /** At the beginning of a line, flowing text is written as its words with single spaces between them. */
  lemma FlowingIsWords(s: string, pending: bool)
    ensures Flowing(Flow("", pending, true), s).out == Spaced(Words(s))
  {
    FlowingInStep(Flow("", pending, true), START, s);
  }

  /** Text inside these elements is preformatted. */
  predicate Preformats(tag: string, inPre: bool) {
    inPre || tag in {"pre", "code"} || Contains(tag, "plain-text-body")
  }

  /** The preformatted pieces of text of a node, at any depth and in their order. */
  function Preformatted(unescape: string -> string, n: Node, inPre: bool): seq<string>
    decreases n
  {
    match n
    case TextNode(data) => if inPre then [Piece(unescape, data)] else []
    case Skipped => []
    case Element(name, attrs, children) =>
      if TagOf(name) == "br" then []
      else PreformattedAll(unescape, children, |children|, Preformats(TagOf(name), inPre))
  }

  function PreformattedAll(unescape: string -> string, ns: seq<Node>, k: nat, inPre: bool): seq<string>
    requires k <= |ns|
    decreases ns, k
  {
    if k == 0 then [] else PreformattedAll(unescape, ns, k - 1, inPre) + Preformatted(unescape, ns[k - 1], inPre)
  }

  predicate StandsAt(text: string, s: string, k: nat) {
    k + |text| <= |s| && s[k..k + |text|] == text
  }

  /** The texts stand in s from place i on, each as it is and behind the one before. */
  predicate StandFrom(texts: seq<string>, s: string, i: nat) {
    if texts == [] then i <= |s|
    else exists k: nat :: i <= k <= |s| && StandsAt(texts[0], s, k) && StandFrom(texts[1..], s, k + |texts[0]|)
  }

  /** What has been written since is behind what was there, and the texts stand in it. */
  predicate Shows(before: string, after: string, texts: seq<string>) {
    before <= after && StandFrom(texts, after, |before|)
  }

  lemma ShowsOne(before: string, after: string, lead: string, text: string)
    requires after == before + lead + text
    ensures Shows(before, after, [text])
  {
    var texts, k := [text], |before| + |lead|;
    assert texts[1..] == [] && StandsAt(texts[0], after, k) && StandFrom(texts[1..], after, k + |text|);
  }

  lemma {:induction false} StandTogether(texts: seq<string>, more: seq<string>, s: string, t: string, i: nat)
    requires s <= t && StandFrom(texts, s, i) && StandFrom(more, t, |s|)
    ensures StandFrom(texts + more, t, i)
    decreases |texts|
  {
    if texts == [] {
      assert [] + more == more;
      StandEarlier(more, t, i, |s|);
    } else {
      var k: nat :| i <= k <= |s| && StandsAt(texts[0], s, k) && StandFrom(texts[1..], s, k + |texts[0]|);
      StandTogether(texts[1..], more, s, t, k + |texts[0]|);
      assert (texts + more)[1..] == texts[1..] + more;
      assert t[k..k + |texts[0]|] == s[k..k + |texts[0]|];
      assert StandsAt((texts + more)[0], t, k);
    }
  }

  lemma StandEarlier(texts: seq<string>, s: string, i: nat, j: nat)
    requires i <= j && StandFrom(texts, s, j)
    ensures StandFrom(texts, s, i)
  {
    if texts != [] {
      var k: nat :| j <= k <= |s| && StandsAt(texts[0], s, k) && StandFrom(texts[1..], s, k + |texts[0]|);
      assert i <= k;
    }
  }

  lemma ShowTogether(before: string, mid: string, after: string, texts: seq<string>, more: seq<string>)
    requires Shows(before, mid, texts) && Shows(mid, after, more)
    ensures Shows(before, after, texts + more)
  {
    StandTogether(texts, more, mid, after, |before|);
  }

  lemma ShowsMore(before: string, mid: string, after: string, more: string, texts: seq<string>)
    requires before <= mid && Shows(mid, after, texts) && after <= more
    ensures Shows(before, more, texts)
  {
    StandEarlier(texts, after, |before|, |mid|);
    StandTogether(texts, [], after, more, |before|);
    assert texts + [] == texts;
  }

  // ----- the final layout

  /** If a line ends before place k, it does not end in white space. */
  predicate TidyAt(s: string, k: int) {
    0 < k <= |s| && (k == |s| || s[k] == '\n') && s[k - 1] != '\n' ==> !IsSpace(s[k - 1])
  }

  predicate Tidy(s: string) {
    forall k :: 0 < k <= |s| ==> TidyAt(s, k)
  }

  predicate BreaksAtMost(s: string, max: nat) {
    forall k :: 0 <= k <= |s| ==> CountTrailingNewlines(s[..k]) <= max
  }

  lemma {:induction false} RunTrimRight(st: Scan, s: string)
    ensures Run(st, TrimRight(s)).Close() == Run(st, s).Close()
    decreases |s|
  {
    if s != "" && IsSpace(s[|s| - 1]) {
      RunTrimRight(st, s[..|s| - 1]);
      RunSnoc(st, s[..|s| - 1], s[|s| - 1]);
      assert s == s[..|s| - 1] + [s[|s| - 1]];
    }
  }

  function RightTrimmed(parts: seq<string>): seq<string> {
    seq(|parts|, i requires 0 <= i < |parts| => TrimRight(parts[i]))
  }

  /** Trimming the lines of a text does not change its words. */
  lemma {:induction false} RunTrimmedLines(st: Scan, parts: seq<string>)
    ensures Run(st, Join(RightTrimmed(parts), '\n')).Close() == Run(st, Join(parts, '\n')).Close()
    decreases |parts|
  {
    if |parts| == 1 {
      RunTrimRight(st, parts[0]);
    } else if parts != [] {
      var p, q := parts[0], TrimRight(parts[0]);
      assert RightTrimmed(parts)[1..] == RightTrimmed(parts[1..]);
      RunTrimRight(st, p);
      RunSnoc(st, p, '\n');
      RunSnoc(st, q, '\n');
      RunAppend(st, p + ['\n'], Join(parts[1..], '\n'));
      RunAppend(st, q + ['\n'], Join(RightTrimmed(parts[1..]), '\n'));
      RunTrimmedLines(Run(st, p + ['\n']), parts[1..]);
    }
  }

  lemma {:induction false} TrimRightFacts(s: string)
    ensures TrimRight(s) <= s && (TrimRight(s) == "" || !IsSpace(TrimRight(s)[|TrimRight(s)| - 1]))
    decreases |s|
  {
    if s != "" && IsSpace(s[|s| - 1]) { TrimRightFacts(s[..|s| - 1]); }
  }

  lemma TidyLineAhead(p: string, rest: string)
    requires '\n' !in p && (p == "" || !IsSpace(p[|p| - 1])) && Tidy(rest)
    ensures Tidy(p + ['\n'] + rest)
  {
    var s := p + ['\n'] + rest;
    forall k | 0 < k <= |s| ensures TidyAt(s, k) {
      if k < |p| {
        assert s[k] == p[k] && p[k] in p;
      } else if k > |p| + 1 {
        assert TidyAt(rest, k - |p| - 1);
      }
    }
  }

  lemma {:induction false} TrimmedLinesAreTidy(parts: seq<string>)
    requires forall p :: p in parts ==> '\n' !in p
    ensures Tidy(Join(RightTrimmed(parts), '\n'))
    decreases |parts|
  {
    if parts != [] {
      TrimRightFacts(parts[0]);
      var p := TrimRight(parts[0]);
      assert p == parts[0][..|p|];
      assert forall c :: c in p ==> c in parts[0];
      if |parts| == 1 {
        forall k | 0 < k <= |p| ensures TidyAt(p, k) {
          if k < |p| { assert p[k] in p; }
        }
      } else {
        assert RightTrimmed(parts)[1..] == RightTrimmed(parts[1..]);
        TrimmedLinesAreTidy(parts[1..]);
        TidyLineAhead(p, Join(RightTrimmed(parts[1..]), '\n'));
      }
    }
  }

  /** Every line end that already has `max` line ends straight before it is dropped. */
  function Collapsed(s: string, max: nat): string {
    if s == "" then ""
    else
      var p, c := s[..|s| - 1], s[|s| - 1];
      if c == '\n' && CountTrailingNewlines(p) >= max then Collapsed(p, max) else Collapsed(p, max) + [c]
  }

  method CollapseBlankLines(s: string, max: int) returns (out: string)
    ensures out == Collapsed(s, if max < 1 then 2 else max + 1)
  {
    var maxNewlines := if max < 1 then 2 else max + 1;
    var nl := 0;
    out := "";
    for i := 0 to |s|
      invariant nl == CountTrailingNewlines(s[..i]) && out == Collapsed(s[..i], maxNewlines)
    {
      assert s[..i + 1][..i] == s[..i];
      if s[i] == '\n' {
        nl := nl + 1;
        if nl > maxNewlines { continue; }
        out := out + [s[i]];
        continue;
      }
      nl := 0;
      out := out + [s[i]];
    }
    assert s[..|s|] == s;
  }

  lemma SnocBreaks(s: string, c: char)
    ensures CountTrailingNewlines(s + [c]) == if c == '\n' then CountTrailingNewlines(s) + 1 else 0
  {
    assert (s + [c])[..|s|] == s;
  }

  lemma BreaksAtMostSnoc(s: string, c: char, max: nat)
    requires BreaksAtMost(s, max) && CountTrailingNewlines(s + [c]) <= max
    ensures BreaksAtMost(s + [c], max)
  {
    forall k | 0 <= k <= |s| + 1 ensures CountTrailingNewlines((s + [c])[..k]) <= max {
      if k <= |s| { assert (s + [c])[..k] == s[..k]; } else { assert (s + [c])[..k] == s + [c]; }
    }
  }

  lemma {:induction false} CollapsedBreaks(s: string, max: nat)
    ensures BreaksAtMost(Collapsed(s, max), max)
    ensures CountTrailingNewlines(Collapsed(s, max)) ==
            if CountTrailingNewlines(s) < max then CountTrailingNewlines(s) else max
    decreases |s|
  {
    if s != "" {
      var p, c := s[..|s| - 1], s[|s| - 1];
      CollapsedBreaks(p, max);
      SnocBreaks(Collapsed(p, max), c);
      if !(c == '\n' && CountTrailingNewlines(p) >= max) { BreaksAtMostSnoc(Collapsed(p, max), c, max); }
    }
  }

  lemma {:induction false} CollapsedWords(s: string, max: nat)
    requires max > 0
    ensures Run(START, Collapsed(s, max)) == Run(START, s)
    decreases |s|
  {
    if s != "" {
      var p, c := s[..|s| - 1], s[|s| - 1];
      assert s == p + [c];
      CollapsedWords(p, max);
      RunSnoc(START, p, c);
      RunSnoc(START, Collapsed(p, max), c);
      if c == '\n' && CountTrailingNewlines(p) >= max { RunEndsClosed(START, p); }
    }
  }

  /** Collapsing keeps the last character, so no line gets a new end. */
  lemma {:induction false} CollapsedEnd(s: string, max: nat)
    requires max > 0 && s != ""
    ensures Collapsed(s, max) != "" && Collapsed(s, max)[|Collapsed(s, max)| - 1] == s[|s| - 1]
    decreases |s|
  {
    var p, c := s[..|s| - 1], s[|s| - 1];
    if c == '\n' && CountTrailingNewlines(p) >= max { CollapsedEnd(p, max); }
  }

  /** No line that has ended has white space before its end. */
  predicate TidySoFar(s: string) {
    forall k :: 0 < k < |s| ==> TidyAt(s, k)
  }

  lemma TidySoFarSnoc(s: string, c: char)
    requires TidySoFar(s) && (c == '\n' ==> TidyAt(s, |s|))
    ensures TidySoFar(s + [c])
  {
    forall k | 0 < k < |s| + 1 ensures TidyAt(s + [c], k) {
      assert k < |s| ==> TidyAt(s, k);
    }
  }

  lemma {:induction false} CollapsedTidySoFar(s: string, max: nat)
    requires max > 0 && TidySoFar(s)
    ensures TidySoFar(Collapsed(s, max))
    decreases |s|
  {
    if s != "" {
      var p, c := s[..|s| - 1], s[|s| - 1];
      forall k | 0 < k < |p| ensures TidyAt(p, k) { assert TidyAt(s, k); }
      CollapsedTidySoFar(p, max);
      if p != "" {
        CollapsedEnd(p, max);
        assert TidyAt(s, |p|);
      }
      if !(c == '\n' && CountTrailingNewlines(p) >= max) { TidySoFarSnoc(Collapsed(p, max), c); }
    }
  }

  lemma CollapsedTidy(s: string, max: nat)
    requires max > 0 && Tidy(s)
    ensures Tidy(Collapsed(s, max))
  {
    CollapsedTidySoFar(s, max);
    if s != "" {
      CollapsedEnd(s, max);
      assert TidyAt(s, |s|);
    }
  }

  /** Trimming the lines and collapsing the line ends keeps the words and leaves a tidy text. */
  lemma FinalLayout(s: string, joined: string)
    requires joined == Join(RightTrimmed(Split(s, '\n')), '\n')
    ensures var out := Collapsed(joined, 3);
            Words(out) == Run(START, s).Close().ended && Tidy(out) && BreaksAtMost(out, 3)
  {
    JoinSplit(s, '\n');
    RunTrimmedLines(START, Split(s, '\n'));
    CollapsedWords(joined, 3);
    CollapsedBreaks(joined, 3);
    TrimmedLinesAreTidy(Split(s, '\n'));
    CollapsedTidy(joined, 3);
  }

  class TextWriter {
    const unescape: string -> string
    const preserveLinks: bool
    var sb: string
    var listDepth: nat
    var needSpace: bool
    var lastNL: bool
    var trailingNL: nat
    ghost var told: Scan  // a reader of the visible text so far

    /** A reader of the text written so far. */
    ghost function Here(): Scan
      reads this
    {
      Run(START, sb)
    }

    /** The flags may be stale behind a bullet, but white space stands where they claim a line end. */
    ghost predicate Valid()
      reads this
    {
      && told == (if needSpace then Here().Close() else Here())
      && (lastNL || trailingNL > 0 ==> Here().word == "")
    }

    constructor (unescape: string -> string, preserveLinks: bool)
      ensures Valid() && sb == "" && told == START && listDepth == 0
      ensures this.unescape == unescape && this.preserveLinks == preserveLinks
    {
      this.unescape, this.preserveLinks := unescape, preserveLinks;
      sb, listDepth, needSpace, lastNL, trailingNL, told := "", 0, false, false, 0, START;
    }

    method Append(s: string)
      modifies `sb
      ensures sb == old(sb) + s && Here() == Run(old(Here()), s)
    {
      RunAppend(START, sb, s);
      sb := sb + s;
    }

    method WriteText(s: string, inPre: bool)
      requires Valid()
      modifies this
      ensures Valid() && told == Run(old(told), Piece(unescape, s)) && listDepth == old(listDepth)
      ensures s != "" ==>
                var text := WithoutNbsp(unescape(s));
                if inPre then sb == old(sb) + (if old(needSpace) then " " else "") + text && !needSpace
                else sb == old(sb) + Flowing(Flow("", old(needSpace), old(sb) == "" || old(lastNL)), text).out
      ensures s == "" ==> sb == old(sb) && needSpace == old(needSpace)
    {
      if s == "" {
        return;
      }
      var text := WithoutNbsp(unescape(s));
      if inPre {
        WriteRaw(text);
      } else {
        WriteFlowing(text);
      }
    }

    method WriteRaw(text: string)
      requires Valid()
      modifies this
      ensures Valid() && told == Run(old(told), text) && listDepth == old(listDepth)
      ensures sb == old(sb) + (if old(needSpace) then " " else "") + text && !needSpace
    {
      assert needSpace || sb + "" == sb;
      if needSpace {
        RunChar(Here(), ' ');
        Append(" ");
        trailingNL, lastNL := 0, false;
      }
      ghost var before := Here();
      Append(text);
      needSpace := false;
      lastNL := text != "" && text[|text| - 1] == '\n';
      trailingNL := CountTrailingNewlines(text);
      told := Run(told, text);
      if lastNL || trailingNL > 0 {
        RunEndsClosed(before, text);
      }
    }

    method WriteFlowing(text: string)
      requires Valid()
      modifies this
      ensures Valid() && told == Run(old(told), text) && listDepth == old(listDepth)
      ensures sb == old(sb) + Flowing(Flow("", old(needSpace), old(sb) == "" || old(lastNL)), text).out
    {
      ghost var f := Flow("", needSpace, sb == "" || lastNL);
      assert sb == sb + "";
      for i := 0 to |text|
        invariant Valid() && told == Run(old(told), text[..i]) && listDepth == old(listDepth)
        invariant f.pending == needSpace && f.lineStart == (sb == "" || lastNL) && sb == old(sb) + f.out
        invariant Flowing(f, text[i..]) == Flowing(Flow("", old(needSpace), old(sb) == "" || old(lastNL)), text)
      {
        assert text[i..][1..] == text[i + 1..];
        f := f.Step(text[i]);
        WriteChar(text[i]);
        RunSnoc(old(told), text[..i], text[i]);
        assert text[..i] + [text[i]] == text[..i + 1];
      }
      assert text[..|text|] == text;
    }

    method WriteChar(c: char)
      requires Valid()
      modifies this
      ensures Valid() && told == old(told).Step(c) && listDepth == old(listDepth)
      ensures if IsSpace(c) then sb == old(sb) && needSpace && lastNL == old(lastNL)
              else !needSpace && !lastNL && sb ==
                   old(sb) + (if old(needSpace) && old(sb) != "" && !old(lastNL) then " " else "") + [c]
    {
      assert sb == sb + "";
      told := told.Step(c);
      if IsSpace(c) {
        needSpace := true;
        return;
      }
      if needSpace && |sb| > 0 && !lastNL {
        RunChar(Here(), ' ');
        Append(" ");
      }
      needSpace, lastNL, trailingNL := false, false, 0;
      RunChar(Here(), c);
      Append([c]);
    }

    /** The bound of the loop moves with the counter, so only half of the missing line ends are
        written, rounded up. */
    method Newline(n: nat)
      requires Valid() && n > 0
      modifies this
      ensures Valid() && told == Run(old(told), "\n") && listDepth == old(listDepth)
      ensures !needSpace && Here().word == ""
      ensures sb == old(sb) + Breaks(if old(trailingNL) >= n then 0 else (n - old(trailingNL) + 1) / 2)
    {
      RunChar(told, '\n');
      told := told.Close();
      needSpace := false;
      if trailingNL >= n {
        lastNL := true;
        assert sb == sb + Breaks(0);
        return;
      }
      ghost var start := trailingNL;
      var i := 0;
      while i < n - trailingNL
        invariant trailingNL == start + i && listDepth == old(listDepth) && !needSpace
        invariant 2 * i <= n - start + 1 && sb == old(sb) + Breaks(i)
        invariant told == Run(old(told), "\n") == Here().Close() && (i > 0 ==> Here().word == "")
        decreases n - trailingNL - i
      {
        RunChar(Here(), '\n');
        BreaksSnoc(old(sb), i);
        Append("\n");
        trailingNL := trailingNL + 1;
        i := i + 1;
      }
      lastNL := true;
    }

    method Bullet()
      requires Valid() && !needSpace && Here().word == ""
      modifies this
      ensures Valid() && told == Run(old(told), "- ") && listDepth == old(listDepth)
      ensures sb == old(sb) + Spaces(if listDepth > 1 then listDepth - 1 else 0) + "- "
    {
      var indent := if listDepth > 1 then Spaces(listDepth - 1) else "";
      RunBlank(Here(), indent);
      Append(indent);
      Append("- ");
      told := Run(told, "- ");
      RunSnoc(Here(), "-", ' ');
      needSpace, lastNL := false, false;
      RunSnoc(old(told), "-", ' ');
      assert "-" + [' '] == "- ";
    }

    method Walk(n: Node, inPre: bool)
      requires Valid()
      modifies this
      ensures Shows(old(sb), sb, Preformatted(unescape, n, inPre))
      ensures Valid() && told == Run(old(told), Visible(unescape, preserveLinks, n)) && listDepth == old(listDepth)
      decreases n
    {
      match n {
        case TextNode(data) =>
          WriteText(data, inPre);
          if inPre { ShowsOne(old(sb), sb, if data != "" && old(needSpace) then " " else "", Piece(unescape, data)); }
        case Skipped =>
        case Element(name, attrs, children) => WalkElement(TagOf(name), attrs, children, inPre);
      }
    }

    method WalkAll(ns: seq<Node>, inPre: bool)
      requires Valid()
      modifies this
      ensures Valid() && listDepth == old(listDepth)
      ensures Shows(old(sb), sb, PreformattedAll(unescape, ns, |ns|, inPre))
      ensures told == Run(old(told), VisibleAll(unescape, preserveLinks, ns, |ns|))
      decreases ns, 0
    {
      for k := 0 to |ns|
        invariant Valid() && listDepth == old(listDepth)
        invariant Shows(old(sb), sb, PreformattedAll(unescape, ns, k, inPre))
        invariant told == Run(old(told), VisibleAll(unescape, preserveLinks, ns, k))
      {
        ghost var before := sb;
        Walk(ns[k], inPre);
        ghost var shown, more := PreformattedAll(unescape, ns, k, inPre), Preformatted(unescape, ns[k], inPre);
        ShowTogether(old(sb), before, sb, shown, more);
        RunAppend(old(told), VisibleAll(unescape, preserveLinks, ns, k), Visible(unescape, preserveLinks, ns[k]));
      }
    }

    method WalkElement(tag: string, attrs: seq<Attr>, children: seq<Node>, inPre: bool)
      requires Valid()
      modifies this
      ensures Valid() && listDepth == old(listDepth)
      ensures Shows(old(sb), sb, if tag == "br" then []
                                 else PreformattedAll(unescape, children, |children|, Preformats(tag, inPre)))
      ensures told == Run(old(told), Rendered(unescape, preserveLinks, tag, attrs,
                                              VisibleAll(unescape, preserveLinks, children, |children|)))
      decreases children, 3
    {
      if tag == "br" {
        Newline(1);
        return;
      }
      ghost var inner := VisibleAll(unescape, preserveLinks, children, |children|);
      if tag in BLOCK_TAGS { Newline(1); }
      assert told == Run(old(told), Edge(tag));
      ghost var mid := sb;
      WalkInside(tag, attrs, children, inPre);
      ShowsMore(old(sb), mid, sb, sb, PreformattedAll(unescape, children, |children|, Preformats(tag, inPre)));
      InsideIsRendered(unescape, preserveLinks, tag, attrs, inner, old(told));
    }

    method WalkInside(tag: string, attrs: seq<Attr>, children: seq<Node>, inPre: bool)
      requires Valid() && tag != "br"
      modifies this
      ensures Valid() && listDepth == old(listDepth)
      ensures Shows(old(sb), sb, PreformattedAll(unescape, children, |children|, Preformats(tag, inPre)))
      ensures told == Inside(unescape, preserveLinks, tag, attrs,
                             VisibleAll(unescape, preserveLinks, children, |children|), old(told))
      decreases children, 2
    {
      var nextInPre := inPre || tag == "pre" || tag == "code" || Contains(tag, "plain-text-body");
      if tag == "ul" || tag == "ol" {
        WalkList(children, nextInPre);
      } else if tag == "li" {
        WalkItem(children, nextInPre);
      } else {
        WalkContent(tag, attrs, children, inPre, nextInPre);
      }
    }

    method WalkContent(tag: string, attrs: seq<Attr>, children: seq<Node>, inPre: bool, nextInPre: bool)
      requires Valid()
      modifies this
      ensures Valid() && listDepth == old(listDepth)
      ensures Shows(old(sb), sb, PreformattedAll(unescape, children, |children|, nextInPre))
      ensures told == Run(Run(Run(Run(old(told), Piece(unescape, Target(tag, attrs))),
                                  VisibleAll(unescape, preserveLinks, children, |children|)),
                              Piece(unescape, Href(tag, attrs, preserveLinks))), Edge(tag))
      decreases children, 1
    {
      WriteText(Target(tag, attrs), inPre);
      ghost var mid := sb;
      WalkAll(children, nextInPre);
      ghost var after := sb;
      WriteText(Href(tag, attrs, preserveLinks), false);
      if tag in BLOCK_TAGS { Newline(2); }
      ShowsMore(old(sb), mid, after, sb, PreformattedAll(unescape, children, |children|, nextInPre));
    }

    method WalkList(children: seq<Node>, inPre: bool)
      requires Valid()
      modifies this
      ensures Valid() && listDepth == old(listDepth)
      ensures Shows(old(sb), sb, PreformattedAll(unescape, children, |children|, inPre))
      ensures told == Run(old(told), VisibleAll(unescape, preserveLinks, children, |children|) + "\n")
      decreases children, 1
    {
      listDepth := listDepth + 1;
      WalkAll(children, inPre);
      ghost var after := sb;
      if listDepth > 0 { listDepth := listDepth - 1; }
      Newline(1);
      ShowsMore(old(sb), old(sb), after, sb, PreformattedAll(unescape, children, |children|, inPre));
      RunAppend(old(told), VisibleAll(unescape, preserveLinks, children, |children|), "\n");
    }

    method WalkItem(children: seq<Node>, inPre: bool)
      requires Valid()
      modifies this
      ensures Valid() && listDepth == old(listDepth)
      ensures Shows(old(sb), sb, PreformattedAll(unescape, children, |children|, inPre))
      ensures told == Run(old(told), "\n" + "- " + VisibleAll(unescape, preserveLinks, children, |children|) + "\n")
      decreases children, 1
    {
      ghost var inner := VisibleAll(unescape, preserveLinks, children, |children|);
      Newline(1);
      Bullet();
      ghost var mid := sb;
      WalkAll(children, inPre);
      ghost var after := sb;
      Newline(1);
      ShowsMore(old(sb), mid, after, sb, PreformattedAll(unescape, children, |children|, inPre));
      RunAppend(old(told), "\n", "- ");
      RunAppend(old(told), "\n" + "- ", inner);
      RunAppend(old(told), "\n" + "- " + inner, "\n");
    }

    /** The text with its lines trimmed on the right and long runs of line ends cut. */
    method Finalize() returns (out: string)
      requires Valid()
      ensures Words(out) == told.Close().ended && Tidy(out) && BreaksAtMost(out, 3)
      ensures out == Collapsed(Join(RightTrimmed(Split(sb, '\n')), '\n'), 3)
    {
      var raw := Split(sb, '\n');
      var lines := raw;
      for i := 0 to |lines|
        invariant |lines| == |raw|
        invariant forall j :: 0 <= j < |raw| ==> lines[j] == if j < i then TrimRight(raw[j]) else raw[j]
      {
        lines := lines[i := TrimRight(lines[i])];
      }
      assert lines == RightTrimmed(raw);
      var joined := Join(lines, '\n');
      out := CollapseBlankLines(joined, 2);
      FinalLayout(sb, joined);
    }
  }

  // ----- the whole conversion

  lemma {:induction false} TrimLeftFacts(s: string)
    ensures |TrimLeft(s)| <= |s| && TrimLeft(s) == s[|s| - |TrimLeft(s)|..]
    ensures TrimLeft(s) != "" ==> !IsSpace(TrimLeft(s)[0])
    ensures Run(START, TrimLeft(s)) == Run(START, s)
    decreases |s|
  {
    if s != "" && IsSpace(s[0]) {
      TrimLeftFacts(s[1..]);
      assert s[1..][|s| - 1 - |TrimLeft(s)|..] == s[|s| - |TrimLeft(s)|..];
    }
  }

  lemma {:induction false} BreaksOfSuffix(s: string, i: nat)
    requires i <= |s|
    ensures CountTrailingNewlines(s[i..]) <= CountTrailingNewlines(s)
    decreases |s|
  {
    if i < |s| {
      assert s[..|s| - 1][i..] == s[i..][..|s[i..]| - 1];
      BreaksOfSuffix(s[..|s| - 1], i);
    }
  }

  /** A cut of a laid-out text, trimmed, is still laid out. */
  lemma TrimKeepsLayout(s: string, max: nat)
    requires TidySoFar(s) && BreaksAtMost(s, max)
    ensures var t := TrimSpace(s); Tidy(t) && BreaksAtMost(t, max) && Trimmed(t) && Words(t) == Words(s)
  {
    TrimLeftFacts(s);
    var u := TrimLeft(s);
    var t := TrimSpace(s);
    var d := |s| - |u|;
    TrimRightFacts(u);
    RunTrimRight(START, u);
    assert t == s[d..d + |t|];
    forall k | 0 < k <= |t| ensures TidyAt(t, k) {
      if k < |t| { assert TidyAt(s, d + k); }
    }
    forall k | 0 <= k <= |t| ensures CountTrailingNewlines(t[..k]) <= max {
      assert t[..k] == s[..d + k][d..];
      BreaksOfSuffix(s[..d + k], d);
    }
  }

  lemma CutKeepsLayout(s: string, n: nat, max: nat)
    requires n <= |s| && Tidy(s) && BreaksAtMost(s, max)
    ensures TidySoFar(s[..n]) && BreaksAtMost(s[..n], max)
  {
    forall k | 0 < k < n ensures TidyAt(s[..n], k) { assert TidyAt(s, k); }
    forall k | 0 <= k <= n ensures CountTrailingNewlines(s[..n][..k]) <= max { assert s[..n][..k] == s[..k]; }
  }

  method CutAndTrim(out: string, maxChars: nat) returns (text: string, truncated: bool)
    requires Tidy(out) && BreaksAtMost(out, 3)
    ensures truncated <==> 0 < maxChars < |out|
    ensures text == TrimSpace(if truncated then out[..maxChars] else out)
    ensures Tidy(text) && BreaksAtMost(text, 3) && Trimmed(text)
    ensures !truncated ==> Words(text) == Words(out)
  {
    if maxChars > 0 {
      if |out| > maxChars {
        CutKeepsLayout(out, maxChars, 3);
        TrimKeepsLayout(out[..maxChars], 3);
        return TrimSpace(out[..maxChars]), true;
      }
    }
    TrimKeepsLayout(out, 3);
    return TrimSpace(out), false;
  }

  /** The conversion of a parsed fragment. Nothing visible is lost or added unless the text is cut. */
  method ConvertNodes(unescape: string -> string, nodes: seq<Node>, preserveLinks: bool, maxChars: nat)
      returns (text: string, truncated: bool)
    ensures !truncated ==> Words(text) == Words(VisibleAll(unescape, preserveLinks, nodes, |nodes|))
    ensures Tidy(text) && BreaksAtMost(text, 3) && Trimmed(text)
    ensures maxChars == 0 ==> !truncated
  {
    var w := new TextWriter(unescape, preserveLinks);
    w.WalkAll(nodes, false);
    var out := w.Finalize();
    text, truncated := CutAndTrim(out, maxChars);
  }
}
