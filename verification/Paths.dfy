/** The path language of output shaping: dotted paths with array indices, and JSON pointers. */
module Paths {
  import opened Text

  datatype Seg = Field(name: string) | Index(i: int)

  type Path = seq<Seg>

  /** The first position of a character that ends a field of a dotted path. */
  function FieldEnd(p: string): (n: nat)
    ensures n <= |p| && (n < |p| ==> p[n] == '.' || p[n] == '[')
    ensures forall i :: 0 <= i < n ==> p[i] != '.' && p[i] != '['
  {
    if p == "" || p[0] == '.' || p[0] == '[' then 0 else 1 + FieldEnd(p[1..])
  }

  function IndexOf(p: string, c: char): (n: nat)
    ensures n <= |p| && (n < |p| ==> p[n] == c)
    ensures forall i :: 0 <= i < n ==> p[i] != c
  {
    if p == "" || p[0] == c then 0 else 1 + IndexOf(p[1..], c)
  }

  function AfterDot(p: string): string {
    if HasPrefix(p, ".") then p[1..] else p
  }

  function FieldSeg(field: string): Path {
    if field != "" && field != "." then [Field(field)] else []
  }

  function Prepend(pre: Path, rest: Option<Path>): Option<Path> {
    if rest.None? then None else Some(pre + rest.value)
  }

  /** One turn of the parser's loop: the segments found and the text left. */
  function ParseStep(p: string): (r: Option<(Path, string)>)
    requires p != ""
    ensures r.Some? ==> |r.value.1| < |p|
  {
    var n := FieldEnd(p);
    var pre, rest := FieldSeg(p[..n]), p[n..];
    if rest == "" then Some((pre, ""))
    else if rest[0] == '.' then Some((pre, rest[1..]))
    else
      var end := IndexOf(rest, ']');
      if end == |rest| then None
      else
        var idx := Atoi(rest[1..end]);
        if idx.None? || idx.value < 0 then None
        else Some((pre + [Index(idx.value)], AfterDot(rest[end + 1..])))
  }

  function ParseDotted(p: string): Option<Path>
    decreases |p|
  {
    if p == "" then Some([])
    else
      var step := ParseStep(p);
      if step.None? then None else Prepend(step.value.0, ParseDotted(step.value.1))
  }

  /** strings.ReplaceAll for a pattern of two characters. */
  function ReplaceAll(s: string, a: char, b: char, sub: char): string {
    if |s| < 2 then s
    else if s[0] == a && s[1] == b then [sub] + ReplaceAll(s[2..], a, b, sub)
    else [s[0]] + ReplaceAll(s[1..], a, b, sub)
  }

  function Unescape(part: string): string {
    ReplaceAll(ReplaceAll(part, '~', '1', '/'), '~', '0', '~')
  }

  function PointerSeg(part: string): Path {
    if part == "" then [] else if Atoi(part).Some? then [Index(Atoi(part).value)] else [Field(part)]
  }

  function ParsePointer(parts: seq<string>): Path {
    if parts == [] then [] else PointerSeg(Unescape(parts[0])) + ParsePointer(parts[1..])
  }

  /** The segments of a path; None is an error. Only a pointer may have no segments. */
  function Parse(path: string): Option<Path> {
    var p := TrimSpace(path);
    if p == "" then None
    else if p[0] == '/' then Some(ParsePointer(Split(p[1..], '/')))
    else if ParseDotted(p) == Some([]) then None
    else ParseDotted(p)
  }

  method ParseTurn(text: string) returns (r: Option<(Path, string)>)
    requires text != ""
    ensures r == ParseStep(text)
  {
    var p := text;
    var n := FieldEnd(p);
    var segs := FieldSeg(p[..n]);
    p := p[n..];
    if HasPrefix(p, ".") { return Some((segs, p[1..])); }
    if HasPrefix(p, "[") {
      var end := IndexOf(p, ']');
      if end == |p| { return None; }
      var idx := Atoi(p[1..end]);
      if idx.None? || idx.value < 0 { return None; }
      return Some((segs + [Index(idx.value)], AfterDot(p[end + 1..])));
    }
    r := Some((segs, p));
  }

  method ParsePointerParts(parts: seq<string>) returns (out: Path)
    ensures out == ParsePointer(parts)
  {
    out := [];
    for k := 0 to |parts|
      invariant ParsePointer(parts) == out + ParsePointer(parts[k..])
    {
      assert parts[k..][1..] == parts[k + 1..];
      AppendAssociates(out, PointerSeg(Unescape(parts[k])), ParsePointer(parts[k + 1..]));
      out := out + PointerSeg(Unescape(parts[k]));
    }
  }

  /** The loop over a dotted path; it terminates as every turn consumes some of the text. */
  method ParseDottedText(text: string) returns (segs: Option<Path>)
    ensures segs == ParseDotted(text)
  {
    var out: Path, p := [], text;
    assert Prepend([], ParseDotted(text)) == ParseDotted(text) by {
      if ParseDotted(text).Some? { assert [] + ParseDotted(text).value == ParseDotted(text).value; }
    }
    while |p| > 0
      invariant ParseDotted(text) == Prepend(out, ParseDotted(p))
      decreases |p|
    {
      var step := ParseTurn(p);
      if step.None? { return None; }
      PrependAssociates(out, step.value.0, ParseDotted(step.value.1));
      out, p := out + step.value.0, step.value.1;
    }
    assert out + [] == out;
    segs := Some(out);
  }

  method ParsePath(path: string) returns (segs: Option<Path>)
    ensures segs == Parse(path)
  {
    var p := TrimSpace(path);
    if p == "" { return None; }
    if HasPrefix(p, "/") {
      var out := ParsePointerParts(Split(p[1..], '/'));
      return Some(out);
    }
    segs := ParseDottedText(p);
    if segs == Some([]) { return None; }
  }

  lemma PrependAssociates(a: Path, b: Path, rest: Option<Path>)
    ensures Prepend(a, Prepend(b, rest)) == Prepend(a + b, rest)
  {
    if rest.Some? { AppendAssociates(a, b, rest.value); }
  }

  // ----- the parser inverts the printers

  function PrintDotted(path: Path): string
    decreases |path|, 0
  {
    if path == [] then ""
    else (if path[0].Field? then path[0].name else "[" + Itoa(path[0].i) + "]") + PrintTail(path[1..])
  }

  /** The rest of a path after a segment: a dot stands before a field, nothing before an index. */
  function PrintTail(path: Path): string
    decreases |path|, 1
  {
    if path == [] then "" else (if path[0].Field? then "." else "") + PrintDotted(path)
  }

  predicate Dottable(seg: Seg) {
    match seg
    case Field(f) => f != "" && '.' !in f && '[' !in f
    case Index(i) => 0 <= i <= MAX_INT
  }

  lemma FieldEndOf(f: string, rest: string)
    requires '.' !in f && '[' !in f && (rest == "" || rest[0] == '.' || rest[0] == '[')
    ensures FieldEnd(f + rest) == |f|
  {
    if f == "" {
      assert f + rest == rest;
    } else {
      assert (f + rest)[1..] == f[1..] + rest;
      FieldEndOf(f[1..], rest);
    }
  }

  lemma IndexOfAfter(s: string, c: char, rest: string)
    requires c !in s
    ensures IndexOf(s + [c] + rest, c) == |s|
  {
    if s == "" {
      assert s + [c] + rest == [c] + rest;
    } else {
      assert (s + [c] + rest)[1..] == s[1..] + [c] + rest;
      IndexOfAfter(s[1..], c, rest);
    }
  }

  lemma StepOfField(f: string, rest: string)
    requires f != "" && '.' !in f && '[' !in f && (rest == "" || rest[0] == '.' || rest[0] == '[')
    ensures rest == "" ==> ParseStep(f + rest) == Some(([Field(f)], ""))
    ensures rest != "" && rest[0] == '.' ==> ParseStep(f + rest) == Some(([Field(f)], rest[1..]))
    ensures rest != "" && rest[0] == '[' ==>
              ParseStep(f + rest) ==
              if ParseStep(rest).None? then None
              else Some(([Field(f)] + ParseStep(rest).value.0, ParseStep(rest).value.1))
  {
    var p := f + rest;
    FieldEndOf(f, rest);
    assert p[..|f|] == f && p[|f|..] == rest;
    assert f != ".";
    if rest != "" && rest[0] == '[' {
      assert FieldEnd(rest) == 0 && rest[..0] == "" && rest[0..] == rest;
      var end := IndexOf(rest, ']');
      if end < |rest| && Atoi(rest[1..end]).Some? {
        var idx := [Index(Atoi(rest[1..end]).value)];
        assert [Field(f)] + ([] + idx) == [Field(f)] + idx;
      }
    }
  }

  lemma ParseField(f: string, rest: string)
    requires f != "" && '.' !in f && '[' !in f && (rest == "" || rest[0] == '.' || rest[0] == '[')
    ensures ParseDotted(f + rest) == Prepend([Field(f)], ParseDotted(AfterDot(rest)))
  {
    StepOfField(f, rest);
    if rest != "" && rest[0] == '[' && ParseStep(rest).Some? {
      var step := ParseStep(rest).value;
      PrependAssociates([Field(f)], step.0, ParseDotted(step.1));
    }
  }

  lemma StepOfIndex(index: string, n: int, rest: string)
    requires ']' !in index && Atoi(index) == Some(n) && n >= 0
    ensures ParseStep("[" + index + "]" + rest) == Some(([Index(n)], AfterDot(rest)))
  {
    var p, end := "[" + index + "]" + rest, |index| + 1;
    IndexOfAfter("[" + index, ']', rest);
    assert FieldEnd(p) == 0 && p[0..] == p;
    assert p[1..end] == index && p[end + 1..] == rest;
    assert [] + [Index(n)] == [Index(n)];
  }

  lemma ParseIndex(n: nat, rest: string)
    requires n <= MAX_INT
    ensures ParseDotted("[" + Digits(n) + "]" + rest) == Prepend([Index(n)], ParseDotted(AfterDot(rest)))
  {
    DigitsAreDigits(n);
    AtoiOfDigits(n);
    StepOfIndex(Digits(n), n, rest);
  }

  lemma DotBeforeField(path: Path)
    requires forall s :: s in path ==> Dottable(s)
    ensures AfterDot(PrintTail(path)) == PrintDotted(path)
    ensures if path == [] then PrintTail(path) == ""
            else PrintTail(path) != "" && (PrintTail(path)[0] == '.' || PrintTail(path)[0] == '[')
  {
    if path != [] {
      assert Dottable(path[0]);
      if path[0].Field? {
        assert PrintTail(path)[1..] == PrintDotted(path);
      } else {
        assert "" + PrintDotted(path) == PrintDotted(path);
        assert PrintDotted(path)[0] == '[';
      }
    }
  }

  /** What may follow a segment. */
  predicate Follows(tail: string) {
    tail == "" || tail[0] == '.' || tail[0] == '['
  }

  function Printed(seg: Seg): string {
    if seg.Field? then seg.name else "[" + Itoa(seg.i) + "]"
  }

  lemma ParseSeg(seg: Seg, rest: string)
    requires Dottable(seg) && Follows(rest)
    ensures ParseDotted(Printed(seg) + rest) == Prepend([seg], ParseDotted(AfterDot(rest)))
  {
    if seg.Field? { ParseField(seg.name, rest); } else { ParseIndex(seg.i, rest); }
  }

  lemma AfterDotOf(printed: string, tail: string)
    requires printed != "" && Follows(printed)
    ensures Follows(printed + tail) && AfterDot(printed + tail) == AfterDot(printed) + tail
  {
  }

  lemma PrintedFirst(path: Path, tail: string)
    requires path != []
    ensures PrintDotted(path) + tail == Printed(path[0]) + (PrintTail(path[1..]) + tail)
  {
    AppendAssociates(Printed(path[0]), PrintTail(path[1..]), tail);
  }

  /** Behind a dotted form the parser goes on with what follows. */
  lemma {:induction false} DottedPrefix(path: Path, tail: string)
    requires path != [] && (forall s :: s in path ==> Dottable(s)) && Follows(tail)
    ensures ParseDotted(PrintDotted(path) + tail) == Prepend(path, ParseDotted(AfterDot(tail)))
    decreases |path|
  {
    var seg, more := path[0], path[1..];
    assert Dottable(seg) && path == [seg] + more;
    var rest := PrintTail(more) + tail;
    PrintedFirst(path, tail);
    if more == [] {
      assert rest == tail && path == [seg];
      ParseSeg(seg, tail);
    } else {
      DotBeforeField(more);
      AfterDotOf(PrintTail(more), tail);
      ParseSeg(seg, rest);
      DottedPrefix(more, tail);
      PrependAssociates([seg], more, ParseDotted(AfterDot(tail)));
    }
  }

  lemma DottedRoundTrip(path: Path)
    requires forall s :: s in path ==> Dottable(s)
    ensures ParseDotted(PrintDotted(path)) == Some(path)
  {
    if path != [] {
      DottedPrefix(path, "");
      assert PrintDotted(path) + "" == PrintDotted(path) && path + [] == path;
    }
  }

  lemma DotIsSkipped(tail: string)
    ensures ParseDotted("." + tail) == ParseDotted(tail)
  {
    var text := "." + tail;
    assert FieldEnd(text) == 0 && text[0..] == text && text[1..] == tail;
    assert ParseStep(text) == Some(([], tail));
    if ParseDotted(tail).Some? { assert [] + ParseDotted(tail).value == ParseDotted(tail).value; }
  }

  /** Empty fields are passed over: behind a dotted form, two dots say as much as one. */
  lemma EmptyFieldIsSkipped(path: Path, tail: string)
    requires path != [] && forall s :: s in path ==> Dottable(s)
    ensures ParseDotted(PrintDotted(path) + (".." + tail)) == ParseDotted(PrintDotted(path) + ("." + tail))
  {
    DottedPrefix(path, ".." + tail);
    DottedPrefix(path, "." + tail);
    assert AfterDot(".." + tail) == "." + tail && AfterDot("." + tail) == tail;
    DotIsSkipped(tail);
  }

  lemma OpenIndexFails(index: string)
    requires ']' !in index
    ensures ParseDotted("[" + index) == None
  {
    var text := "[" + index;
    assert FieldEnd(text) == 0 && text[0..] == text && ']' !in text;
  }

  lemma BadIndexFails(index: string, rest: string)
    requires ']' !in index && (Atoi(index).None? || Atoi(index).value < 0)
    ensures ParseDotted("[" + index + "]" + rest) == None
  {
    var text := "[" + index + "]" + rest;
    IndexOfAfter("[" + index, ']', rest);
    assert FieldEnd(text) == 0 && text[0..] == text && text[1..|index| + 1] == index;
  }

  /** Behind a dotted form, an index that is not closed, no number or negative makes the whole path an
      error. */
  lemma BadIndexIsRefused(path: Path, tail: string, index: string, rest: string)
    requires path != [] && (forall s :: s in path ==> Dottable(s)) && ']' !in index
    requires tail == "[" + index ||
             (tail == "[" + index + "]" + rest && (Atoi(index).None? || Atoi(index).value < 0))
    ensures ParseDotted(PrintDotted(path) + tail) == None
  {
    DottedPrefix(path, tail);
    if tail == "[" + index { OpenIndexFails(index); } else { BadIndexFails(index, rest); }
  }

  function FirstChar(seg: Seg): char {
    if seg.Field? && seg.name != "" then seg.name[0] else '['
  }

  function LastChar(seg: Seg): char {
    if seg.Field? && seg.name != "" then seg.name[|seg.name| - 1] else ']'
  }

  /** The paths whose dotted form the parser reads back: no field is empty or contains '.' or '[', the
      form does not look like a pointer, and no white space stands at its ends, which are trimmed. */
  predicate DottedForm(path: Path) {
    && path != [] && (forall s :: s in path ==> Dottable(s))
    && !IsSpace(FirstChar(path[0])) && FirstChar(path[0]) != '/' && !IsSpace(LastChar(path[|path| - 1]))
  }

  lemma {:induction false} PrintedEnd(path: Path)
    requires path != [] && forall s :: s in path ==> Dottable(s)
    ensures var p := PrintDotted(path); p != "" && p[|p| - 1] == LastChar(path[|path| - 1])
    decreases |path|
  {
    assert Dottable(path[0]);
    if |path| > 1 {
      var rest := path[1..];
      PrintedEnd(rest);
      assert rest[|rest| - 1] == path[|path| - 1];
      var tail, printed := PrintTail(rest), PrintDotted(rest);
      assert tail[|tail| - 1] == printed[|printed| - 1];
    }
  }

  /** Parsing inverts the dotted printer. */
  lemma ParseOfDotted(path: Path)
    requires DottedForm(path)
    ensures Parse(PrintDotted(path)) == Some(path)
  {
    var p := PrintDotted(path);
    assert Dottable(path[0]);
    PrintedEnd(path);
    assert p[0] == FirstChar(path[0]);
    TrimSpaceOfTrimmed(p);
    DottedRoundTrip(path);
  }

  // ----- pointers

  /** Section 3 of RFC 6901: '~' is written ~0 and '/' is written ~1. */
  function Escape(f: string): string {
    if f == "" then ""
    else (if f[0] == '~' then "~0" else if f[0] == '/' then "~1" else [f[0]]) + Escape(f[1..])
  }

  function EscapeTilde(f: string): string {
    if f == "" then "" else (if f[0] == '~' then "~0" else [f[0]]) + EscapeTilde(f[1..])
  }

  lemma ReplaceStep(a: string, s: string, x: char, y: char, sub: char)
    requires |a| == 1 && (a[0] != x || (s != "" && s[0] != y))
    ensures ReplaceAll(a + s, x, y, sub) == a + ReplaceAll(s, x, y, sub)
  {
    if s != "" {
      assert (a + s)[1..] == s;
    } else {
      assert a + s == a && ReplaceAll(s, x, y, sub) == "" && a + "" == a;
    }
  }

  /** The first pass leaves the tildes escaped. */
  lemma {:induction false} FirstPass(f: string)
    ensures ReplaceAll(Escape(f), '~', '1', '/') == EscapeTilde(f)
    decreases |f|
  {
    if f != "" {
      FirstPass(f[1..]);
      var rest := Escape(f[1..]);
      if f[0] == '~' {
        assert "~0" + rest == "~" + ("0" + rest);
        ReplaceStep("~", "0" + rest, '~', '1', '/');
        ReplaceStep("0", rest, '~', '1', '/');
        assert "~" + ("0" + EscapeTilde(f[1..])) == "~0" + EscapeTilde(f[1..]);
      } else if f[0] == '/' {
        assert ("~1" + rest)[2..] == rest;
      } else {
        ReplaceStep([f[0]], rest, '~', '1', '/');
      }
    }
  }

  lemma {:induction false} SecondPass(f: string)
    ensures ReplaceAll(EscapeTilde(f), '~', '0', '~') == f
    decreases |f|
  {
    if f != "" {
      SecondPass(f[1..]);
      var rest := EscapeTilde(f[1..]);
      assert f == [f[0]] + f[1..];
      if f[0] == '~' {
        assert ("~0" + rest)[2..] == rest;
      } else {
        ReplaceStep([f[0]], rest, '~', '0', '~');
      }
    }
  }

  /** The two passes, in this order, undo the escaping. */
  lemma UnescapeInvertsEscape(f: string)
    ensures Unescape(Escape(f)) == f
  {
    FirstPass(f);
    SecondPass(f);
  }

  lemma {:induction false} EscapeHasNoSlash(f: string)
    ensures '/' !in Escape(f)
    ensures f != "" ==> Escape(f) != ""
    ensures f != "" && !IsSpace(f[|f| - 1]) ==> !IsSpace(Escape(f)[|Escape(f)| - 1])
  {
    if f != "" { EscapeHasNoSlash(f[1..]); }
  }

  function Part(seg: Seg): string {
    match seg
    case Field(f) => Escape(f)
    case Index(i) => Itoa(i)
  }

  function Parts(path: Path): seq<string> {
    if path == [] then [] else [Part(path[0])] + Parts(path[1..])
  }

  function PrintPointer(path: Path): string {
    "/" + Join(Parts(path), '/')
  }

  /** What a pointer can say: a field is not empty and does not read as a number. */
  predicate Pointable(seg: Seg) {
    match seg
    case Field(f) => f != "" && Atoi(f).None?
    case Index(i) => 0 <= i <= MAX_INT
  }

  lemma PartReadsBack(seg: Seg)
    requires Pointable(seg)
    ensures PointerSeg(Unescape(Part(seg))) == [seg] && '/' !in Part(seg) && Part(seg) != ""
  {
    match seg {
      case Field(f) =>
        UnescapeInvertsEscape(f);
        EscapeHasNoSlash(f);
      case Index(i) =>
        DigitsAreDigits(i);
        AtoiOfDigits(i);
        NoTildeUnchanged(Digits(i), '1', '/');
        NoTildeUnchanged(Digits(i), '0', '~');
        assert forall c :: c in Digits(i) ==> c != '/';
    }
  }

  lemma NoTildeUnchanged(s: string, b: char, sub: char)
    requires forall c :: c in s ==> IsDigit(c)
    ensures ReplaceAll(s, '~', b, sub) == s
  {
    if |s| >= 2 {
      assert IsDigit(s[0]);
      NoTildeUnchanged(s[1..], b, sub);
    }
  }

  lemma {:induction false} PartsReadBack(path: Path)
    requires forall s :: s in path ==> Pointable(s)
    ensures ParsePointer(Parts(path)) == path
    ensures forall p :: p in Parts(path) ==> '/' !in p
  {
    if path != [] {
      assert Pointable(path[0]) && path == [path[0]] + path[1..];
      PartReadsBack(path[0]);
      PartsReadBack(path[1..]);
      assert Parts(path)[1..] == Parts(path[1..]);
    }
  }

  predicate PointerForm(path: Path) {
    && path != [] && (forall s :: s in path ==> Pointable(s))
    && !IsSpace(LastChar(path[|path| - 1]))
  }

  predicate EndsInText(s: string) {
    s != "" && !IsSpace(s[|s| - 1])
  }

  lemma PartEnd(seg: Seg)
    requires Pointable(seg) && !IsSpace(LastChar(seg))
    ensures EndsInText(Part(seg))
  {
    match seg {
      case Field(f) => EscapeHasNoSlash(f);
      case Index(i) =>
        DigitsAreDigits(i);
        assert IsDigit(Digits(i)[|Digits(i)| - 1]);
    }
  }

  lemma {:induction false} JoinedEnd(parts: seq<string>)
    requires parts != [] && EndsInText(parts[|parts| - 1])
    ensures EndsInText(Join(parts, '/'))
  {
    if |parts| > 1 {
      JoinedEnd(parts[1..]);
    }
  }

  lemma {:induction false} PartsAt(path: Path)
    requires path != []
    ensures |Parts(path)| == |path| && Parts(path)[|path| - 1] == Part(path[|path| - 1])
  {
    if |path| > 1 { PartsAt(path[1..]); }
  }

  lemma ParsePrintedPointer(parts: seq<string>, text: string)
    requires parts != [] && (forall p :: p in parts ==> '/' !in p) && text == Join(parts, '/')
    requires EndsInText(text)
    ensures Parse("/" + text) == Some(ParsePointer(parts))
  {
    TrimSpaceOfTrimmed("/" + text);
    assert ("/" + text)[1..] == text;
    SplitJoin(parts, '/');
  }

  /** Parsing inverts the pointer printer. */
  lemma ParseOfPointer(path: Path)
    requires PointerForm(path)
    ensures Parse(PrintPointer(path)) == Some(path)
  {
    PartsReadBack(path);
    PartsAt(path);
    PartEnd(path[|path| - 1]);
    JoinedEnd(Parts(path));
    ParsePrintedPointer(Parts(path), Join(Parts(path), '/'));
  }

  // ----- paths without segments

  lemma UnescapedIsText(part: string)
    requires part != ""
    ensures PointerSeg(Unescape(part)) != []
  {
    assert ReplaceAll(part, '~', '1', '/') != "";
  }

  predicate AllEmpty(parts: seq<string>) {
    forall p :: p in parts ==> p == ""
  }

  predicate AllSlashes(s: string) {
    forall c :: c in s ==> c == '/'
  }

  lemma OneMore(part: string, parts: seq<string>, c: char, s: string)
    ensures AllEmpty([part] + parts) <==> part == "" && AllEmpty(parts)
    ensures AllSlashes([c] + s) <==> c == '/' && AllSlashes(s)
  {
    assert part in [part] + parts && c in [c] + s;
    assert forall p :: p in [part] + parts <==> p == part || p in parts;
    assert forall d :: d in [c] + s <==> d == c || d in s;
  }

  /** Empty parts of a pointer say nothing. */
  lemma {:induction false} PointerIsEmptyIff(parts: seq<string>)
    ensures ParsePointer(parts) == [] <==> AllEmpty(parts)
  {
    if parts != [] {
      assert parts == [parts[0]] + parts[1..];
      OneMore(parts[0], parts[1..], '/', "");
      PointerIsEmptyIff(parts[1..]);
      if parts[0] != "" { UnescapedIsText(parts[0]); }
    }
  }

  lemma {:induction false} SplitOfSlashes(s: string)
    ensures AllEmpty(Split(s, '/')) <==> AllSlashes(s)
  {
    if s != "" {
      var rest := Split(s[1..], '/');
      SplitOfSlashes(s[1..]);
      assert s == [s[0]] + s[1..] && rest == [rest[0]] + rest[1..];
      OneMore("", rest, s[0], s[1..]);
      OneMore([s[0]] + rest[0], rest[1..], s[0], s[1..]);
    }
  }

  /** A path without segments is an error, except for a pointer of nothing but slashes. */
  lemma NoSegmentsIff(path: string)
    ensures Parse(path) == Some([]) <==> TrimSpace(path) != "" && AllSlashes(TrimSpace(path))
  {
    var p := TrimSpace(path);
    if p != "" {
      assert p == [p[0]] + p[1..];
      OneMore("", [], p[0], p[1..]);
      SplitOfSlashes(p[1..]);
      PointerIsEmptyIff(Split(p[1..], '/'));
    }
  }
}
