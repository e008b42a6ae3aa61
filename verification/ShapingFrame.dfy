/** What the output-shaping pipeline keeps: away from the paths it was given and within the limits the
    final value reads as the selected one, and every redacted and excluded path reads as it must. */
module ShapingFrame {
  import opened Text
  import opened Json
  import opened Paths
  import opened Shaping
  import opened ShapingPipeline
  import InPlace

  // ----- the edits

  /** The path leads to p or to something around it. */
  predicate Over(text: string, p: Path) {
    Parse(text).Some? && Parse(text).value != [] && Parse(text).value <= p
  }

  /** The path leads into what stands at p. */
  predicate Into(text: string, p: Path) {
    Parse(text).Some? && p <= Parse(text).value
  }

  predicate Among(texts: seq<string>, q: Path) {
    exists k :: 0 <= k < |texts| && Parse(texts[k]) == Some(q)
  }

  lemma AmongRest(texts: seq<string>, q: Path)
    requires texts != [] && Among(texts, q) && Parse(texts[0]) != Some(q)
    ensures Among(texts[1..], q)
  {
    var k :| 0 <= k < |texts| && Parse(texts[k]) == Some(q);
    assert texts[1..][k - 1] == texts[k];
  }

  predicate NoneOver(texts: seq<string>, p: Path) {
    forall k :: 0 <= k < |texts| ==> !Over(texts[k], p)
  }

  predicate NoneInto(texts: seq<string>, p: Path) {
    forall k :: 0 <= k < |texts| ==> !Into(texts[k], p)
  }

  /** No data is lost or made up at the place itself: a scalar stays, a container stays one of its kind,
      and an array keeps its length. */
  predicate Framed(before: Option<Value>, after: Option<Value>) {
    match before
    case None => after == None
    case Some(Obj(_)) => after.Some? && after.value.Obj?
    case Some(Arr(a)) => after.Some? && after.value.Arr? && |after.value.items| == |a|
    case Some(u) => after == Some(u)
  }

  lemma RemoveFrames(v: Value, q: Path, p: Path)
    requires q != [] && !(q <= p)
    ensures Framed(Get(v, p), Get(Remove(v, q), p))
    ensures !(p <= q) ==> Get(Remove(v, q), p) == Get(v, p)
  {
    GetAfterRemove(v, q, p);
    if Get(v, q).Some? && p <= q { ReachedThrough(v, q, p); }
  }

  lemma SetFrames(v: Value, q: Path, x: Value, p: Path)
    requires q != [] && !(q <= p)
    ensures Framed(Get(v, p), Get(Set(v, q, x), p))
    ensures !(p <= q) ==> Get(Set(v, q, x), p) == Get(v, p)
  {
    GetAfterSet(v, q, x, p);
    if Accepts(v, q) && p <= q { AcceptedReaches(v, q, p); }
  }

  lemma {:induction false} RemoveAllFrames(v: Value, texts: seq<string>, p: Path)
    requires RemoveAll(v, texts).Some? && NoneOver(texts, p)
    ensures Framed(Get(v, p), Get(RemoveAll(v, texts).value, p))
    ensures NoneInto(texts, p) ==> Get(RemoveAll(v, texts).value, p) == Get(v, p)
    decreases |texts|
  {
    if texts != [] {
      var path := Parse(texts[0]).value;
      assert !Over(texts[0], p) && NoneOver(texts[1..], p);
      if path != [] { RemoveFrames(v, path, p); }
      RemoveAllFrames(Remove(v, path), texts[1..], p);
      if NoneInto(texts, p) { assert !Into(texts[0], p) && NoneInto(texts[1..], p); }
    }
  }

  lemma {:induction false} RedactAllFrames(v: Value, texts: seq<string>, p: Path)
    requires RedactAll(v, texts).Some? && NoneOver(texts, p)
    ensures Framed(Get(v, p), Get(RedactAll(v, texts).value, p))
    ensures NoneInto(texts, p) ==> Get(RedactAll(v, texts).value, p) == Get(v, p)
    decreases |texts|
  {
    if texts != [] {
      var path := Parse(texts[0]).value;
      assert !Over(texts[0], p) && NoneOver(texts[1..], p);
      if path != [] { SetFrames(v, path, REDACTED, p); }
      RedactAllFrames(Set(v, path, REDACTED), texts[1..], p);
      if NoneInto(texts, p) { assert !Into(texts[0], p) && NoneInto(texts[1..], p); }
    }
  }

  // ----- the limits

  /** The first index on the way to p is behind the cut. */
  predicate CutOff(p: Path, maxItems: int) {
    p != [] && if p[0].Index? then p[0].i >= maxItems else CutOff(p[1..], maxItems)
  }

  /** What the two limits leave of a reading. */
  predicate Limited(opts: Options, p: Path, before: Option<Value>, after: Option<Value>) {
    if before.None? || 0 < opts.maxDepth < |p| || (0 < opts.maxItems && CutOff(p, opts.maxItems)) then after == None
    else
      match before.value
      case Obj(m) => if |p| == opts.maxDepth > 0 then after == Some(Str("<truncated>"))
                     else after.Some? && after.value.Obj? && after.value.fields.Keys == m.Keys
      case Arr(a) => if |p| == opts.maxDepth > 0 then after == Some(Str("<truncated>"))
                     else
                       && after.Some? && after.value.Arr?
                       && |after.value.items| == if 0 < opts.maxItems < |a| && AllFields(p) then opts.maxItems else |a|
      case u => after == Some(u)
  }

  predicate DepthLeaves(at: int, maxDepth: int, before: Option<Value>, after: Option<Value>) {
    if before.None? || at > maxDepth then after == None
    else
      match before.value
      case Obj(m) => if at == maxDepth then after == Some(Str("<truncated>"))
                     else after.Some? && after.value.Obj? && after.value.fields.Keys == m.Keys
      case Arr(a) => if at == maxDepth then after == Some(Str("<truncated>"))
                     else after.Some? && after.value.Arr? && |after.value.items| == |a|
      case u => after == Some(u)
  }

  lemma {:induction false} DepthReads(v: Value, depth: nat, maxDepth: int, p: Path)
    requires 0 < maxDepth && depth <= maxDepth
    ensures DepthLeaves(depth + |p|, maxDepth, Get(v, p), Get(TruncateDepth(v, depth, maxDepth), p))
    decreases |p|
  {
    if p != [] && depth < maxDepth {
      match p[0] {
        case Index(i) => if v.Arr? && 0 <= i < |v.items| { DepthReads(v.items[i], depth + 1, maxDepth, p[1..]); }
        case Field(f) => if v.Obj? && f in v.fields { DepthReads(v.fields[f], depth + 1, maxDepth, p[1..]); }
      }
    }
  }

  predicate ItemsLeave(p: Path, maxItems: int, before: Option<Value>, after: Option<Value>) {
    if before.None? || CutOff(p, maxItems) then after == None
    else
      match before.value
      case Obj(m) => after.Some? && after.value.Obj? && after.value.fields.Keys == m.Keys
      case Arr(a) => after.Some? && after.value.Arr?
                     && |after.value.items| == if maxItems < |a| && AllFields(p) then maxItems else |a|
      case u => after == Some(u)
  }

  lemma {:induction false} ItemsRead(v: Value, maxItems: int, p: Path)
    requires 0 < maxItems
    ensures ItemsLeave(p, maxItems, Get(v, p), Get(TruncateItems(v, maxItems), p))
    decreases |p|
  {
    if p != [] {
      assert p[0] in p && forall s :: s in p <==> s == p[0] || s in p[1..];
      match p[0] {
        case Index(i) =>
        case Field(f) => if v.Obj? && f in v.fields { ItemsRead(v.fields[f], maxItems, p[1..]); }
      }
    }
  }

  /** Every reading of the truncated value. */
  lemma LimitsLeave(v: Value, opts: Options, p: Path)
    ensures Limited(opts, p, Get(v, p), Get(Truncated(v, opts), p))
  {
    var u := TruncateDepth(v, 0, opts.maxDepth);
    if opts.maxDepth > 0 { DepthReads(v, 0, opts.maxDepth, p); }
    if opts.maxItems > 0 { ItemsRead(u, opts.maxItems, p); }
  }

  // ----- what the pipeline keeps

  lemma FramedTwice(x: Option<Value>, y: Option<Value>, z: Option<Value>)
    requires Framed(x, y) && Framed(y, z)
    ensures Framed(x, z)
  {
  }

  /** No excluded and no redacted path leads to p or around it. */
  predicate Untouched(opts: Options, p: Path) {
    NoneOver(opts.excludeFields, p) && NoneOver(opts.redact, p)
  }

  /** The pipeline after the selection. */
  predicate Edited(selected: Value, opts: Options, out: Value) {
    RemoveAll(selected, opts.excludeFields).Some? &&
    var kept := RemoveAll(selected, opts.excludeFields).value;
    RedactAll(kept, opts.redact).Some? && out == Truncated(RedactAll(kept, opts.redact).value, opts)
  }

  predicate Shapes(toolName: string, v: Value, opts: Options, selected: Value, out: Value) {
    Selected(toolName, v, opts) == Some(selected) && Shape(toolName, v, opts) == Some(out)
  }

  lemma ShapeEdits(toolName: string, v: Value, opts: Options, selected: Value, out: Value)
    requires Shapes(toolName, v, opts, selected, out)
    ensures Edited(selected, opts, out)
  {
  }

  lemma EditsFrame(selected: Value, opts: Options, out: Value, p: Path)
    requires Edited(selected, opts, out) && Untouched(opts, p)
    ensures exists x :: Framed(Get(selected, p), x) && Limited(opts, p, x, Get(out, p))
    ensures NoneInto(opts.excludeFields, p) && NoneInto(opts.redact, p) ==>
              Limited(opts, p, Get(selected, p), Get(out, p))
  {
    var kept := RemoveAll(selected, opts.excludeFields).value;
    var redacted := RedactAll(kept, opts.redact).value;
    RemoveAllFrames(selected, opts.excludeFields, p);
    RedactAllFrames(kept, opts.redact, p);
    FramedTwice(Get(selected, p), Get(kept, p), Get(redacted, p));
    LimitsLeave(redacted, opts, p);
  }

  /** The frame of the whole pipeline. Where no excluded or redacted path leads, what was selected is still
      there: scalars as they were, containers as containers of the same kind, and everything as it was if no
      such path leads further in; then the limits apply. */
  lemma ShapingKeeps(toolName: string, v: Value, opts: Options, selected: Value, out: Value, p: Path)
    requires Shapes(toolName, v, opts, selected, out) && Untouched(opts, p)
    ensures exists x :: Framed(Get(selected, p), x) && Limited(opts, p, x, Get(out, p))
    ensures NoneInto(opts.excludeFields, p) && NoneInto(opts.redact, p) ==>
              Limited(opts, p, Get(selected, p), Get(out, p))
  {
    ShapeEdits(toolName, v, opts, selected, out);
    EditsFrame(selected, opts, out, p);
  }

  predicate WithinLimits(opts: Options, p: Path) {
    (opts.maxDepth > 0 ==> |p| <= opts.maxDepth) && (opts.maxItems > 0 ==> !CutOff(p, opts.maxItems))
  }

  /** A scalar off the given paths and within the limits stays. */
  lemma ScalarsStay(toolName: string, v: Value, opts: Options, selected: Value, out: Value, p: Path, x: Value)
    requires Shapes(toolName, v, opts, selected, out) && Untouched(opts, p) && WithinLimits(opts, p)
    requires Get(selected, p) == Some(x) && InPlace.IsScalar(x)
    ensures Get(out, p) == Some(x)
  {
    ShapingKeeps(toolName, v, opts, selected, out, p);
  }

  // ----- the marks

  /** What holds the last segment of the path is there. */
  predicate HasContainer(v: Value, path: Path) {
    path != [] && InPlace.TakesLast(Get(v, InPlace.Front(path)), InPlace.Last(path))
  }

  lemma OverFront(q: Path, p: Path)
    requires p != []
    ensures q <= p <==> q <= InPlace.Front(p) || q == p
  {
    if q <= p && q != p { assert q == p[..|q|] == InPlace.Front(p)[..|q|]; }
  }

  lemma SetMarks(v: Value, r: Path, q: Path)
    requires q != [] && r != [] && !(r <= InPlace.Front(q))
    requires HasContainer(v, q) || Get(v, q) == Some(REDACTED)
    ensures HasContainer(v, q) ==> HasContainer(Set(v, r, REDACTED), q)
    ensures r == q && HasContainer(v, q) ==> Get(Set(v, r, REDACTED), q) == Some(REDACTED)
    ensures Get(v, q) == Some(REDACTED) ==> Get(Set(v, r, REDACTED), q) == Some(REDACTED)
  {
    OverFront(r, q);
    SetFrames(v, r, REDACTED, InPlace.Front(q));
    GetAfterSet(v, r, REDACTED, q);
    InPlace.AcceptsIff(v, q);
    if r == q { assert q[|q|..] == [] && Get(REDACTED, []) == Some(REDACTED); }
    if r != q { SetFrames(v, r, REDACTED, q); }
  }

  lemma {:induction false} RedactAllMarks(v: Value, texts: seq<string>, q: Path, done: bool)
    requires RedactAll(v, texts).Some? && q != [] && NoneOver(texts, InPlace.Front(q)) && HasContainer(v, q)
    requires if done then Get(v, q) == Some(REDACTED) else Among(texts, q)
    ensures Get(RedactAll(v, texts).value, q) == Some(REDACTED)
    decreases |texts|
  {
    if texts != [] {
      var r := Parse(texts[0]).value;
      assert !Over(texts[0], InPlace.Front(q)) && NoneOver(texts[1..], InPlace.Front(q));
      if r != [] { SetMarks(v, r, q); }
      if !done && r != q { AmongRest(texts, q); }
      RedactAllMarks(Set(v, r, REDACTED), texts[1..], q, done || r == q);
    }
  }

  lemma EditsMark(selected: Value, opts: Options, out: Value, q: Path)
    requires Edited(selected, opts, out) && HasContainer(selected, q) && Untouched(opts, InPlace.Front(q))
    requires Among(opts.redact, q)
    ensures Get(out, q) == if WithinLimits(opts, q) then Some(Str("[REDACTED]")) else None
  {
    var kept := RemoveAll(selected, opts.excludeFields).value;
    RemoveAllFrames(selected, opts.excludeFields, InPlace.Front(q));
    RedactAllMarks(kept, opts.redact, q, false);
    LimitsLeave(RedactAll(kept, opts.redact).value, opts, q);
  }

  /** A redacted path whose container was selected shows the mark, unless an excluded or redacted path leads
      around it, or a limit hides it. */
  lemma RedactionIsMarked(toolName: string, v: Value, opts: Options, selected: Value, out: Value, q: Path)
    requires Shapes(toolName, v, opts, selected, out)
    requires Among(opts.redact, q)
    requires HasContainer(selected, q) && Untouched(opts, InPlace.Front(q))
    ensures Get(out, q) == if WithinLimits(opts, q) then Some(Str("[REDACTED]")) else None
  {
    ShapeEdits(toolName, v, opts, selected, out);
    EditsMark(selected, opts, out, q);
  }

  // ----- the gaps

  /** What an exclusion leaves at its path. */
  function Gap(q: Path): Option<Value>
    requires q != []
  {
    if q[|q| - 1].Index? then Some(Null) else None
  }

  lemma RemoveGaps(v: Value, r: Path, q: Path)
    requires q != [] && r != [] && !(r <= InPlace.Front(q))
    ensures r == q && Get(v, q).Some? ==> Get(Remove(v, r), q) == Gap(q)
    ensures r != q && Get(v, q).Some? ==> Get(Remove(v, r), q).Some?
    ensures Get(v, q) == Gap(q) ==> Get(Remove(v, r), q) == Gap(q)
  {
    OverFront(r, q);
    GetAfterRemove(v, r, q);
    if r == q { assert q[|q|..] == [] && Get(Null, []) == Some(Null); }
    if r != q { RemoveFrames(v, r, q); }
  }

  lemma {:induction false} RemoveAllGaps(v: Value, texts: seq<string>, q: Path, done: bool)
    requires RemoveAll(v, texts).Some? && q != [] && NoneOver(texts, InPlace.Front(q))
    requires if done then Get(v, q) == Gap(q)
             else Get(v, q).Some? && Among(texts, q)
    ensures Get(RemoveAll(v, texts).value, q) == Gap(q)
    decreases |texts|
  {
    if texts != [] {
      var r := Parse(texts[0]).value;
      assert !Over(texts[0], InPlace.Front(q)) && NoneOver(texts[1..], InPlace.Front(q));
      if r != [] { RemoveGaps(v, r, q); }
      if !done && r != q { AmongRest(texts, q); }
      RemoveAllGaps(Remove(v, r), texts[1..], q, done || r == q);
    }
  }

  lemma EditsGap(selected: Value, opts: Options, out: Value, q: Path)
    requires Edited(selected, opts, out) && q != [] && Get(selected, q).Some?
    requires Among(opts.excludeFields, q)
    requires NoneOver(opts.excludeFields, InPlace.Front(q)) && NoneOver(opts.redact, q)
    ensures Get(out, q) == if WithinLimits(opts, q) then Gap(q) else None
  {
    var kept := RemoveAll(selected, opts.excludeFields).value;
    RemoveAllGaps(selected, opts.excludeFields, q, false);
    RedactAllFrames(kept, opts.redact, q);
    LimitsLeave(RedactAll(kept, opts.redact).value, opts, q);
  }

  /** An excluded path that was selected leaves null in an array and nothing in an object, unless an excluded
      path leads around it or a redacted path to it, or a limit hides it. */
  lemma ExclusionIsExact(toolName: string, v: Value, opts: Options, selected: Value, out: Value, q: Path)
    requires Shapes(toolName, v, opts, selected, out) && q != [] && Get(selected, q).Some?
    requires Among(opts.excludeFields, q)
    requires NoneOver(opts.excludeFields, InPlace.Front(q)) && NoneOver(opts.redact, q)
    ensures Get(out, q) == if WithinLimits(opts, q) then Gap(q) else None
  {
    ShapeEdits(toolName, v, opts, selected, out);
    EditsGap(selected, opts, out, q);
  }

  // ----- the selection

  /** Without a preset and without include paths everything is selected. */
  lemma EverythingIsSelected(toolName: string, v: Value, opts: Options)
    requires ToLower(TrimSpace(opts.view)) !in {"errors_only", "metadata", "summary"} && opts.includeFields == []
    ensures Selected(toolName, v, opts) == Some(v)
  {
  }

  /** The members of an object that have one of the names. */
  function Members(m: map<string, Value>, names: set<string>): Value {
    Obj(map k | k in m && k in names :: m[k])
  }

  lemma ErrorsAreSelected(toolName: string, v: Value)
    ensures match v
            case Obj(m) =>
              View(toolName, v, "errors_only") == Members(m, {"ok", "status", "error", "errors", "message"})
            case Arr(a) => View(toolName, v, "errors_only").Arr? && |View(toolName, v, "errors_only").items| == |a|
                           && forall i :: 0 <= i < |a| ==>
                                View(toolName, v, "errors_only").items[i] == View(toolName, a[i], "errors_only")
            case _ => View(toolName, v, "errors_only") == v
  {
    if v.Obj? {
      assert forall k :: k in ERROR_KEYS <==> k in {"ok", "status", "error", "errors", "message"};
    }
  }

  /** Lower-case words: they read as a single field. */
  predicate Plain(name: string) {
    name != "" && forall i :: 0 <= i < |name| ==> 'a' <= name[i] <= 'z' || name[i] == '_'
  }

  predicate AllPlain(path: Path) {
    path != [] && forall i :: 0 <= i < |path| ==> path[i].Field? && Plain(path[i].name)
  }

  lemma PlainParses(path: Path)
    requires AllPlain(path)
    ensures TrimSpace(PrintDotted(path)) == PrintDotted(path) && Parse(PrintDotted(path)) == Some(path)
    ensures PrintDotted(path) != ""
  {
    forall s | s in path ensures Dottable(s) {
      var i :| 0 <= i < |path| && path[i] == s;
      assert Plain(path[i].name);
    }
    var first, last := path[0].name, path[|path| - 1].name;
    assert Plain(first) && Plain(last);
    assert FirstChar(path[0]) == first[0] && LastChar(path[|path| - 1]) == last[|last| - 1];
    ParseOfDotted(path);
    PrintedEnd(path);
    var p := PrintDotted(path);
    assert p[0] == first[0];
    TrimSpaceOfTrimmed(p);
  }

  predicate Prints(texts: seq<string>, paths: seq<Path>) {
    |texts| == |paths| && forall e :: 0 <= e < |texts| ==> AllPlain(paths[e]) && texts[e] == PrintDotted(paths[e])
  }

  lemma PlainFieldsOnly(path: Path)
    requires AllPlain(path)
    ensures AllFields(path)
  {
  }

  lemma {:induction false} PlainFound(v: Value, texts: seq<string>, paths: seq<Path>, r: Path)
    requires Prints(texts, paths)
    ensures r in FoundPaths(v, texts) <==> r in paths && Get(v, r).Some?
    ensures forall t :: t in texts ==> Includable(v, t)
    decreases |texts|
  {
    if texts != [] {
      PlainParses(paths[0]);
      PlainFieldsOnly(paths[0]);
      PlainFound(v, texts[1..], paths[1..], r);
      assert r in paths <==> r == paths[0] || r in paths[1..];
    }
  }

  /** A preset of plain paths shows exactly what is found at them. */
  lemma PresetShows(v: Value, texts: seq<string>, paths: seq<Path>, found: set<Path>)
    requires v.Obj? && Prints(texts, paths) && forall r :: r in found <==> r in paths && Get(v, r).Some?
    ensures Preset(v, texts).Obj? && Exact(Preset(v, texts).fields, v, found)
  {
    forall r ensures r in FoundPaths(v, texts) <==> r in found { PlainFound(v, texts, paths, r); }
    assert FoundPaths(v, texts) == found;
    PlainFound(v, texts, paths, []);
    IncludeIsExact(v, texts);
  }

  // ----- the presets

  function Singles(names: seq<string>): seq<Path> {
    seq(|names|, i requires 0 <= i < |names| => [Field(names[i])])
  }

  lemma SinglesPrint(names: seq<string>)
    requires forall i :: 0 <= i < |names| ==> Plain(names[i])
    ensures Prints(names, Singles(names))
  {
    forall e | 0 <= e < |names| ensures AllPlain(Singles(names)[e]) && names[e] == PrintDotted(Singles(names)[e]) {
      assert names[e] + PrintTail([]) == names[e];
    }
  }

  lemma SingleAbove(found: set<Path>, q: Path)
    requires |q| == 1 && forall r :: r in found ==> |r| == 1
    ensures Above(found, q) <==> q in found
    ensures Below(found, q) <==> q in found
  {
    if q in found { assert q <= q; }
    if Above(found, q) {
      var r :| r in found && r <= q;
      assert r == q;
    }
    if Below(found, q) {
      var r :| r in found && q <= r;
      assert r == q;
    }
  }

  lemma OneMember(out: map<string, Value>, m: map<string, Value>, found: set<Path>, k: string)
    requires Exact(out, Obj(m), found) && forall r :: r in found ==> |r| == 1
    ensures [Field(k)] in found ==> (k in out <==> k in m) && (k in out ==> out[k] == m[k])
    ensures [Field(k)] !in found ==> k !in out
  {
    var q := [Field(k)];
    SingleAbove(found, q);
    assert Shows(out, Obj(m), found, q);
    assert q[1..] == [];
    assert k in out ==> Get(Obj(out), q) == Some(out[k]);
    assert k in m ==> Get(Obj(m), q) == Some(m[k]);
  }

  lemma ExactMembers(out: map<string, Value>, m: map<string, Value>, names: set<string>, found: set<Path>)
    requires Exact(out, Obj(m), found)
    requires forall r: Path :: r in found <==> |r| == 1 && r[0].Field? && r[0].name in names && r[0].name in m
    ensures Obj(out) == Members(m, names)
  {
    forall k: string
      ensures k in out <==> k in m && k in names
      ensures k in out ==> out[k] == m[k]
    {
      OneMember(out, m, found, k);
      assert [Field(k)] in found <==> k in names && k in m;
    }
  }

  lemma NamesAreSelected(m: map<string, Value>, texts: seq<string>, names: set<string>)
    requires (forall i :: 0 <= i < |texts| ==> Plain(texts[i])) && forall k :: k in texts <==> k in names
    ensures Preset(Obj(m), texts) == Members(m, names)
  {
    var paths := Singles(texts);
    var found := set r | r in paths && Get(Obj(m), r).Some?;
    SinglesPrint(texts);
    PresetShows(Obj(m), texts, paths, found);
    forall r: Path ensures r in found <==> |r| == 1 && r[0].Field? && r[0].name in names && r[0].name in m {
      if |r| == 1 && r[0].Field? && r[0].name in names {
        var i :| 0 <= i < |texts| && texts[i] == r[0].name;
        assert paths[i] == r && r[1..] == [];
      }
      if r in paths {
        var i :| 0 <= i < |paths| && paths[i] == r;
        assert texts[i] in texts && r[1..] == [];
      }
    }
    ExactMembers(Preset(Obj(m), texts).fields, m, names, found);
  }

  lemma MetadataIsSelected(toolName: string, m: map<string, Value>)
    requires ToLower(TrimSpace(toolName)) != "grafana_get_dashboard"
    ensures View(toolName, Obj(m), "metadata") ==
            Members(m, {"id", "uid", "key", "name", "title", "url", "html_url", "web_url", "number", "repo"})
  {
    NamesAreSelected(m, METADATA,
      {"id", "uid", "key", "name", "title", "url", "html_url", "web_url", "number", "repo"});
  }

  lemma SummaryIsSelected(toolName: string, m: map<string, Value>)
    requires ToLower(TrimSpace(toolName)) != "grafana_get_dashboard"
    ensures View(toolName, Obj(m), "summary") ==
            Members(m, {"id", "uid", "key", "name", "title", "summary", "description", "url", "html_url", "web_url",
                        "state", "status", "created", "updated"})
  {
    NamesAreSelected(m, SUMMARY,
      {"id", "uid", "key", "name", "title", "summary", "description", "url", "html_url", "web_url",
       "state", "status", "created", "updated"});
  }

  function Two(a: string, b: string): Path {
    [Field(a), Field(b)]
  }

  lemma PrintsOne(a: string)
    ensures PrintDotted([Field(a)]) == a
  {
    assert [Field(a)][1..] == [];
  }

  lemma PrintsTwo(a: string, b: string, text: string)
    requires Plain(a) && Plain(b) && text == a + ("." + b)
    ensures AllPlain(Two(a, b)) && PrintDotted(Two(a, b)) == text
  {
    PrintsOne(b);
    assert Two(a, b)[1..] == [Field(b)];
  }

  lemma PrintsThree(a: string, b: string, c: string, text: string)
    requires Plain(a) && Plain(b) && Plain(c) && text == a + ("." + (b + ("." + c)))
    ensures AllPlain([Field(a), Field(b), Field(c)]) && PrintDotted([Field(a), Field(b), Field(c)]) == text
  {
    PrintsTwo(b, c, b + ("." + c));
    assert [Field(a), Field(b), Field(c)][1..] == Two(b, c);
  }

  lemma DashboardWords()
    ensures Plain("dashboard") && Plain("meta") && Plain("uid") && Plain("title") && Plain("slug")
    ensures Plain("tags") && Plain("time") && Plain("templating") && Plain("list")
  {
  }

  const DASHBOARD: seq<Path> := [Two("dashboard", "uid"), Two("dashboard", "title"), Two("meta", "slug")]
  const DASHBOARD_MORE: seq<Path> := [
    Two("meta", "slug"), Two("dashboard", "uid"), Two("dashboard", "title"), Two("dashboard", "tags"),
    Two("dashboard", "time"), [Field("dashboard"), Field("templating"), Field("list")]]

  predicate PrintsAt(text: string, path: Path) {
    AllPlain(path) && text == PrintDotted(path)
  }

  lemma DashboardPrints()
    ensures PrintsAt("dashboard.uid", Two("dashboard", "uid")) && PrintsAt("dashboard.title", Two("dashboard", "title"))
    ensures PrintsAt("meta.slug", Two("meta", "slug"))
  {
    DashboardWords();
    PrintsTwo("dashboard", "uid", "dashboard.uid");
    PrintsTwo("dashboard", "title", "dashboard.title");
    PrintsTwo("meta", "slug", "meta.slug");
  }

  lemma DashboardMorePrints()
    ensures PrintsAt("dashboard.tags", Two("dashboard", "tags")) && PrintsAt("dashboard.time", Two("dashboard", "time"))
    ensures PrintsAt("dashboard.templating.list", [Field("dashboard"), Field("templating"), Field("list")])
  {
    DashboardWords();
    PrintsTwo("dashboard", "tags", "dashboard.tags");
    PrintsTwo("dashboard", "time", "dashboard.time");
    PrintsThree("dashboard", "templating", "list", "dashboard.templating.list");
  }

  lemma AllPrint(texts: seq<string>, paths: seq<Path>)
    requires |texts| == |paths| && forall e :: 0 <= e < |texts| ==> PrintsAt(texts[e], paths[e])
    ensures Prints(texts, paths)
  {
    forall e | 0 <= e < |texts| ensures AllPlain(paths[e]) && texts[e] == PrintDotted(paths[e]) {
      assert PrintsAt(texts[e], paths[e]);
    }
  }

  /** The presets of a dashboard: the output shows these paths, as far as they are there, and objects on the
      way. */
  lemma DashboardMetadataIsSelected(toolName: string, v: Value, found: set<Path>)
    requires ToLower(TrimSpace(toolName)) == "grafana_get_dashboard" && v.Obj?
    requires forall r :: r in found <==> r in DASHBOARD && Get(v, r).Some?
    ensures View(toolName, v, "metadata").Obj? && Exact(View(toolName, v, "metadata").fields, v, found)
  {
    DashboardPrints();
    AllPrint(DASHBOARD_METADATA, DASHBOARD);
    PresetShows(v, DASHBOARD_METADATA, DASHBOARD, found);
  }

  lemma DashboardSummaryIsSelected(toolName: string, v: Value, found: set<Path>)
    requires ToLower(TrimSpace(toolName)) == "grafana_get_dashboard" && v.Obj?
    requires forall r :: r in found <==> r in DASHBOARD_MORE && Get(v, r).Some?
    ensures View(toolName, v, "summary").Obj? && Exact(View(toolName, v, "summary").fields, v, found)
  {
    DashboardPrints();
    DashboardMorePrints();
    AllPrint(DASHBOARD_SUMMARY, DASHBOARD_MORE);
    PresetShows(v, DASHBOARD_SUMMARY, DASHBOARD_MORE, found);
  }

  /** Include paths select the exact sub-document of what the preset leaves. */
  lemma IncludedIsSelected(toolName: string, v: Value, opts: Options, viewed: Value, selected: Value)
    requires viewed == View(toolName, v, ToLower(TrimSpace(opts.view))) && viewed.Obj? && opts.includeFields != []
    requires Selected(toolName, v, opts) == Some(selected)
    ensures selected.Obj? && Exact(selected.fields, viewed, FoundPaths(viewed, opts.includeFields))
  {
    IncludeIsExact(viewed, opts.includeFields);
  }

  /** The pipeline fails exactly for a path that does not parse, or an include path that is found and has an
      index. */
  lemma FailsIff(toolName: string, v: Value, opts: Options, viewed: Value)
    requires viewed == View(toolName, v, ToLower(TrimSpace(opts.view))) && viewed.Obj?
    ensures Shape(toolName, v, opts).Some? <==>
            && (forall t :: t in opts.includeFields ==> Includable(viewed, t))
            && (forall t :: t in opts.excludeFields ==> Parse(t).Some?)
            && forall t :: t in opts.redact ==> Parse(t).Some?
  {
    IncludeIsExact(viewed, opts.includeFields);
    if Selected(toolName, v, opts).Some? {
      var selected := Selected(toolName, v, opts).value;
      RemoveAllParses(selected, opts.excludeFields);
      if RemoveAll(selected, opts.excludeFields).Some? {
        RedactAllParses(RemoveAll(selected, opts.excludeFields).value, opts.redact);
      }
    }
  }

  lemma {:induction false} RemoveAllParses(v: Value, texts: seq<string>)
    ensures RemoveAll(v, texts).Some? <==> forall t :: t in texts ==> Parse(t).Some?
    decreases |texts|
  {
    if texts != [] {
      assert forall t :: t in texts <==> t == texts[0] || t in texts[1..];
      if Parse(texts[0]).Some? { RemoveAllParses(Remove(v, Parse(texts[0]).value), texts[1..]); }
    }
  }

  lemma {:induction false} RedactAllParses(v: Value, texts: seq<string>)
    ensures RedactAll(v, texts).Some? <==> forall t :: t in texts ==> Parse(t).Some?
    decreases |texts|
  {
    if texts != [] {
      assert forall t :: t in texts <==> t == texts[0] || t in texts[1..];
      if Parse(texts[0]).Some? { RedactAllParses(Set(v, Parse(texts[0]).value, REDACTED), texts[1..]); }
    }
  }
}
