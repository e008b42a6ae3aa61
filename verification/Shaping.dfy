/** Output shaping of tool results: read, write, remove and include by path, and truncation, on JSON
    trees. The Go code writes into the tree it is given; here a write yields the new tree, and the
    modules InPlace and IncludeRefinement relate the two. */
module Shaping {
  import opened Text
  import opened Json
  import opened Paths

  const REDACTED := Str("[REDACTED]")

  // ----- reading and writing by path

  function Get(v: Value, path: Path): Option<Value> {
    if path == [] then Some(v)
    else
      match path[0]
      case Index(i) => if v.Arr? && 0 <= i < |v.items| then Get(v.items[i], path[1..]) else None
      case Field(f) => if v.Obj? && f in v.fields then Get(v.fields[f], path[1..]) else None
  }

  function Set(v: Value, path: Path, x: Value): Value {
    if path == [] then v
    else
      match path[0]
      case Index(i) =>
        if !v.Arr? || !(0 <= i < |v.items|) then v
        else if |path| == 1 then Arr(v.items[i := x])
        else Arr(v.items[i := Set(v.items[i], path[1..], x)])
      case Field(f) =>
        if !v.Obj? then v
        else if |path| == 1 then Obj(v.fields[f := x])
        else if f !in v.fields then v
        else Obj(v.fields[f := Set(v.fields[f], path[1..], x)])
  }

  function Remove(v: Value, path: Path): Value {
    if path == [] then v
    else
      match path[0]
      case Index(i) =>
        if !v.Arr? || !(0 <= i < |v.items|) then v
        else if |path| == 1 then Arr(v.items[i := Null])
        else Arr(v.items[i := Remove(v.items[i], path[1..])])
      case Field(f) =>
        if !v.Obj? || f !in v.fields then v
        else if |path| == 1 then Obj(v.fields - {f})
        else Obj(v.fields[f := Remove(v.fields[f], path[1..])])
  }

  /** The cursor loop of the reader. */
  method GetPath(v: Value, path: Path) returns (r: Option<Value>)
    ensures r == Get(v, path)
  {
    var cur := v;
    for k := 0 to |path|
      invariant Get(v, path) == Get(cur, path[k..])
    {
      assert path[k..][1..] == path[k + 1..];
      match path[k] {
        case Index(i) =>
          if !cur.Arr? || i < 0 || i >= |cur.items| { return None; }
          cur := cur.items[i];
        case Field(f) =>
          if !cur.Obj? || f !in cur.fields { return None; }
          cur := cur.fields[f];
      }
    }
    r := Some(cur);
  }

  /** Whether a write at the path finds its container: an array long enough or an object. */
  predicate Accepts(v: Value, path: Path) {
    path != [] &&
    match path[0]
    case Index(i) => v.Arr? && 0 <= i < |v.items| && (|path| == 1 || Accepts(v.items[i], path[1..]))
    case Field(f) => v.Obj? && (|path| == 1 || (f in v.fields && Accepts(v.fields[f], path[1..])))
  }

  /** The lens laws in one: reading p after writing x at q. */
  predicate LensLaw(v: Value, q: Path, x: Value, p: Path) {
    Get(Set(v, q, x), p) ==
    if !Accepts(v, q) then Get(v, p)
    else if q <= p then Get(x, p[|q|..])
    else if p <= q then (match Get(v, p) case None => None case Some(u) => Some(Set(u, q[|p|..], x)))
    else Get(v, p)
  }

  lemma {:induction false} GetAfterSet(v: Value, q: Path, x: Value, p: Path)
    ensures LensLaw(v, q, x, p)
    decreases |q|
  {
    if !Accepts(v, q) {
      SetRefused(v, q, x);
    } else if p == [] {
      assert q[0..] == q;
    } else if p[0] != q[0] {
      SetApart(v, q, x, p);
    } else if |q| == 1 {
      assert q[1..] == [] && p[1..] == p[|q|..];
    } else {
      GetAfterSet(Child(v, q[0]), q[1..], x, p[1..]);
      LensLawAbove(v, q, x, p);
    }
  }

  function Child(v: Value, s: Seg): Value
    requires Accepts(v, [s]) && (s.Field? ==> s.name in v.fields)
  {
    if s.Index? then v.items[s.i] else v.fields[s.name]
  }

  lemma LensLawAbove(v: Value, q: Path, x: Value, p: Path)
    requires Accepts(v, q) && |q| > 1 && p != [] && p[0] == q[0]
    requires LensLaw(Child(v, q[0]), q[1..], x, p[1..])
    ensures LensLaw(v, q, x, p)
  {
    PrefixTail(q, p);
    PrefixTail(p, q);
    SetDescends(v, q, x, p);
  }

  lemma SetDescends(v: Value, q: Path, x: Value, p: Path)
    requires Accepts(v, q) && |q| > 1 && p != [] && p[0] == q[0]
    ensures var u := Child(v, q[0]);
            Get(Set(v, q, x), p) == Get(Set(u, q[1..], x), p[1..]) && Get(v, p) == Get(u, p[1..])
            && Accepts(u, q[1..])
  {
  }

  lemma SetApart(v: Value, q: Path, x: Value, p: Path)
    requires Accepts(v, q) && p != [] && p[0] != q[0]
    ensures Get(Set(v, q, x), p) == Get(v, p)
  {
  }

  lemma PrefixTail(a: Path, b: Path)
    requires a != [] && b != [] && a[0] == b[0]
    ensures a <= b <==> a[1..] <= b[1..]
    ensures a <= b ==> b[1..][|a| - 1..] == b[|a|..]
  {
    assert a == [a[0]] + a[1..] && b == [b[0]] + b[1..];
  }

  lemma {:induction false} SetRefused(v: Value, q: Path, x: Value)
    requires !Accepts(v, q)
    ensures Set(v, q, x) == v
    decreases |q|
  {
    if q != [] {
      match q[0] {
        case Index(i) => if v.Arr? && 0 <= i < |v.items| && |q| > 1 { SetRefused(v.items[i], q[1..], x); }
        case Field(f) => if v.Obj? && f in v.fields && |q| > 1 { SetRefused(v.fields[f], q[1..], x); }
      }
    }
  }

  // ----- redaction

  /** Nothing can be read at the path but the redaction mark. */
  predicate Hidden(v: Value, path: Path) {
    Get(v, path) == None || Get(v, path) == Some(REDACTED)
  }

  lemma RedactHides(v: Value, path: Path)
    requires path != []
    ensures Hidden(Set(v, path, REDACTED), path)
  {
    GetAfterSet(v, path, REDACTED, path);
    if !Accepts(v, path) { RefusedIsAbsent(v, path); }
  }

  lemma {:induction false} RefusedIsAbsent(v: Value, q: Path)
    requires q != [] && !Accepts(v, q)
    ensures Get(v, q) == None
    decreases |q|
  {
    match q[0] {
      case Index(i) => if v.Arr? && 0 <= i < |v.items| && |q| > 1 { RefusedIsAbsent(v.items[i], q[1..]); }
      case Field(f) => if v.Obj? && f in v.fields && |q| > 1 { RefusedIsAbsent(v.fields[f], q[1..]); }
    }
  }

  lemma {:induction false} AcceptedReaches(v: Value, q: Path, p: Path)
    requires Accepts(v, q) && p <= q && p != q
    ensures Get(v, p).Some? && (Get(v, p).value.Obj? || Get(v, p).value.Arr?)
    decreases |q|
  {
    if p != [] {
      PrefixTail(p, q);
      AcceptedReaches(if q[0].Index? then v.items[q[0].i] else v.fields[q[0].name], q[1..], p[1..]);
    }
  }

  /** A later redaction, of whatever overlapping path, uncovers nothing. */
  lemma RedactKeepsHidden(v: Value, q: Path, p: Path)
    requires Hidden(v, p)
    ensures Hidden(Set(v, q, REDACTED), p)
  {
    GetAfterSet(v, q, REDACTED, p);
    if Accepts(v, q) {
      if q <= p {
        assert p[|q|..] == [] || Get(REDACTED, p[|q|..]) == None;
      } else if p <= q {
        AcceptedReaches(v, q, p);
      }
    }
  }

  // ----- truncation

  const TRUNCATED := Str("<truncated>")

  function TruncateDepth(v: Value, depth: nat, maxDepth: int): Value
    decreases v
  {
    if maxDepth <= 0 then v
    else if depth >= maxDepth then (if v.Obj? || v.Arr? then TRUNCATED else v)
    else
      match v
      case Obj(m) => Obj(map k | k in m :: TruncateDepth(m[k], depth + 1, maxDepth))
      case Arr(a) => Arr(seq(|a|, i requires 0 <= i < |a| => TruncateDepth(a[i], depth + 1, maxDepth)))
      case _ => v
  }

  /** Arrays are cut; elements of arrays are not looked into. */
  function TruncateItems(v: Value, maxItems: int): Value
    decreases v
  {
    if maxItems <= 0 then v
    else
      match v
      case Arr(a) => if |a| <= maxItems then v else Arr(a[..maxItems])
      case Obj(m) => Obj(map k | k in m :: TruncateItems(m[k], maxItems))
      case _ => v
  }

  /** What truncation may do to a reading: nothing, hide it, or mark a container as truncated. */
  predicate Coarser(after: Option<Value>, before: Option<Value>) {
    after == None || (after.Some? && before.Some? && (after == before || before.value.Obj? || before.value.Arr?))
  }

  lemma {:induction false} DepthCoarsens(v: Value, depth: nat, maxDepth: int, p: Path)
    ensures Coarser(Get(TruncateDepth(v, depth, maxDepth), p), Get(v, p))
    decreases |p|
  {
    if p != [] && 0 < maxDepth && depth < maxDepth {
      match p[0] {
        case Index(i) => if v.Arr? && 0 <= i < |v.items| { DepthCoarsens(v.items[i], depth + 1, maxDepth, p[1..]); }
        case Field(f) => if v.Obj? && f in v.fields { DepthCoarsens(v.fields[f], depth + 1, maxDepth, p[1..]); }
      }
    }
  }

  lemma {:induction false} ItemsCoarsen(v: Value, maxItems: int, p: Path)
    ensures Coarser(Get(TruncateItems(v, maxItems), p), Get(v, p))
    decreases |p|
  {
    if p != [] && 0 < maxItems && p[0].Field? && v.Obj? && p[0].name in v.fields {
      ItemsCoarsen(v.fields[p[0].name], maxItems, p[1..]);
    }
  }

  // ----- exclusion

  /** Nothing of the tool's data can be read at the path: an array element is left as null. */
  predicate Gone(v: Value, path: Path) {
    Hidden(v, path) || (path != [] && path[|path| - 1].Index? && Get(v, path) == Some(Null))
  }

  lemma {:induction false} GetAfterRemove(v: Value, q: Path, p: Path)
    requires q != []
    ensures Get(Remove(v, q), p) ==
            if Get(v, q).None? then Get(v, p)
            else if q <= p then (if q[|q| - 1].Field? then None else Get(Null, p[|q|..]))
            else if p <= q then (match Get(v, p) case None => None case Some(u) => Some(Remove(u, q[|p|..])))
            else Get(v, p)
    decreases |q|
  {
    if Get(v, q).None? {
      RemoveOfAbsent(v, q);
    } else if p == [] {
      assert q[0..] == q;
    } else if p[0] == q[0] {
      PrefixTail(q, p);
      PrefixTail(p, q);
      if |q| == 1 {
        assert q[1..] == [] && p[1..] == p[|q|..];
      } else {
        var u := if q[0].Index? then v.items[q[0].i] else v.fields[q[0].name];
        GetAfterRemove(u, q[1..], p[1..]);
        if q <= p { assert p[1..][|q| - 1..] == p[|q|..]; }
        if p <= q { assert q[1..][|p| - 1..] == q[|p|..]; }
      }
    }
  }

  lemma {:induction false} RemoveOfAbsent(v: Value, q: Path)
    requires q != [] && Get(v, q).None?
    ensures Remove(v, q) == v
    decreases |q|
  {
    if |q| > 1 {
      match q[0] {
        case Index(i) => if v.Arr? && 0 <= i < |v.items| { RemoveOfAbsent(v.items[i], q[1..]); }
        case Field(f) => if v.Obj? && f in v.fields { RemoveOfAbsent(v.fields[f], q[1..]); }
      }
    }
  }

  lemma {:induction false} ReachedThrough(v: Value, q: Path, p: Path)
    requires Get(v, q).Some? && p <= q && p != q
    ensures Get(v, p).Some? && (Get(v, p).value.Obj? || Get(v, p).value.Arr?)
    decreases |q|
  {
    if p != [] {
      PrefixTail(p, q);
      ReachedThrough(if q[0].Index? then v.items[q[0].i] else v.fields[q[0].name], q[1..], p[1..]);
    }
  }

  lemma RemoveKeepsGone(v: Value, q: Path, p: Path)
    requires q != [] && (Gone(v, p) || p == q)
    ensures Gone(Remove(v, q), p)
  {
    GetAfterRemove(v, q, p);
    if Get(v, q).Some? {
      if q <= p {
        if |p| == |q| { assert p == q; }
      } else if p <= q {
        ReachedThrough(v, q, p);
      }
    }
  }

  lemma RedactKeepsGone(v: Value, q: Path, p: Path)
    requires Gone(v, p)
    ensures Gone(Set(v, q, REDACTED), p)
  {
    GetAfterSet(v, q, REDACTED, p);
    if Accepts(v, q) {
      if q <= p {
        assert p[|q|..] == [] || Get(REDACTED, p[|q|..]) == None;
      } else if p <= q {
        AcceptedReaches(v, q, p);
      }
    }
  }

  // ----- inclusion

  predicate AllFields(path: Path) {
    forall s :: s in path ==> s.Field?
  }

  /** The object that an include path finds or makes behind a field. */
  function Inner(dst: map<string, Value>, f: string): map<string, Value> {
    if f in dst && dst[f].Obj? then dst[f].fields else map[]
  }

  /** Writes into a nested map, creating the maps on the way. */
  function SetInto(dst: map<string, Value>, path: Path, x: Value): map<string, Value>
    requires AllFields(path)
    decreases |path|
  {
    if path == [] then dst
    else
      assert path[0] in path && AllFields(path[1..]);
      var f := path[0].name;
      if |path| == 1 then dst[f := x]
      else
        dst[f := Obj(SetInto(Inner(dst, f), path[1..], x))]
  }

  /** One include path; None is an error. */
  function IncludeOne(out: map<string, Value>, v: Value, p: string): Option<map<string, Value>> {
    if TrimSpace(p) == "" then Some(out)
    else
      match Parse(TrimSpace(p))
      case None => None
      case Some(path) =>
        if Get(v, path).None? then Some(out)
        else if !AllFields(path) then None
        else Some(SetInto(out, path, Get(v, path).value))
  }

  function IncludeAll(out: map<string, Value>, v: Value, paths: seq<string>): Option<map<string, Value>>
    decreases |paths|
  {
    if paths == [] then Some(out)
    else
      match IncludeOne(out, v, paths[0])
      case None => None
      case Some(o) => IncludeAll(o, v, paths[1..])
  }

  function Include(v: Value, paths: seq<string>): Option<Value> {
    if !v.Obj? && !v.Arr? then Some(v)
    else
      match IncludeAll(map[], v, paths)
      case None => None
      case Some(out) => Some(Obj(out))
  }

  method ApplyInclude(v: Value, paths: seq<string>) returns (r: Option<Value>)
    ensures r == Include(v, paths)
  {
    if !v.Obj? && !v.Arr? { return Some(v); }
    var out := map[];
    for k := 0 to |paths|
      invariant IncludeAll(map[], v, paths) == IncludeAll(out, v, paths[k..])
    {
      assert paths[k..][1..] == paths[k + 1..];
      var p := TrimSpace(paths[k]);
      if p != "" {
        var path := ParsePath(p);
        if path.None? { return None; }
        var val := GetPath(v, path.value);
        if val.Some? {
          if !AllFields(path.value) { return None; }
          out := SetInto(out, path.value, val.value);
        }
      }
    }
    r := Some(Obj(out));
  }

  /** No value on the way to the path is anything but an object. */
  predicate Clear(dst: map<string, Value>, p: Path)
    decreases |p|
  {
    |p| <= 1 || (p[0].Field? && (p[0].name in dst ==> dst[p[0].name].Obj? && Clear(dst[p[0].name].fields, p[1..])))
  }

  /** Reading q after an include of p. */
  predicate IncludeLaw(dst: map<string, Value>, p: Path, x: Value, q: Path)
    requires AllFields(p)
  {
    var after := Get(Obj(SetInto(dst, p, x)), q);
    if p <= q then after == Get(x, q[|p|..])
    else if q <= p then after.Some? && after.value.Obj?
    else after == Get(Obj(dst), q)
  }

  lemma {:induction false} GetAfterSetInto(dst: map<string, Value>, p: Path, x: Value, q: Path)
    requires AllFields(p) && p != [] && q != [] && Clear(dst, p)
    ensures IncludeLaw(dst, p, x, q)
    decreases |p|
  {
    assert p[0] in p && AllFields(p[1..]);
    if q[0] == p[0] {
      if |p| == 1 {
        IncludeHere(dst, p, x, q);
      } else if |q| > 1 {
        GetAfterSetInto(Inner(dst, p[0].name), p[1..], x, q[1..]);
        IncludeLawAbove(dst, p, x, q);
      } else {
        IncludeOnTheWay(dst, p, x, q);
      }
    } else {
      IncludeApart(dst, p, x, q);
    }
  }

  lemma IncludeHere(dst: map<string, Value>, p: Path, x: Value, q: Path)
    requires AllFields(p) && |p| == 1 && q != [] && p[0] == q[0] && p[0].Field?
    ensures IncludeLaw(dst, p, x, q)
  {
    PrefixTail(p, q);
    assert q[1..] == q[|p|..];
  }

  lemma IncludeOnTheWay(dst: map<string, Value>, p: Path, x: Value, q: Path)
    requires |p| > 1 && |q| == 1 && p[0] == q[0] && p[0].Field? && AllFields(p)
    ensures IncludeLaw(dst, p, x, q)
  {
    assert q == p[..1];
    assert AllFields(p[1..]);
  }

  lemma IncludeApart(dst: map<string, Value>, p: Path, x: Value, q: Path)
    requires AllFields(p) && p != [] && q != [] && p[0] != q[0] && p[0].Field?
    ensures IncludeLaw(dst, p, x, q)
  {
  }

  lemma IncludeLawAbove(dst: map<string, Value>, p: Path, x: Value, q: Path)
    requires |p| > 1 && |q| > 1 && AllFields(p) && AllFields(p[1..]) && p[0] == q[0] && p[0].Field? && Clear(dst, p)
    requires IncludeLaw(Inner(dst, p[0].name), p[1..], x, q[1..])
    ensures IncludeLaw(dst, p, x, q)
  {
    PrefixTail(p, q);
    PrefixTail(q, p);
    IncludeDescends(dst, p, x, q);
  }

  lemma IncludeDescends(dst: map<string, Value>, p: Path, x: Value, q: Path)
    requires |p| > 1 && |q| > 1 && AllFields(p) && AllFields(p[1..]) && p[0] == q[0] && p[0].Field? && Clear(dst, p)
    ensures var inner := Inner(dst, p[0].name);
            && Get(Obj(SetInto(dst, p, x)), q) == Get(Obj(SetInto(inner, p[1..], x)), q[1..])
            && (p[0].name in dst ==> Get(Obj(dst), q) == Get(Obj(inner), q[1..]))
            && (p[0].name !in dst ==> Get(Obj(dst), q) == None == Get(Obj(inner), q[1..]))
  {
    assert q[1..] != [];
  }

  /** Including what is already there changes nothing; so a later include path that runs through a
      value shared with the input writes back into it what it holds. */
  lemma {:induction false} IncludeAgain(dst: map<string, Value>, p: Path, x: Value)
    requires AllFields(p) && Get(Obj(dst), p) == Some(x)
    ensures SetInto(dst, p, x) == dst
    decreases |p|
  {
    if p != [] {
      assert p[0] in p && AllFields(p[1..]);
      if |p| > 1 { IncludeAgain(dst[p[0].name].fields, p[1..], x); }
    }
  }

  /** a is b with some object entries left out. */
  predicate SubDocument(a: Value, b: Value)
    decreases a
  {
    a == b ||
    (a.Obj? && b.Obj? && forall k :: k in a.fields ==> k in b.fields && SubDocument(a.fields[k], b.fields[k]))
  }

  lemma {:induction false} IncludeStaysSub(dst: map<string, Value>, v: Value, p: Path, x: Value)
    requires AllFields(p) && SubDocument(Obj(dst), v) && v.Obj? && Get(v, p) == Some(x)
    ensures SubDocument(Obj(SetInto(dst, p, x)), v)
    decreases |p|
  {
    if p != [] {
      assert p[0] in p && AllFields(p[1..]);
      var f := p[0].name;
      var after := SetInto(dst, p, x);
      if |p| == 1 {
        assert p[1..] == [];
        assert SubDocument(after[f], v.fields[f]);
      } else {
        var inner := Inner(dst, f);
        assert SubDocument(Obj(inner), v.fields[f]);
        IncludeStaysSub(inner, v.fields[f], p[1..], x);
      }
      forall k | k in after ensures k in v.fields && SubDocument(after[k], v.fields[k]) {
        if k != f { assert k in dst; }
      }
    }
  }

  /** The branch that would replace a value that is not an object is never taken. */
  lemma {:induction false} IncludeIsClear(dst: map<string, Value>, v: Value, p: Path)
    requires AllFields(p) && SubDocument(Obj(dst), v) && v.Obj? && Get(v, p).Some?
    ensures Clear(dst, p)
    decreases |p|
  {
    if |p| > 1 {
      assert p[0] in p && p[1] in p && AllFields(p[1..]);
      assert p[1..][0] == p[1];
      if p[0].name in dst {
        assert SubDocument(dst[p[0].name], v.fields[p[0].name]);
        IncludeIsClear(dst[p[0].name].fields, v.fields[p[0].name], p[1..]);
      }
    }
  }

  ghost predicate Above(found: set<Path>, q: Path) {
    exists p :: p in found && p <= q
  }

  ghost predicate Below(found: set<Path>, q: Path) {
    exists p :: p in found && q <= p
  }

  /** What the output must show at q, for the include paths that were found so far. */
  ghost predicate Shows(out: map<string, Value>, v: Value, found: set<Path>, q: Path) {
    if Above(found, q) then Get(Obj(out), q) == Get(v, q)
    else if Below(found, q) then Get(Obj(out), q).Some? && Get(Obj(out), q).value.Obj?
    else Get(Obj(out), q) == None
  }

  ghost predicate Exact(out: map<string, Value>, v: Value, found: set<Path>) {
    && SubDocument(Obj(out), v)
    && forall q :: q != [] ==> Shows(out, v, found, q)
  }

  lemma {:induction false} GetAppends(v: Value, p: Path, q: Path)
    requires p <= q && Get(v, p).Some?
    ensures Get(v, q) == Get(Get(v, p).value, q[|p|..])
    decreases |p|
  {
    if p == [] {
      assert q[0..] == q;
    } else {
      PrefixTail(p, q);
      GetAppends(if p[0].Index? then v.items[p[0].i] else v.fields[p[0].name], p[1..], q[1..]);
      assert q[1..][|p| - 1..] == q[|p|..];
    }
  }

  lemma ShowsAfterInclude(out: map<string, Value>, v: Value, found: set<Path>, p: Path, q: Path)
    requires v.Obj? && Exact(out, v, found) && p != [] && AllFields(p) && Get(v, p).Some? && q != []
    ensures Shows(SetInto(out, p, Get(v, p).value), v, found + {p}, q)
  {
    var x := Get(v, p).value;
    assert Shows(out, v, found, q) && Shows(out, v, found, p);
    IncludeIsClear(out, v, p);
    GetAfterSetInto(out, p, x, q);
    if p <= q {
      assert p in found + {p};
      GetAppends(v, p, q);
    } else if exists r :: r in found && r <= q {
      var r :| r in found && r <= q;
      assert r in found + {p};
      if q <= p {
        PrefixTransitive(r, q, p);
        IncludeAgain(out, p, x);
      }
    } else {
      assert forall r :: r in found + {p} && r <= q ==> r in found || r == p;
      if q <= p { assert p in found + {p}; }
      if exists r :: r in found && q <= r {
        var r :| r in found && q <= r;
        assert r in found + {p};
      }
    }
  }

  lemma PrefixTransitive(a: Path, b: Path, c: Path)
    requires a <= b && b <= c
    ensures a <= c
  {
  }

  lemma IncludeKeepsExact(out: map<string, Value>, v: Value, found: set<Path>, p: Path)
    requires v.Obj? && Exact(out, v, found) && p != [] && AllFields(p) && Get(v, p).Some?
    ensures Exact(SetInto(out, p, Get(v, p).value), v, found + {p})
  {
    IncludeStaysSub(out, v, p, Get(v, p).value);
    forall q | q != [] ensures Shows(SetInto(out, p, Get(v, p).value), v, found + {p}, q) {
      ShowsAfterInclude(out, v, found, p, q);
    }
  }

  /** A blank path, or one that parses and, if it is present in the document, has fields only. */
  predicate Includable(v: Value, p: string) {
    var t := TrimSpace(p);
    t != "" ==> Parse(t).Some? && (Get(v, Parse(t).value).Some? ==> AllFields(Parse(t).value))
  }

  /** The parsed include path, if it is present in the document and leads into it. */
  function FoundPath(v: Value, p: string): set<Path> {
    var t := TrimSpace(p);
    if t != "" && Parse(t).Some? && Parse(t).value != [] && Get(v, Parse(t).value).Some? then {Parse(t).value} else {}
  }

  function FoundPaths(v: Value, paths: seq<string>): set<Path> {
    if paths == [] then {} else FoundPath(v, paths[0]) + FoundPaths(v, paths[1..])
  }

  lemma {:induction false} IncludeAllIsExact(out: map<string, Value>, v: Value, found: set<Path>, paths: seq<string>)
    requires v.Obj? && Exact(out, v, found)
    ensures var r := IncludeAll(out, v, paths);
            && (r.Some? <==> forall p :: p in paths ==> Includable(v, p))
            && (r.Some? ==> Exact(r.value, v, found + FoundPaths(v, paths)))
    decreases |paths|
  {
    if paths == [] {
      assert found + {} == found;
    } else {
      var rest := FoundPaths(v, paths[1..]);
      assert forall p :: p in paths <==> p == paths[0] || p in paths[1..];
      assert (found + FoundPath(v, paths[0])) + rest == found + (FoundPath(v, paths[0]) + rest);
      if Includable(v, paths[0]) {
        var o := IncludeOne(out, v, paths[0]).value;
        IncludeOneIsExact(out, v, found, paths[0]);
        IncludeAllIsExact(o, v, found + FoundPath(v, paths[0]), paths[1..]);
      }
    }
  }

  lemma IncludeOneIsExact(out: map<string, Value>, v: Value, found: set<Path>, p: string)
    requires v.Obj? && Exact(out, v, found) && Includable(v, p)
    ensures IncludeOne(out, v, p).Some? && Exact(IncludeOne(out, v, p).value, v, found + FoundPath(v, p))
  {
    var t := TrimSpace(p);
    if FoundPath(v, p) != {} {
      IncludeKeepsExact(out, v, found, Parse(t).value);
    } else {
      assert found + {} == found;
    }
  }

  /** The include succeeds exactly if all paths can be included. Then the output of an object is the exact
      sub-document: it agrees with the input wherever an include path leads, holds bare objects on the way
      there, and shows nothing else, however the paths overlap. */
  lemma IncludeIsExact(v: Value, paths: seq<string>)
    requires v.Obj?
    ensures var r := Include(v, paths);
            && (r.Some? <==> forall p :: p in paths ==> Includable(v, p))
            && (r.Some? ==> r.value.Obj? && Exact(r.value.fields, v, FoundPaths(v, paths)))
  {
    assert Exact(map[], v, {});
    IncludeAllIsExact(map[], v, {}, paths);
    assert {} + FoundPaths(v, paths) == FoundPaths(v, paths);
  }

  /** In an array only indices lead anywhere: the output is empty. */
  lemma {:induction false} IncludeOfArray(out: map<string, Value>, v: Value, paths: seq<string>)
    requires v.Arr?
    ensures var r := IncludeAll(out, v, paths);
            && (r.Some? <==> forall p :: p in paths ==> Includable(v, p))
            && (r.Some? ==> r.value == out && FoundPaths(v, paths) == {})
    decreases |paths|
  {
    if paths != [] {
      assert forall p :: p in paths <==> p == paths[0] || p in paths[1..];
      if Includable(v, paths[0]) {
        assert IncludeOne(out, v, paths[0]) == Some(out) && FoundPath(v, paths[0]) == {};
        IncludeOfArray(out, v, paths[1..]);
      }
    }
  }
}
