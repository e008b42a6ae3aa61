/** Writing and removing by path in place. A decoded JSON value is a heap of maps and slices; it may
    share parts with itself and with other values. */
module InPlace {
  import opened Text
  import opened Json
  import opened Paths
  import Shaping

  /** An `any`: a scalar, or a reference to a map or a slice. */
  datatype Any = Scalar(v: Value) | Ref(r: nat)
  datatype Cell = Map(fields: map<string, Any>) | List(items: seq<Any>)
  type Heap = map<nat, Cell>

  function Entry(c: Cell, s: Seg): Option<Any> {
    match s
    case Field(f) => if c.Map? && f in c.fields then Some(c.fields[f]) else None
    case Index(i) => if c.List? && 0 <= i < |c.items| then Some(c.items[i]) else None
  }

  function Child(h: Heap, a: Any, s: Seg): Option<Any> {
    if a.Ref? && a.r in h then Entry(h[a.r], s) else None
  }

  function Read(h: Heap, a: Any, path: Path): Option<Any>
    decreases |path|
  {
    if path == [] then Some(a)
    else
      match Read(h, a, Front(path))
      case None => None
      case Some(b) => Child(h, b, Last(path))
  }

  function Front(path: Path): Path
    requires path != []
  {
    path[..|path| - 1]
  }

  function Last(path: Path): Seg
    requires path != []
  {
    path[|path| - 1]
  }

  function Stored(c: Cell, s: Seg, x: Value): Cell {
    match s
    case Field(f) => if c.Map? then Map(c.fields[f := Scalar(x)]) else c
    case Index(i) => if c.List? && 0 <= i < |c.items| then List(c.items[i := Scalar(x)]) else c
  }

  function Deleted(c: Cell, s: Seg): Cell {
    match s
    case Field(f) => if c.Map? then Map(c.fields - {f}) else c
    case Index(i) => Stored(c, s, Null)
  }

  /** The container that the last segment of the path writes into. */
  function Target(h: Heap, a: Any, path: Path): Option<nat>
    requires path != []
  {
    var b := Read(h, a, Front(path));
    if b.Some? && b.value.Ref? && b.value.r in h then Some(b.value.r) else None
  }

  function Write(h: Heap, a: Any, path: Path, x: Value): Heap
    requires path != []
  {
    match Target(h, a, path)
    case None => h
    case Some(r) => h[r := Stored(h[r], Last(path), x)]
  }

  function Erase(h: Heap, a: Any, path: Path): Heap
    requires path != []
  {
    match Target(h, a, path)
    case None => h
    case Some(r) => h[r := Deleted(h[r], Last(path))]
  }

  class Memory {
    var heap: Heap

    /** The cursor walk over all segments but the last; None when it leaves the value. */
    method Descend(a: Any, path: Path) returns (cur: Option<Any>)
      requires path != []
      ensures cur == Read(heap, a, Front(path))
    {
      var at := a;
      for i := 0 to |path| - 1
        invariant Read(heap, a, path[..i]) == Some(at)
      {
        assert Front(path[..i + 1]) == path[..i] && Last(path[..i + 1]) == path[i];
        var next := Child(heap, at, path[i]);
        if next.None? {
          StaysLost(heap, a, path[..i + 1], Front(path));
          return None;
        }
        at := next.value;
      }
      cur := Some(at);
    }

    method SetPath(a: Any, path: Path, x: Value)
      modifies this
      ensures heap == if path == [] then old(heap) else Write(old(heap), a, path, x)
    {
      if |path| == 0 { return; }
      var cur := Descend(a, path);
      if cur.None? || !cur.value.Ref? || cur.value.r !in heap { return; }
      var c := heap[cur.value.r];
      match path[|path| - 1] {
        case Index(i) =>
          if !c.List? || i < 0 || i >= |c.items| {
            assert heap[cur.value.r := c] == heap;
            return;
          }
          heap := heap[cur.value.r := List(c.items[i := Scalar(x)])];
        case Field(f) =>
          if !c.Map? {
            assert heap[cur.value.r := c] == heap;
            return;
          }
          heap := heap[cur.value.r := Map(c.fields[f := Scalar(x)])];
      }
    }

    method RemovePath(a: Any, path: Path)
      modifies this
      ensures heap == if path == [] then old(heap) else Erase(old(heap), a, path)
    {
      if |path| == 0 { return; }
      var cur := Descend(a, path);
      if cur.None? || !cur.value.Ref? || cur.value.r !in heap { return; }
      var c := heap[cur.value.r];
      match path[|path| - 1] {
        case Index(i) =>
          if !c.List? || i < 0 || i >= |c.items| {
            assert heap[cur.value.r := c] == heap;
            return;
          }
          heap := heap[cur.value.r := List(c.items[i := Scalar(Null)])];
        case Field(f) =>
          if !c.Map? {
            assert heap[cur.value.r := c] == heap;
            return;
          }
          heap := heap[cur.value.r := Map(c.fields - {f})];
      }
    }
  }

  lemma {:induction false} StaysLost(h: Heap, a: Any, p: Path, q: Path)
    requires p <= q && Read(h, a, p).None?
    ensures Read(h, a, q).None?
    decreases |q|
  {
    if |p| < |q| {
      assert p <= Front(q);
      StaysLost(h, a, p, Front(q));
    } else {
      assert p == q;
    }
  }

  // ----- any sharing

  /** One entry of one cell became a scalar or nothing; all other entries stayed. */
  ghost predicate EditedAt(h: Heap, h': Heap, r: nat, s: Seg, y: Option<Any>) {
    && Child(h', Ref(r), s) == y && (y.Some? ==> y.value.Scalar?)
    && forall t: nat, s': Seg :: t != r || s' != s ==> Child(h', Ref(t), s') == Child(h, Ref(t), s')
  }

  lemma WriteEdits(h: Heap, a: Any, q: Path, x: Value)
    requires q != [] && Target(h, a, q).Some?
    ensures var y := Child(Write(h, a, q, x), Ref(Target(h, a, q).value), Last(q));
            && EditedAt(h, Write(h, a, q, x), Target(h, a, q).value, Last(q), y)
            && (y == None == Child(h, Ref(Target(h, a, q).value), Last(q)) || y == Some(Scalar(x)))
  {
  }

  lemma EraseEdits(h: Heap, a: Any, q: Path)
    requires q != [] && Target(h, a, q).Some?
    ensures var y := Child(Erase(h, a, q), Ref(Target(h, a, q).value), Last(q));
            && EditedAt(h, Erase(h, a, q), Target(h, a, q).value, Last(q), y)
            && y == if Read(h, a, q).None? || Last(q).Field? then None else Some(Scalar(Null))
  {
  }

  /** After an edit every path of every value in the heap reads as before, as what was written, or not
      at all. */
  lemma {:induction false} Rereads(h: Heap, h': Heap, r: nat, s: Seg, y: Option<Any>, b: Any, p: Path)
    requires EditedAt(h, h', r, s, y)
    ensures || Read(h', b, p) == Read(h, b, p) || Read(h', b, p) == None
            || (Read(h', b, p) == y && p != [] && Last(p) == s)
    decreases |p|
  {
    if p != [] { Rereads(h, h', r, s, y, b, Front(p)); }
  }

  /** Nothing but the redaction mark can be read at the path. */
  predicate Hidden(h: Heap, a: Any, p: Path) {
    Read(h, a, p) == None || Read(h, a, p) == Some(Scalar(Shaping.REDACTED))
  }

  /** Nothing of the data can be read at the path: an array element is left as null. */
  predicate Gone(h: Heap, a: Any, p: Path) {
    Hidden(h, a, p) || (p != [] && Last(p).Index? && Read(h, a, p) == Some(Scalar(Null)))
  }

  lemma RedactHides(h: Heap, a: Any, q: Path)
    requires q != []
    ensures Hidden(Write(h, a, q, Shaping.REDACTED), a, q)
  {
    if Target(h, a, q).Some? {
      var h', r := Write(h, a, q, Shaping.REDACTED), Target(h, a, q).value;
      WriteEdits(h, a, q, Shaping.REDACTED);
      Rereads(h, h', r, Last(q), Child(h', Ref(r), Last(q)), a, Front(q));
    }
  }

  /** Redacting through one value, anywhere, uncovers nothing in any value that shares parts with it. */
  lemma RedactKeepsHidden(h: Heap, a: Any, q: Path, b: Any, p: Path)
    requires q != []
    ensures Hidden(h, b, p) ==> Hidden(Write(h, a, q, Shaping.REDACTED), b, p)
    ensures Gone(h, b, p) ==> Gone(Write(h, a, q, Shaping.REDACTED), b, p)
  {
    if Target(h, a, q).Some? {
      var h', r := Write(h, a, q, Shaping.REDACTED), Target(h, a, q).value;
      WriteEdits(h, a, q, Shaping.REDACTED);
      Rereads(h, h', r, Last(q), Child(h', Ref(r), Last(q)), b, p);
    }
  }

  lemma EraseRemoves(h: Heap, a: Any, q: Path)
    requires q != []
    ensures Gone(Erase(h, a, q), a, q)
  {
    if Target(h, a, q).Some? {
      var h', r := Erase(h, a, q), Target(h, a, q).value;
      EraseEdits(h, a, q);
      Rereads(h, h', r, Last(q), Child(h', Ref(r), Last(q)), a, Front(q));
    }
  }

  lemma EraseKeepsGone(h: Heap, a: Any, q: Path, b: Any, p: Path)
    requires q != [] && Gone(h, b, p)
    ensures Gone(Erase(h, a, q), b, p)
  {
    if Target(h, a, q).Some? {
      var h', r := Erase(h, a, q), Target(h, a, q).value;
      EraseEdits(h, a, q);
      Rereads(h, h', r, Last(q), Child(h', Ref(r), Last(q)), b, p);
    }
  }

  function RedactAll(h: Heap, a: Any, paths: seq<Path>): Heap {
    if paths == [] then h
    else
      var before := RedactAll(h, a, paths[..|paths| - 1]);
      var q := paths[|paths| - 1];
      if q == [] then before else Write(before, a, q, Shaping.REDACTED)
  }

  function EraseAll(h: Heap, a: Any, paths: seq<Path>): Heap {
    if paths == [] then h
    else
      var before := EraseAll(h, a, paths[..|paths| - 1]);
      var q := paths[|paths| - 1];
      if q == [] then before else Erase(before, a, q)
  }

  lemma {:induction false} RedactAllHides(h: Heap, a: Any, paths: seq<Path>, p: Path)
    requires p != []
    ensures p in paths ==> Hidden(RedactAll(h, a, paths), a, p)
    ensures Gone(h, a, p) ==> Gone(RedactAll(h, a, paths), a, p)
  {
    if paths != [] {
      var n := |paths| - 1;
      var q, before := paths[n], RedactAll(h, a, paths[..n]);
      RedactAllHides(h, a, paths[..n], p);
      assert p in paths ==> p == q || p in paths[..n];
      if q != [] {
        RedactKeepsHidden(before, a, q, a, p);
        if p == q { RedactHides(before, a, q); }
      }
    }
  }

  lemma {:induction false} EraseAllRemoves(h: Heap, a: Any, paths: seq<Path>, p: Path)
    requires p != []
    ensures p in paths ==> Gone(EraseAll(h, a, paths), a, p)
  {
    if paths != [] {
      var n := |paths| - 1;
      var q, before := paths[n], EraseAll(h, a, paths[..n]);
      EraseAllRemoves(h, a, paths[..n], p);
      assert p in paths ==> p == q || p in paths[..n];
      if q != [] {
        if p == q { EraseRemoves(before, a, q); } else if p in paths { EraseKeepsGone(before, a, q, a, p); }
      }
    }
  }

  /** However the result shares parts with itself or with others, every excluded and every redacted
      path shows nothing of the data after the exclusions and redactions. */
  lemma ShapingHidesInPlace(h: Heap, a: Any, excluded: seq<Path>, redacted: seq<Path>, p: Path)
    requires p != []
    ensures var after := RedactAll(EraseAll(h, a, excluded), a, redacted);
            && (p in redacted ==> Hidden(after, a, p))
            && (p in excluded ==> Gone(after, a, p))
  {
    EraseAllRemoves(h, a, excluded, p);
    RedactAllHides(EraseAll(h, a, excluded), a, redacted, p);
  }

  // ----- no sharing

  /** Two paths never lead to the same container. */
  ghost predicate Unshared(h: Heap, a: Any) {
    forall p: Path, q: Path :: SameRef(Read(h, a, p), Read(h, a, q)) ==> p == q
  }

  predicate SameRef(x: Option<Any>, y: Option<Any>) {
    x.Some? && x.value.Ref? && x == y
  }

  /** Both lead to the same scalar, or to an object, or to an array, or nowhere. */
  predicate Agree(h: Heap, x: Option<Any>, y: Option<Value>) {
    match y
    case None => x == None
    case Some(Obj(_)) => x.Some? && x.value.Ref? && x.value.r in h && h[x.value.r].Map?
    case Some(Arr(_)) => x.Some? && x.value.Ref? && x.value.r in h && h[x.value.r].List?
    case Some(s) => x == Some(Scalar(s))
  }

  ghost predicate Represents(h: Heap, a: Any, v: Value) {
    forall p: Path :: Agree(h, Read(h, a, p), Shaping.Get(v, p))
  }

  /** In a value without sharing an edit is seen at its path and behind it, and nowhere else. */
  lemma {:induction false} EditedReads(h: Heap, h': Heap, a: Any, q: Path, y: Option<Any>, p: Path)
    requires Unshared(h, a) && q != [] && Target(h, a, q).Some?
    requires EditedAt(h, h', Target(h, a, q).value, Last(q), y)
    ensures Read(h', a, p) == if p == q then y else if q <= p then None else Read(h, a, p)
    decreases |p|
  {
    if p != [] {
      EditedReads(h, h', a, q, y, Front(p));
      PrefixFront(q, p);
      if !(q <= Front(p)) { EditedChild(h, h', a, q, y, p); }
    }
  }

  /** The edit is only met behind the container of its path, which no other path leads to. */
  lemma EditedChild(h: Heap, h': Heap, a: Any, q: Path, y: Option<Any>, p: Path)
    requires Unshared(h, a) && q != [] && p != [] && Target(h, a, q).Some?
    requires EditedAt(h, h', Target(h, a, q).value, Last(q), y) && Read(h', a, Front(p)) == Read(h, a, Front(p))
    ensures Read(h', a, p) == if p == q then y else Read(h, a, p)
  {
    assert SameRef(Read(h, a, Front(p)), Read(h, a, Front(q))) ==> Front(p) == Front(q);
    SameEnd(p, q);
  }

  lemma SameEnd(p: Path, q: Path)
    requires p != [] && q != []
    ensures p == q <==> Front(p) == Front(q) && Last(p) == Last(q)
  {
    assert p == Front(p) + [Last(p)] && q == Front(q) + [Last(q)];
  }

  lemma PrefixFront(q: Path, p: Path)
    requires p != []
    ensures q <= p <==> q == p || q <= Front(p)
  {
    if q <= p && q != p { assert q == p[..|q|] == Front(p)[..|q|]; }
  }

  predicate IsScalar(x: Value) {
    !x.Obj? && !x.Arr?
  }

  /** The container of the last segment exists and has room for it. */
  predicate TakesLast(u: Option<Value>, s: Seg) {
    u.Some? && if s.Field? then u.value.Obj? else u.value.Arr? && 0 <= s.i < |u.value.items|
  }

  lemma {:induction false} AcceptsIff(v: Value, q: Path)
    requires q != []
    ensures Shaping.Accepts(v, q) <==> TakesLast(Shaping.Get(v, Front(q)), Last(q))
    decreases |q|
  {
    if |q| > 1 {
      assert Front(q)[1..] == Front(q[1..]) && Last(q) == Last(q[1..]);
      match q[0] {
        case Index(i) => if v.Arr? && 0 <= i < |v.items| { AcceptsIff(v.items[i], q[1..]); }
        case Field(f) => if v.Obj? && f in v.fields { AcceptsIff(v.fields[f], q[1..]); }
      }
    } else {
      assert Front(q) == [];
    }
  }

  predicate SameKind(u: Value, w: Value) {
    u.Obj? == w.Obj? && u.Arr? == w.Arr? && (IsScalar(u) ==> w == u)
  }

  lemma SetKeepsKind(u: Value, q: Path, x: Value)
    ensures SameKind(u, Shaping.Set(u, q, x))
  {
  }

  lemma AgreesWithKind(h: Heap, h': Heap, x: Option<Any>, u: Value, w: Value)
    requires Agree(h, x, Some(u)) && SameKind(u, w) && KeepsKinds(h, h')
    ensures Agree(h', x, Some(w))
  {
  }

  predicate KeepsKinds(h: Heap, h': Heap) {
    forall r :: r in h ==> r in h' && h'[r].Map? == h[r].Map?
  }

  /** What must be seen at p after writing a scalar at an accepting q. */
  lemma WriteAgrees(h: Heap, h': Heap, a: Any, v: Value, q: Path, x: Value, p: Path)
    requires Agree(h, Read(h, a, p), Shaping.Get(v, p)) && KeepsKinds(h, h') && IsScalar(x) && Shaping.Accepts(v, q)
    requires Read(h', a, p) == if p == q then Some(Scalar(x)) else if q <= p then None else Read(h, a, p)
    ensures Agree(h', Read(h', a, p), Shaping.Get(Shaping.Set(v, q, x), p))
  {
    Shaping.GetAfterSet(v, q, x, p);
    if q <= p {
      if p == q { assert p[|q|..] == []; }
    } else if p <= q && Shaping.Get(v, p).Some? {
      var u := Shaping.Get(v, p).value;
      SetKeepsKind(u, q[|p|..], x);
      AgreesWithKind(h, h', Read(h, a, p), u, Shaping.Set(u, q[|p|..], x));
    } else if Shaping.Get(v, p).Some? {
      AgreesWithKind(h, h', Read(h, a, p), Shaping.Get(v, p).value, Shaping.Get(v, p).value);
    }
  }

  lemma EditKeepsUnshared(h: Heap, h': Heap, a: Any, q: Path, y: Option<Any>)
    requires Unshared(h, a) && q != [] && Target(h, a, q).Some?
    requires EditedAt(h, h', Target(h, a, q).value, Last(q), y)
    ensures Unshared(h', a)
  {
    forall p1: Path, p2: Path | SameRef(Read(h', a, p1), Read(h', a, p2)) ensures p1 == p2 {
      EditedReads(h, h', a, q, y, p1);
      EditedReads(h, h', a, q, y, p2);
      assert SameRef(Read(h, a, p1), Read(h, a, p2));
    }
  }

  /** Where the write lands is decided alike by the heap and by the value. */
  lemma LandsAlike(h: Heap, a: Any, v: Value, q: Path)
    requires Represents(h, a, v) && q != []
    ensures Shaping.Accepts(v, q) <==>
              Target(h, a, q).Some? && CellTakes(h[Target(h, a, q).value], Last(q))
  {
    AcceptsIff(v, q);
    var u, b := Shaping.Get(v, Front(q)), Read(h, a, Front(q));
    assert Agree(h, b, u);
    assert Agree(h, Read(h, a, q), Shaping.Get(v, q));
    if u.Some? {
      Shaping.GetAppends(v, Front(q), q);
      assert q[|Front(q)|..] == [Last(q)];
    }
  }

  predicate CellTakes(c: Cell, s: Seg) {
    if s.Field? then c.Map? else c.List? && 0 <= s.i < |c.items|
  }

  /** On a value that shares nothing, writing in place is the write of the value model. */
  lemma WriteRefinesSet(h: Heap, a: Any, v: Value, q: Path, x: Value)
    requires Represents(h, a, v) && Unshared(h, a) && q != [] && IsScalar(x)
    ensures Represents(Write(h, a, q, x), a, Shaping.Set(v, q, x))
    ensures Unshared(Write(h, a, q, x), a)
  {
    var h' := Write(h, a, q, x);
    LandsAlike(h, a, v, q);
    if Shaping.Accepts(v, q) {
      var r := Target(h, a, q).value;
      WriteEdits(h, a, q, x);
      EditKeepsUnshared(h, h', a, q, Some(Scalar(x)));
      forall p: Path ensures Agree(h', Read(h', a, p), Shaping.Get(Shaping.Set(v, q, x), p)) {
        EditedReads(h, h', a, q, Some(Scalar(x)), p);
        assert Agree(h, Read(h, a, p), Shaping.Get(v, p));
        WriteAgrees(h, h', a, v, q, x, p);
      }
    } else {
      Shaping.SetRefused(v, q, x);
      assert h' == h;
    }
  }

  lemma RemoveKeepsKind(u: Value, q: Path)
    ensures SameKind(u, Shaping.Remove(u, q))
  {
  }

  /** What must be seen at p after removing a present q. */
  lemma EraseAgrees(h: Heap, h': Heap, a: Any, v: Value, q: Path, p: Path)
    requires q != [] && Agree(h, Read(h, a, p), Shaping.Get(v, p)) && KeepsKinds(h, h') && Shaping.Get(v, q).Some?
    requires Read(h', a, p) ==
             if p == q then (if Last(q).Field? then None else Some(Scalar(Null)))
             else if q <= p then None else Read(h, a, p)
    ensures Agree(h', Read(h', a, p), Shaping.Get(Shaping.Remove(v, q), p))
  {
    Shaping.GetAfterRemove(v, q, p);
    if q <= p {
      if p == q { assert p[|q|..] == []; }
    } else if Shaping.Get(v, p).Some? {
      var u := Shaping.Get(v, p).value;
      var w := if p <= q then Shaping.Remove(u, q[|p|..]) else u;
      RemoveKeepsKind(u, if p <= q then q[|p|..] else []);
      AgreesWithKind(h, h', Read(h, a, p), u, w);
    }
  }

  lemma AbsentAgrees(h: Heap, h': Heap, a: Any, v: Value, q: Path, p: Path)
    requires Agree(h, Read(h, a, p), Shaping.Get(v, p)) && KeepsKinds(h, h') && Read(h, a, q).None?
    requires Read(h', a, p) == if q <= p then None else Read(h, a, p)
    ensures Agree(h', Read(h', a, p), Shaping.Get(v, p))
  {
    if q <= p { StaysLost(h, a, q, p); }
    if Shaping.Get(v, p).Some? {
      AgreesWithKind(h, h', Read(h, a, p), Shaping.Get(v, p).value, Shaping.Get(v, p).value);
    }
  }

  /** On a value that shares nothing, removing in place is the removal of the value model. */
  lemma EraseRefinesRemove(h: Heap, a: Any, v: Value, q: Path)
    requires Represents(h, a, v) && Unshared(h, a) && q != []
    ensures Represents(Erase(h, a, q), a, Shaping.Remove(v, q))
    ensures Unshared(Erase(h, a, q), a)
  {
    var h' := Erase(h, a, q);
    assert Agree(h, Read(h, a, q), Shaping.Get(v, q));
    if Shaping.Get(v, q).None? { Shaping.RemoveOfAbsent(v, q); }
    if Target(h, a, q).Some? {
      var y := Child(h', Ref(Target(h, a, q).value), Last(q));
      EraseEdits(h, a, q);
      EditKeepsUnshared(h, h', a, q, y);
      forall p: Path ensures Agree(h', Read(h', a, p), Shaping.Get(Shaping.Remove(v, q), p)) {
        EditedReads(h, h', a, q, y, p);
        assert Agree(h, Read(h, a, p), Shaping.Get(v, p));
        if Shaping.Get(v, q).None? {
          AbsentAgrees(h, h', a, v, q, p);
        } else {
          EraseAgrees(h, h', a, v, q, p);
        }
      }
    }
  }
}
