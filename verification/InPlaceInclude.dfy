/** Building the included output in place: new maps on the way to a path, and at its end the input's
    own value, shared with the input. */
module InPlaceInclude {
  import opened Text
  import opened Json
  import opened Paths
  import opened InPlace
  import Shaping

  predicate IsMap(h: Heap, x: Option<Any>) {
    x.Some? && x.value.Ref? && x.value.r in h && h[x.value.r].Map?
  }

  predicate IsOwn(own: set<nat>, x: Option<Any>) {
    x.Some? && x.value.Ref? && x.value.r in own
  }

  /** No reference at or behind `next` is in use. */
  ghost predicate Bounded(h: Heap, next: nat) {
    && (forall r :: r in h ==> r < next)
    && forall t: nat, s: Seg :: Below(Child(h, Ref(t), s), next)
  }

  predicate Below(x: Option<Any>, next: nat) {
    x.Some? && x.value.Ref? ==> x.value.r < next
  }

  /** At p the output shows what the input shows, or nothing, or a map of its own where the input has
      a map. The whole output is always a map of its own. */
  predicate MirrorsAt(h: Heap, out: Any, v: Any, own: set<nat>, p: Path) {
    var x, y := Read(h, out, p), Read(h, v, p);
    x == None || x == y || (IsOwn(own, x) && (p == [] || IsMap(h, y)))
  }

  /** The output mirrors the input; its own maps are not part of the input and stand in one place. */
  ghost predicate Mirrors(h: Heap, out: Any, v: Any, own: set<nat>) {
    && (forall r :: r in own ==> r in h && h[r].Map?)
    && (forall p: Path :: MirrorsAt(h, out, v, own, p))
    && (forall p: Path :: !IsOwn(own, Read(h, v, p)))
    && forall p: Path, q: Path :: SameRef(Read(h, out, p), Read(h, out, q)) && IsOwn(own, Read(h, out, p)) ==> p == q
  }

  /** Map c holds y at f now, and nothing else can be read differently. */
  ghost predicate Puts(h: Heap, h': Heap, c: nat, f: string, y: Any) {
    && KeepsKinds(h, h')
    && Child(h', Ref(c), Field(f)) == Some(y)
    && forall t: nat, s: Seg :: t != c || s != Field(f) ==> Child(h', Ref(t), s) == Child(h, Ref(t), s)
  }

  lemma {:induction false} PutKeepsInput(h: Heap, h': Heap, c: nat, f: string, y: Any, v: Any, own: set<nat>, p: Path)
    requires Puts(h, h', c, f, y) && c in own && forall q: Path :: !IsOwn(own, Read(h, v, q))
    ensures Read(h', v, p) == Read(h, v, p)
    decreases |p|
  {
    if p != [] {
      PutKeepsInput(h, h', c, f, y, v, own, Front(p));
      assert !IsOwn(own, Read(h, v, Front(p)));
    }
  }

  /** Away from the new entry the output reads as before. */
  lemma {:induction false} PutKeepsRest(h: Heap, h': Heap, c: nat, f: string, y: Any, out: Any, v: Any, own: set<nat>,
                                        k: Path, p: Path)
    requires Puts(h, h', c, f, y) && c in own && Mirrors(h, out, v, own)
    requires Read(h, out, k) == Some(Ref(c)) && !(k + [Field(f)] <= p)
    ensures Read(h', out, p) == Read(h, out, p)
    decreases |p|
  {
    if p != [] {
      PrefixFront(k + [Field(f)], p);
      PutKeepsRest(h, h', c, f, y, out, v, own, k, Front(p));
      if SameRef(Read(h, out, Front(p)), Read(h, out, k)) {
        assert Front(p) == k && p == k + [Last(p)];
      }
    }
  }

  lemma PutAt(h: Heap, h': Heap, c: nat, f: string, y: Any, out: Any, v: Any, own: set<nat>, k: Path)
    requires Puts(h, h', c, f, y) && c in own && Mirrors(h, out, v, own) && Read(h, out, k) == Some(Ref(c))
    ensures Read(h', out, k + [Field(f)]) == Some(y)
  {
    var e := k + [Field(f)];
    PutKeepsRest(h, h', c, f, y, out, v, own, k, k);
    assert Front(e) == k && Last(e) == Field(f);
  }

  // ----- a new map on the way

  lemma {:induction false} BoundedReads(h: Heap, next: nat, a: Any, p: Path)
    requires Bounded(h, next) && Below(Some(a), next)
    ensures Below(Read(h, a, p), next)
    decreases |p|
  {
    if p != [] { BoundedReads(h, next, a, Front(p)); }
  }

  /** Map c of the output stands at k. */
  ghost predicate StandsAt(h: Heap, out: Any, v: Any, own: set<nat>, k: Path, c: nat) {
    Mirrors(h, out, v, own) && c in own && Read(h, out, k) == Some(Ref(c))
  }

  /** A new empty map m was put at f. */
  ghost predicate Makes(h: Heap, h': Heap, c: nat, f: string, m: nat, out: Any, v: Any) {
    && Puts(h, h', c, f, Ref(m)) && m in h' && h'[m] == Map(map[])
    && forall p: Path :: Read(h, out, p) != Some(Ref(m)) && Read(h, v, p) != Some(Ref(m))
  }

  lemma {:induction false} NothingInEmpty(h: Heap, a: Any, m: nat, e: Path, p: Path)
    requires Read(h, a, e) == Some(Ref(m)) && m in h && h[m] == Map(map[]) && e <= p && e != p
    ensures Read(h, a, p) == None
    decreases |p|
  {
    PrefixFront(e, p);
    if e != Front(p) { NothingInEmpty(h, a, m, e, Front(p)); }
  }

  lemma NewMapReads(h: Heap, h': Heap, c: nat, f: string, m: nat, out: Any, v: Any, own: set<nat>, k: Path, p: Path)
    requires StandsAt(h, out, v, own, k, c) && Makes(h, h', c, f, m, out, v)
    ensures var e := k + [Field(f)];
            Read(h', out, p) == if p == e then Some(Ref(m)) else if e <= p then None else Read(h, out, p)
    ensures Read(h', v, p) == Read(h, v, p)
  {
    var e := k + [Field(f)];
    PutKeepsInput(h, h', c, f, Ref(m), v, own, p);
    if e <= p {
      PutAt(h, h', c, f, Ref(m), out, v, own, k);
      if p != e { NothingInEmpty(h', out, m, e, p); }
    } else {
      PutKeepsRest(h, h', c, f, Ref(m), out, v, own, k, p);
    }
  }

  lemma NewMapMirrorsAt(h: Heap, h': Heap, c: nat, f: string, m: nat, out: Any, v: Any, own: set<nat>, k: Path, p: Path)
    requires StandsAt(h, out, v, own, k, c) && Makes(h, h', c, f, m, out, v) && IsMap(h, Read(h, v, k + [Field(f)]))
    ensures MirrorsAt(h', out, v, own + {m}, p) && !IsOwn(own + {m}, Read(h', v, p))
  {
    NewMapReads(h, h', c, f, m, out, v, own, k, p);
    assert MirrorsAt(h, out, v, own, p);
  }

  lemma NewMapStandsOnce(h: Heap, h': Heap, c: nat, f: string, m: nat, out: Any, v: Any, own: set<nat>, k: Path,
                         p: Path, q: Path)
    requires StandsAt(h, out, v, own, k, c) && Makes(h, h', c, f, m, out, v)
    requires SameRef(Read(h', out, p), Read(h', out, q)) && IsOwn(own + {m}, Read(h', out, p))
    ensures p == q
  {
    NewMapReads(h, h', c, f, m, out, v, own, k, p);
    NewMapReads(h, h', c, f, m, out, v, own, k, q);
  }

  lemma NewMapMirrors(h: Heap, h': Heap, c: nat, f: string, m: nat, out: Any, v: Any, own: set<nat>, k: Path)
    requires StandsAt(h, out, v, own, k, c) && Makes(h, h', c, f, m, out, v) && IsMap(h, Read(h, v, k + [Field(f)]))
    ensures StandsAt(h', out, v, own + {m}, k + [Field(f)], m)
  {
    forall p: Path ensures MirrorsAt(h', out, v, own + {m}, p) && !IsOwn(own + {m}, Read(h', v, p)) {
      NewMapMirrorsAt(h, h', c, f, m, out, v, own, k, p);
    }
    forall p: Path, q: Path | SameRef(Read(h', out, p), Read(h', out, q)) && IsOwn(own + {m}, Read(h', out, p))
      ensures p == q
    {
      NewMapStandsOnce(h, h', c, f, m, out, v, own, k, p, q);
    }
    PutAt(h, h', c, f, Ref(m), out, v, own, k);
  }

  // ----- the value at the end

  lemma {:induction false} ValueReads(h: Heap, h': Heap, c: nat, f: string, x: Any, out: Any, v: Any, own: set<nat>,
                                      k: Path, p: Path)
    requires StandsAt(h, out, v, own, k, c) && Puts(h, h', c, f, x) && Read(h, v, k + [Field(f)]) == Some(x)
    ensures Read(h', out, p) == if k + [Field(f)] <= p then Read(h', v, p) else Read(h, out, p)
    ensures Read(h', v, p) == Read(h, v, p)
    decreases |p|
  {
    var e := k + [Field(f)];
    PutKeepsInput(h, h', c, f, x, v, own, p);
    if p == e {
      PutAt(h, h', c, f, x, out, v, own, k);
    } else if e <= p {
      PrefixFront(e, p);
      ValueReads(h, h', c, f, x, out, v, own, k, Front(p));
    } else {
      PutKeepsRest(h, h', c, f, x, out, v, own, k, p);
    }
  }

  lemma ValueMirrors(h: Heap, h': Heap, c: nat, f: string, x: Any, out: Any, v: Any, own: set<nat>, k: Path)
    requires StandsAt(h, out, v, own, k, c) && Puts(h, h', c, f, x) && Read(h, v, k + [Field(f)]) == Some(x)
    ensures Mirrors(h', out, v, own)
  {
    forall p: Path ensures MirrorsAt(h', out, v, own, p) && !IsOwn(own, Read(h', v, p)) {
      ValueReads(h, h', c, f, x, out, v, own, k, p);
      assert MirrorsAt(h, out, v, own, p);
    }
    forall p: Path, q: Path | SameRef(Read(h', out, p), Read(h', out, q)) && IsOwn(own, Read(h', out, p))
      ensures p == q
    {
      ValueReads(h, h', c, f, x, out, v, own, k, p);
      ValueReads(h, h', c, f, x, out, v, own, k, q);
    }
  }

  // ----- one step of the walk

  /** The walk enters the map at f, or puts a new one there, whatever stood there before. */
  predicate Enters(h: Heap, next: nat, h': Heap, c: nat, f: string, r: nat)
    requires c in h && h[c].Map?
  {
    if IsMap(h, Child(h, Ref(c), Field(f))) then h' == h && Child(h, Ref(c), Field(f)) == Some(Ref(r))
    else r == next && h' == h[r := Map(map[])][c := Map(h[c].fields[f := Ref(r)])]
  }

  lemma EntersBounded(h: Heap, next: nat, h': Heap, c: nat, f: string, r: nat)
    requires Bounded(h, next) && c in h && h[c].Map? && Enters(h, next, h', c, f, r)
    ensures Bounded(h', if h' == h then next else next + 1) && r in h' && h'[r].Map? && c in h' && h'[c].Map?
  {
    if !IsMap(h, Child(h, Ref(c), Field(f))) {
      forall t: nat, s: Seg ensures Below(Child(h', Ref(t), s), next + 1) {
        assert Below(Child(h, Ref(t), s), next);
      }
      assert h'[c] != h[c] || Child(h, Ref(c), Field(f)) == Some(Ref(r));
    }
  }

  lemma EntersMakes(h: Heap, next: nat, h': Heap, c: nat, f: string, r: nat, out: Any, v: Any)
    requires Bounded(h, next) && Below(Some(out), next) && Below(Some(v), next)
    requires c in h && h[c].Map? && Enters(h, next, h', c, f, r) && !IsMap(h, Child(h, Ref(c), Field(f)))
    ensures Makes(h, h', c, f, r, out, v)
  {
    forall p: Path ensures Read(h, out, p) != Some(Ref(r)) && Read(h, v, p) != Some(Ref(r)) {
      BoundedReads(h, next, out, p);
      BoundedReads(h, next, v, p);
    }
  }

  // ----- the walk along an include path

  ghost predicate SameReads(h: Heap, h': Heap, v: Any) {
    forall p: Path :: Read(h', v, p) == Read(h, v, p)
  }

  /** So far the output only gained maps of its own, on the way to k. */
  predicate GrowsAt(h0: Heap, h: Heap, out: Any, own: set<nat>, k: Path, p: Path) {
    Read(h, out, p) == Read(h0, out, p) || (Read(h0, out, p) == None && IsOwn(own, Read(h, out, p)) && p <= k)
  }

  /** The walk has reached map c at k; the input reads as at the start. */
  ghost predicate Walking(h0: Heap, h: Heap, out: Any, v: Any, own: set<nat>, k: Path, c: nat) {
    && Mirrors(h, out, v, own) && c in h && h[c].Map? && Read(h, out, k) == Some(Ref(c))
    && SameReads(h0, h, v) && forall p: Path :: GrowsAt(h0, h, out, own, k, p)
  }

  lemma PrefixOfFront(k: Path, f: string, p: Path)
    ensures p <= k ==> p <= k + [Field(f)]
  {
  }

  lemma EnterWalks(h0: Heap, h: Heap, next: nat, h': Heap, out: Any, v: Any, own: set<nat>, k: Path, c: nat,
                   f: string, r: nat)
    requires Walking(h0, h, out, v, own, k, c) && Bounded(h, next) && Below(Some(out), next) && Below(Some(v), next)
    requires Enters(h, next, h', c, f, r) && IsMap(h, Read(h, v, k + [Field(f)]))
    ensures Walking(h0, h', out, v, if h' == h then own else own + {r}, k + [Field(f)], r)
  {
    var e := k + [Field(f)];
    assert Front(e) == k && Last(e) == Field(f);
    assert MirrorsAt(h, out, v, own, k) && MirrorsAt(h, out, v, own, e);
    if !IsMap(h, Child(h, Ref(c), Field(f))) {
      EntersMakes(h, next, h', c, f, r, out, v);
      NewMapMirrors(h, h', c, f, r, out, v, own, k);
      assert h' != h;
      forall p: Path ensures Read(h', v, p) == Read(h0, v, p) && GrowsAt(h0, h', out, own + {r}, e, p) {
        NewMapReads(h, h', c, f, r, out, v, own, k, p);
        assert GrowsAt(h0, h, out, own, k, p);
        if e <= p && p != e && Read(h, out, p).Some? { StaysLost(h, out, e, p); }
        PrefixOfFront(k, f, p);
      }
    } else {
      forall p: Path ensures GrowsAt(h0, h', out, own, e, p) {
        assert GrowsAt(h0, h, out, own, k, p);
        PrefixOfFront(k, f, p);
      }
    }
  }

  /** Where something other than a map is overwritten in a cell of the input, the way to it still reads
      as before. */
  lemma {:induction false} WayStays(h: Heap, h': Heap, c: nat, f: string, y: Any, v: Any, k: Path, p: Path)
    requires Puts(h, h', c, f, y) && Shaping.AllFields(k) && Read(h, v, k) == Some(Ref(c)) && c in h && h[c].Map?
    requires !IsMap(h, Child(h, Ref(c), Field(f))) && p <= k
    ensures Read(h', v, p) == Read(h, v, p)
    decreases |p|
  {
    if p != [] {
      WayStays(h, h', c, f, y, v, k, Front(p));
      assert p[|p| - 1] in k;
      if p != k {
        assert Front(k[..|p| + 1]) == p && Last(k[..|p| + 1]) == k[|p|] && k[|p|] in k;
        if Read(h, v, k[..|p| + 1]).None? { StaysLost(h, v, k[..|p| + 1], k); }
      }
    }
  }

  /** An include path that goes on with an index: the map put at f spoils the input exactly when the
      output shared the container with it from the start. */
  lemma EnterBreaks(h0: Heap, h: Heap, next: nat, h': Heap, out: Any, v: Any, own: set<nat>, k: Path, c: nat,
                    f: string, r: nat)
    requires Walking(h0, h, out, v, own, k, c) && Bounded(h, next) && Below(Some(out), next) && Below(Some(v), next)
    requires Enters(h, next, h', c, f, r) && Shaping.AllFields(k)
    requires Read(h, v, k + [Field(f)]).Some? && !IsMap(h, Read(h, v, k + [Field(f)]))
    ensures SameReads(h0, h', v) <==> Read(h0, out, k) != Read(h0, v, k)
    ensures Read(h0, out, k) == Read(h0, v, k) ==> IsMap(h', Read(h', v, k + [Field(f)]))
  {
    var e := k + [Field(f)];
    assert Front(e) == k && Last(e) == Field(f);
    assert MirrorsAt(h, out, v, own, k) && MirrorsAt(h, out, v, own, e);
    assert GrowsAt(h0, h, out, own, k, k) && Read(h, v, k) == Read(h0, v, k);
    EntersMakes(h, next, h', c, f, r, out, v);
    if c in own {
      forall p: Path ensures Read(h', v, p) == Read(h0, v, p) {
        PutKeepsInput(h, h', c, f, Ref(r), v, own, p);
      }
    } else {
      WayStays(h, h', c, f, Ref(r), v, k, k);
      assert Read(h', v, e) == Some(Ref(r)) != Read(h, v, e);
      assert Read(h', v, e) != Read(h0, v, e);
    }
  }

  /** The last step: the value stands at the path, and besides what is behind it, the output shows as
      much of the input as before. */
  ghost predicate Included(h0: Heap, h: Heap, out: Any, v: Any, own: set<nat>, path: Path) {
    && Mirrors(h, out, v, own) && SameReads(h0, h, v) && Read(h, out, path) == Read(h, v, path)
    && (forall p: Path :: ShowsMore(h0, h, out, v, path, p))
    && forall p: Path :: SpreadsAt(h0, h, out, path, p)
  }

  /** The output gained nothing off the path. */
  predicate SpreadsAt(h0: Heap, h: Heap, out: Any, path: Path, p: Path) {
    Read(h, out, p).Some? ==> Read(h0, out, p).Some? || p <= path || path <= p
  }

  predicate ShowsMore(h0: Heap, h: Heap, out: Any, v: Any, path: Path, p: Path) {
    && (ShowsInput(h0, out, v, p) ==> ShowsInput(h, out, v, p))
    && (ShowsInput(h, out, v, p) ==> ShowsInput(h0, out, v, p) || path <= p)
  }

  predicate ShowsInput(h: Heap, out: Any, v: Any, p: Path) {
    Read(h, out, p).Some? && Read(h, out, p) == Read(h, v, p)
  }

  lemma PutOwn(h0: Heap, h: Heap, h': Heap, out: Any, v: Any, own: set<nat>, k: Path, c: nat, f: string, x: Any)
    requires Walking(h0, h, out, v, own, k, c) && Read(h, v, k + [Field(f)]) == Some(x) && c in own
    requires Puts(h, h', c, f, x)
    ensures Included(h0, h', out, v, own, k + [Field(f)])
  {
    ValueMirrors(h, h', c, f, x, out, v, own, k);
    ValueReads(h, h', c, f, x, out, v, own, k, k + [Field(f)]);
    forall p: Path
      ensures Read(h', v, p) == Read(h0, v, p)
      ensures ShowsMore(h0, h', out, v, k + [Field(f)], p) && SpreadsAt(h0, h', out, k + [Field(f)], p)
    {
      ValueReads(h, h', c, f, x, out, v, own, k, p);
      assert GrowsAt(h0, h, out, own, k, p);
      PrefixOfFront(k, f, p);
    }
  }

  lemma WalkIncludes(h0: Heap, h: Heap, out: Any, v: Any, own: set<nat>, k: Path, c: nat, f: string)
    requires Walking(h0, h, out, v, own, k, c) && Read(h, out, k + [Field(f)]) == Read(h, v, k + [Field(f)])
    ensures Included(h0, h, out, v, own, k + [Field(f)])
  {
    var path := k + [Field(f)];
    forall p: Path ensures ShowsMore(h0, h, out, v, path, p) && SpreadsAt(h0, h, out, path, p) {
      assert GrowsAt(h0, h, out, own, k, p);
      PrefixOfFront(k, f, p);
    }
  }

  lemma PutWalks(h0: Heap, h: Heap, h': Heap, out: Any, v: Any, own: set<nat>, k: Path, c: nat, f: string, x: Any)
    requires Walking(h0, h, out, v, own, k, c) && Read(h, v, k + [Field(f)]) == Some(x)
    requires h' == h[c := Map(h[c].fields[f := x])]
    ensures Included(h0, h', out, v, own, k + [Field(f)])
  {
    var e := k + [Field(f)];
    assert Front(e) == k && Last(e) == Field(f);
    assert MirrorsAt(h, out, v, own, k);
    if c in own {
      PutOwn(h0, h, h', out, v, own, k, c, f, x);
    } else {
      assert h[c].fields[f := x] == h[c].fields;
      assert h' == h;
      WalkIncludes(h0, h, out, v, own, k, c, f);
    }
  }

  /** The include path takes an index behind a field whose container the output shares with the input. */
  ghost predicate Spoils(h: Heap, out: Any, v: Any, path: Path) {
    exists j :: 0 < j < |path| && IndexFirst(path, j) && Read(h, out, path[..j - 1]) == Read(h, v, path[..j - 1])
  }

  /** Where the array stood that the path's first index leads into, the input now has a map. */
  ghost predicate ArrayLost(h: Heap, v: Any, path: Path) {
    exists j :: 0 < j < |path| && IndexFirst(path, j) && IsMap(h, Read(h, v, path[..j]))
  }

  predicate IndexFirst(path: Path, j: nat) {
    j < |path| && path[j].Index? && Shaping.AllFields(path[..j])
  }

  lemma FieldBefore(path: Path, i: nat, j: nat)
    ensures i < j <= |path| && Shaping.AllFields(path[..j]) ==> path[i].Field?
  {
    if i < j <= |path| && Shaping.AllFields(path[..j]) { assert path[i] in path[..j]; }
  }

  /** There is at most one first index. */
  lemma SpoilsIff(h: Heap, out: Any, v: Any, path: Path, i: nat)
    requires 0 < i && IndexFirst(path, i)
    ensures Spoils(h, out, v, path) <==> Read(h, out, path[..i - 1]) == Read(h, v, path[..i - 1])
  {
    forall j | 0 < j < |path| && IndexFirst(path, j) ensures j == i {
      FieldBefore(path, i, j);
      FieldBefore(path, j, i);
    }
  }

  lemma NoIndexYet(h: Heap, out: Any, v: Any, path: Path)
    requires path != []
    ensures path[0].Index? || Shaping.AllFields(path) ==> !Spoils(h, out, v, path)
  {
    forall j | 0 < j < |path| && IndexFirst(path, j) ensures path[0].Field? && !Shaping.AllFields(path) {
      assert path[0] in path[..j] && path[j] in path;
    }
  }

  lemma FieldsOneMore(path: Path, i: nat)
    requires i < |path| && path[i].Field? && Shaping.AllFields(path[..i])
    ensures Shaping.AllFields(path[..i + 1])
  {
    assert path[..i + 1] == path[..i] + [path[i]];
  }

  /** On the way to a value that can be read, a field stands in a map and an index in a slice. */
  lemma EntryAhead(h: Heap, v: Any, path: Path, i: nat)
    requires i < |path| && Read(h, v, path).Some?
    ensures Read(h, v, path[..i]).Some? && IsMap(h, Read(h, v, path[..i])) == path[i].Field?
  {
    assert Front(path[..i + 1]) == path[..i] && Last(path[..i + 1]) == path[i];
    if Read(h, v, path[..i + 1]).None? { StaysLost(h, v, path[..i + 1], path); }
  }

  lemma PutBounded(h: Heap, next: nat, c: nat, f: string, x: Any)
    requires Bounded(h, next) && c in h && h[c].Map? && Below(Some(x), next)
    ensures Bounded(h[c := Map(h[c].fields[f := x])], next)
  {
    var h' := h[c := Map(h[c].fields[f := x])];
    forall t: nat, s: Seg ensures Below(Child(h', Ref(t), s), next) {
      assert Below(Child(h, Ref(t), s), next);
    }
  }

  ghost predicate Fits(h: Heap, next: nat, out: nat, v: Any) {
    Bounded(h, next) && out < next && Below(Some(v), next)
  }

  /** The walk stands before segment i. In front of an index it is only known whether the input is
      spoilt. */
  ghost predicate OnTheWay(h0: Heap, h: Heap, next: nat, out: nat, v: Any, own: set<nat>, path: Path, i: nat, c: nat) {
    && i < |path| && Shaping.AllFields(path[..i])
    && (path[i].Field? ==> Fits(h, next, out, v) && Walking(h0, h, Ref(out), v, own, path[..i], c))
    && (path[i].Index? ==>
          && (SameReads(h0, h, v) <==> !Spoils(h0, Ref(out), v, path))
          && (Spoils(h0, Ref(out), v, path) ==> ArrayLost(h, v, path)))
  }

  lemma EnterStep(h0: Heap, h: Heap, next: nat, h': Heap, next': nat, out: nat, v: Any, own: set<nat>, path: Path,
                  i: nat, c: nat, r: nat)
    requires OnTheWay(h0, h, next, out, v, own, path, i, c) && i + 1 < |path| && path[i].Field?
    requires Read(h0, v, path).Some? && Enters(h, next, h', c, path[i].name, r)
    requires Bounded(h', next') && next <= next'
    ensures OnTheWay(h0, h', next', out, v, if h' == h then own else own + {r}, path, i + 1, r)
  {
    var k, f := path[..i], path[i].name;
    FieldsOneMore(path, i);
    assert path[..i + 1] == k + [Field(f)];
    assert Read(h, v, path) == Read(h0, v, path);
    EntryAhead(h, v, path, i + 1);
    if path[i + 1].Field? {
      EnterWalks(h0, h, next, h', Ref(out), v, own, k, c, f, r);
    } else {
      EnterBreaks(h0, h, next, h', Ref(out), v, own, k, c, f, r);
      SpoilsIff(h0, Ref(out), v, path, i + 1);
      assert IndexFirst(path, i + 1);
    }
  }

  lemma PutStep(h0: Heap, h: Heap, next: nat, out: nat, v: Any, own: set<nat>, path: Path, i: nat, c: nat, x: Any)
    requires OnTheWay(h0, h, next, out, v, own, path, i, c) && i + 1 == |path| && path[i].Field?
    requires Read(h0, v, path) == Some(x)
    ensures var h' := h[c := Map(h[c].fields[path[i].name := x])];
            Fits(h', next, out, v) && Included(h0, h', Ref(out), v, own, path)
    ensures Shaping.AllFields(path)
  {
    var k, f := path[..i], path[i].name;
    FieldsOneMore(path, i);
    assert path[..i + 1] == path == k + [Field(f)];
    assert Read(h, v, path) == Some(x);
    BoundedReads(h, next, v, path);
    PutBounded(h, next, c, f, x);
    PutWalks(h0, h, h[c := Map(h[c].fields[f := x])], Ref(out), v, own, k, c, f, x);
  }

  // ----- several include paths

  predicate Found(h: Heap, v: Any, p: Path) {
    p != [] && Read(h, v, p).Some?
  }

  /** An include path among the first n puts the input's value at p or above it. */
  ghost predicate Covered(h: Heap, v: Any, paths: seq<Path>, n: nat, p: Path) {
    exists e :: 0 <= e < n <= |paths| && Found(h, v, paths[e]) && paths[e] <= p
  }

  lemma {:induction false} ShowsBehind(h: Heap, out: Any, v: Any, p: Path, q: Path)
    requires ShowsInput(h, out, v, p) && p <= q
    ensures Read(h, out, q) == Read(h, v, q)
    decreases |q|
  {
    if p != q {
      PrefixFront(p, q);
      ShowsBehind(h, out, v, p, Front(q));
    }
  }

  /** The output shows the input exactly where an include path covers it. */
  ghost predicate ShowsCovered(h0: Heap, h: Heap, out: Any, v: Any, paths: seq<Path>, n: nat) {
    forall p: Path :: ShowsInput(h, out, v, p) <==> Read(h0, v, p).Some? && Covered(h0, v, paths, n, p)
  }

  lemma CoveredOneMore(h: Heap, v: Any, paths: seq<Path>, n: nat, p: Path)
    requires n < |paths|
    ensures Covered(h, v, paths, n + 1, p) <==> Covered(h, v, paths, n, p) || (Found(h, v, paths[n]) && paths[n] <= p)
  {
    if Found(h, v, paths[n]) && paths[n] <= p { assert Covered(h, v, paths, n + 1, p); }
  }

  lemma IncludesAt(h: Heap, h': Heap, out: Any, v: Any, own: set<nat>, path: Path, p: Path)
    requires Included(h, h', out, v, own, path) && Read(h, v, path).Some?
    ensures ShowsInput(h', out, v, p) <==> ShowsInput(h, out, v, p) || (path <= p && Read(h, v, p).Some?)
  {
    assert ShowsMore(h, h', out, v, path, p);
    assert Read(h', v, path) == Read(h, v, path) && Read(h', v, p) == Read(h, v, p);
    if path <= p { ShowsBehind(h', out, v, path, p); }
  }

  lemma SkipsOneMore(h0: Heap, h: Heap, out: Any, v: Any, paths: seq<Path>, n: nat)
    requires n < |paths| && !Found(h0, v, paths[n]) && ShowsCovered(h0, h, out, v, paths, n)
    ensures ShowsCovered(h0, h, out, v, paths, n + 1)
  {
    forall p: Path
      ensures ShowsInput(h, out, v, p) <==> Read(h0, v, p).Some? && Covered(h0, v, paths, n + 1, p)
    {
      CoveredOneMore(h0, v, paths, n, p);
    }
  }

  /** An include path among the first n leads over p. */
  ghost predicate Leads(h: Heap, v: Any, paths: seq<Path>, n: nat, p: Path) {
    exists e :: 0 <= e < n <= |paths| && Found(h, v, paths[e]) && p <= paths[e]
  }

  predicate IsOutput(h: Heap, out: Any, p: Path) {
    p != [] && Read(h, out, p).Some?
  }

  /** The output holds nothing else than what is covered or on the way. */
  ghost predicate OnlyWay(h0: Heap, h: Heap, out: Any, v: Any, paths: seq<Path>, n: nat) {
    forall p: Path :: IsOutput(h, out, p) ==> Covered(h0, v, paths, n, p) || Leads(h0, v, paths, n, p)
  }

  lemma LeadsOneMore(h: Heap, v: Any, paths: seq<Path>, n: nat, p: Path)
    requires n < |paths|
    ensures Leads(h, v, paths, n + 1, p) <==> Leads(h, v, paths, n, p) || (Found(h, v, paths[n]) && p <= paths[n])
  {
    if Found(h, v, paths[n]) && p <= paths[n] { assert Leads(h, v, paths, n + 1, p); }
  }

  lemma OnlyWayGrows(h0: Heap, h: Heap, h': Heap, out: Any, v: Any, paths: seq<Path>, n: nat)
    requires n < |paths| && OnlyWay(h0, h, out, v, paths, n)
    requires forall p: Path :: SpreadsAt(h, h', out, paths[n], p)
    requires Found(h0, v, paths[n]) || h' == h
    ensures OnlyWay(h0, h', out, v, paths, n + 1)
  {
    forall p: Path | IsOutput(h', out, p)
      ensures Covered(h0, v, paths, n + 1, p) || Leads(h0, v, paths, n + 1, p)
    {
      assert SpreadsAt(h, h', out, paths[n], p);
      CoveredOneMore(h0, v, paths, n, p);
      LeadsOneMore(h0, v, paths, n, p);
      if Read(h, out, p).Some? { assert IsOutput(h, out, p); }
    }
  }

  /** The state between two include paths. */
  ghost predicate Including(h0: Heap, h: Heap, next: nat, o: nat, v: Any, own: set<nat>, paths: seq<Path>, n: nat) {
    && n <= |paths| && Fits(h, next, o, v) && o in own && Mirrors(h, Ref(o), v, own) && SameReads(h0, h, v)
    && ShowsCovered(h0, h, Ref(o), v, paths, n) && OnlyWay(h0, h, Ref(o), v, paths, n)
    && forall e :: 0 <= e < n && Found(h0, v, paths[e]) ==> Shaping.AllFields(paths[e])
  }

  lemma SkipKeepsIncluding(h0: Heap, h: Heap, next: nat, o: nat, v: Any, own: set<nat>, paths: seq<Path>, n: nat)
    requires Including(h0, h, next, o, v, own, paths, n) && n < |paths| && !Found(h, v, paths[n])
    ensures Including(h0, h, next, o, v, own, paths, n + 1)
  {
    assert Read(h, v, paths[n]) == Read(h0, v, paths[n]);
    SkipsOneMore(h0, h, Ref(o), v, paths, n);
    OnlyWayGrows(h0, h, h, Ref(o), v, paths, n);
  }

  lemma CoversOneMore(h0: Heap, h: Heap, h': Heap, out: Any, v: Any, own: set<nat>, paths: seq<Path>, n: nat)
    requires n < |paths| && Found(h0, v, paths[n]) && SameReads(h0, h, v) && ShowsCovered(h0, h, out, v, paths, n)
    requires Included(h, h', out, v, own, paths[n])
    ensures ShowsCovered(h0, h', out, v, paths, n + 1)
  {
    assert Read(h, v, paths[n]) == Read(h0, v, paths[n]);
    forall p: Path
      ensures ShowsInput(h', out, v, p) <==> Read(h0, v, p).Some? && Covered(h0, v, paths, n + 1, p)
    {
      IncludesAt(h, h', out, v, own, paths[n], p);
      CoveredOneMore(h0, v, paths, n, p);
      assert Read(h, v, p) == Read(h0, v, p);
    }
  }

  lemma IncludeKeepsIncluding(h0: Heap, h: Heap, next: nat, h': Heap, next': nat, o: nat, v: Any, own: set<nat>,
                              own': set<nat>, paths: seq<Path>, n: nat)
    requires Including(h0, h, next, o, v, own, paths, n) && n < |paths| && Found(h, v, paths[n])
    requires Shaping.AllFields(paths[n])
    requires Fits(h', next', o, v) && own <= own' && Included(h, h', Ref(o), v, own', paths[n])
    ensures Including(h0, h', next', o, v, own', paths, n + 1)
  {
    assert Read(h, v, paths[n]) == Read(h0, v, paths[n]);
    SameTwice(h0, h, h', v);
    OnlyWayGrows(h0, h, h', Ref(o), v, paths, n);
    CoversOneMore(h0, h, h', Ref(o), v, own', paths, n);
  }

  /** What a successful include promises: the input is as it was, and the output shows it exactly where an
      include path covers it, with maps of its own on the way there and nothing else. */
  ghost predicate Includes(h0: Heap, h: Heap, out: Any, v: Any, own: set<nat>, paths: seq<Path>) {
    && IsOwn(own, Some(out)) && Mirrors(h, out, v, own) && SameReads(h0, h, v) && KeepsKinds(h0, h)
    && ShowsCovered(h0, h, out, v, paths, |paths|) && OnlyWay(h0, h, out, v, paths, |paths|)
  }

  /** The error at path n leaves the input as it was, or without an array. */
  ghost predicate Refuses(h0: Heap, h: Heap, v: Any, paths: seq<Path>, n: nat) {
    && n < |paths|
    && (SameReads(h0, h, v) <==> !Damages(h0, v, paths, n)) && (Damages(h0, v, paths, n) ==> ArrayLost(h, v, paths[n]))
  }

  lemma ErrorStops(h0: Heap, h: Heap, next: nat, h': Heap, o: nat, v: Any, own: set<nat>, paths: seq<Path>, n: nat)
    requires Including(h0, h, next, o, v, own, paths, n) && n < |paths| && Found(h, v, paths[n])
    requires !Shaping.AllFields(paths[n]) && (SameReads(h, h', v) <==> !Spoils(h, Ref(o), v, paths[n]))
    requires Spoils(h, Ref(o), v, paths[n]) ==> ArrayLost(h', v, paths[n])
    ensures StopsAt(h0, v, paths, n) && Refuses(h0, h', v, paths, n)
  {
    assert Read(h, v, paths[n]) == Read(h0, v, paths[n]);
    DamagesIff(h0, h, Ref(o), v, paths, n);
    SameTwice(h0, h, h', v);
  }

  /** Path n is the first that is found and takes an index. */
  ghost predicate StopsAt(h: Heap, v: Any, paths: seq<Path>, n: nat) {
    && n < |paths| && Found(h, v, paths[n]) && !Shaping.AllFields(paths[n])
    && forall e :: 0 <= e < n && Found(h, v, paths[e]) ==> Shaping.AllFields(paths[e])
  }

  /** Its first index stands behind a field of a container that an earlier path has put into the output. */
  ghost predicate Damages(h: Heap, v: Any, paths: seq<Path>, n: nat) {
    && n < |paths|
    && exists j :: 0 < j < |paths[n]| && IndexFirst(paths[n], j) && Covered(h, v, paths, n, paths[n][..j - 1])
  }

  const AB: Path := [Field("a"), Field("b")]

  /** {"a": {"b": [null]}} */
  const SHARED: Heap := map[0 := Map(map["a" := Ref(1)]), 1 := Map(map["b" := Ref(2)]), 2 := List([Scalar(Null)])]

  lemma SharedReads()
    ensures Read(SHARED, Ref(0), [Field("a")]) == Some(Ref(1)) && Read(SHARED, Ref(0), AB) == Some(Ref(2))
    ensures Read(SHARED, Ref(0), AB + [Index(0)]) == Some(Scalar(Null))
  {
    var p, q := [Field("a")], AB + [Index(0)];
    assert Front(p) == [] && Last(p) == Field("a");
    assert Front(AB) == p && Last(AB) == Field("b");
    assert Front(q) == AB && Last(q) == Index(0);
  }

  /** The include paths a and a.b[0] stop at the second one, which damages the input. */
  lemma SharedIsDamaged(paths: seq<Path>)
    requires paths == [[Field("a")], AB + [Index(0)]]
    ensures Bounded(SHARED, 3) && StopsAt(SHARED, Ref(0), paths, 1) && Damages(SHARED, Ref(0), paths, 1)
    ensures forall n: nat :: StopsAt(SHARED, Ref(0), paths, n) ==> n == 1
  {
    var q := paths[1];
    SharedReads();
    assert q[2] in q && q[..2] == AB && IndexFirst(q, 2);
    assert paths[0] <= q[..1] && Found(SHARED, Ref(0), paths[0]);
    assert Covered(SHARED, Ref(0), paths, 1, q[..1]);
  }

  lemma DamagesIff(h0: Heap, h: Heap, out: Any, v: Any, paths: seq<Path>, n: nat)
    requires n < |paths| && Found(h0, v, paths[n]) && SameReads(h0, h, v) && ShowsCovered(h0, h, out, v, paths, n)
    ensures Spoils(h, out, v, paths[n]) <==> Damages(h0, v, paths, n)
  {
    var path := paths[n];
    forall j | 0 < j < |path| && IndexFirst(path, j)
      ensures Read(h, out, path[..j - 1]) == Read(h, v, path[..j - 1]) <==> Covered(h0, v, paths, n, path[..j - 1])
    {
      assert Read(h, v, path) == Read(h0, v, path);
      EntryAhead(h, v, path, j - 1);
      assert ShowsInput(h, out, v, path[..j - 1]) <==> Covered(h0, v, paths, n, path[..j - 1]);
    }
  }

  lemma SameTwice(h0: Heap, h: Heap, h': Heap, v: Any)
    requires SameReads(h0, h, v)
    ensures SameReads(h0, h', v) <==> SameReads(h, h', v)
  {
    if SameReads(h0, h', v) {
      forall p: Path ensures Read(h', v, p) == Read(h, v, p) { assert Read(h', v, p) == Read(h0, v, p); }
    }
    if SameReads(h, h', v) {
      forall p: Path ensures Read(h', v, p) == Read(h0, v, p) { assert Read(h', v, p) == Read(h, v, p); }
    }
  }

  lemma NewOutputFacts(h: Heap, o: nat, h': Heap, v: Any)
    requires Bounded(h, o) && Below(Some(v), o) && o !in h && h' == h[o := Map(map[])]
    ensures Bounded(h', o + 1) && SameReads(h, h', v)
    ensures Mirrors(h', Ref(o), v, {o}) && forall p: Path :: !ShowsInput(h', Ref(o), v, p) && !IsOutput(h', Ref(o), p)
  {
    forall t: nat, s: Seg ensures Child(h', Ref(t), s) == Child(h, Ref(t), s) && Below(Child(h', Ref(t), s), o + 1) {
      assert Below(Child(h, Ref(t), s), o);
    }
    forall p: Path ensures Read(h', v, p) == Read(h, v, p) && !IsOwn({o}, Read(h', v, p)) {
      SameChildren(h, h', v, p);
      BoundedReads(h, o, v, p);
    }
    forall p: Path | p != [] ensures Read(h', Ref(o), p) == None {
      EmptyReads(h', o, p);
    }
  }

  lemma {:induction false} SameChildren(h: Heap, h': Heap, v: Any, p: Path)
    requires forall t: nat, s: Seg :: Child(h', Ref(t), s) == Child(h, Ref(t), s)
    ensures Read(h', v, p) == Read(h, v, p)
    decreases |p|
  {
    if p != [] { SameChildren(h, h', v, Front(p)); }
  }

  lemma {:induction false} EmptyReads(h: Heap, o: nat, p: Path)
    requires o in h && h[o] == Map(map[]) && p != []
    ensures Read(h, Ref(o), p) == None
    decreases |p|
  {
    if |p| > 1 { EmptyReads(h, o, Front(p)); }
  }

  class Output {
    var heap: Heap
    var next: nat

    method Enter(c: nat, f: string) returns (r: nat)
      requires c in heap && heap[c].Map? && Bounded(heap, next)
      modifies this
      ensures Enters(old(heap), old(next), heap, c, f, r)
      ensures Bounded(heap, next) && next >= old(next) && KeepsKinds(old(heap), heap)
    {
      var fields := heap[c].fields;
      if f in fields && fields[f].Ref? && fields[f].r in heap && heap[fields[f].r].Map? {
        return fields[f].r;
      }
      r := next;
      EntersBounded(heap, next, heap[r := Map(map[])][c := Map(fields[f := Ref(r)])], c, f, r);
      assert r !in heap;
      heap := heap[r := Map(map[])];
      heap := heap[c := Map(fields[f := Ref(r)])];
      next := next + 1;
    }

    /** Puts the input's value at the path. A path with an index is refused, but only when the walk meets
        the index. */
    method SetPathIntoMap(out: nat, path: Path, x: Any, ghost v: Any, ghost own: set<nat>)
        returns (ok: bool, ghost own': set<nat>)
      requires Fits(heap, next, out, v) && out in own && Mirrors(heap, Ref(out), v, own)
      requires path != [] && Read(heap, v, path) == Some(x)
      modifies this
      ensures ok <==> Shaping.AllFields(path)
      ensures ok ==> Fits(heap, next, out, v) && own <= own' && Included(old(heap), heap, Ref(out), v, own', path)
      ensures SameReads(old(heap), heap, v) <==> !Spoils(old(heap), Ref(out), v, path)
      ensures Spoils(old(heap), Ref(out), v, path) ==> ArrayLost(heap, v, path)
      ensures KeepsKinds(old(heap), heap)
    {
      own' := own;
      var cur, i := out, 0;
      NoIndexYet(heap, Ref(out), v, path);
      while true
        invariant OnTheWay(old(heap), heap, next, out, v, own', path, i, cur) && own <= own'
        invariant KeepsKinds(old(heap), heap)
        decreases |path| - i
      {
        match path[i] {
          case Index(_) =>
            assert path[i] in path;
            return false, own';
          case Field(f) =>
            ghost var h, bound := heap, next;
            if i == |path| - 1 {
              PutStep(old(heap), heap, next, out, v, own', path, i, cur, x);
              heap := heap[cur := Map(heap[cur].fields[f := x])];
              return true, own';
            }
            var r := Enter(cur, f);
            EnterStep(old(heap), h, bound, heap, next, out, v, own', path, i, cur, r);
            if heap != h { own' := own' + {r}; }
            cur, i := r, i + 1;
        }
      }
    }

    /** A fresh empty map shows nothing of the input. */
    method NewOutput(v: Any) returns (o: nat)
      requires Bounded(heap, next) && Below(Some(v), next)
      modifies this
      ensures Fits(heap, next, o, v) && SameReads(old(heap), heap, v)
      ensures Mirrors(heap, Ref(o), v, {o}) && KeepsKinds(old(heap), heap)
      ensures forall p: Path :: !ShowsInput(heap, Ref(o), v, p) && !IsOutput(heap, Ref(o), p)
    {
      ghost var h := heap;
      o := next;
      assert o !in heap;
      heap := heap[o := Map(map[])];
      next := next + 1;
      NewOutputFacts(h, old(next), heap, v);
    }

    /** Builds the output for paths that are already parsed; a scalar stays as it is. An error may leave
        the input damaged. */
    method ApplyInclude(v: Any, paths: seq<Path>) returns (out: Option<Any>, ghost own: set<nat>)
      requires Bounded(heap, next) && Below(Some(v), next)
      modifies this
      ensures v.Scalar? ==> out == Some(v) && heap == old(heap)
      ensures v.Ref? && out.Some? ==> Includes(old(heap), heap, out.value, v, own, paths)
      ensures v.Ref? ==> (out.None? <==> exists n :: StopsAt(old(heap), v, paths, n))
      ensures out.None? ==>
                exists n :: StopsAt(old(heap), v, paths, n) && Refuses(old(heap), heap, v, paths, n)
    {
      if v.Scalar? { return Some(v), {}; }
      var o := NewOutput(v);
      own := {o};
      for n := 0 to |paths|
        invariant Including(old(heap), heap, next, o, v, own, paths, n) && KeepsKinds(old(heap), heap)
      {
        var x := Read(heap, v, paths[n]);
        if x.None? || paths[n] == [] {
          SkipKeepsIncluding(old(heap), heap, next, o, v, own, paths, n);
          continue;
        }
        ghost var h, bound, before := heap, next, own;
        var ok;
        ok, own := SetPathIntoMap(o, paths[n], x.value, v, own);
        if !ok {
          ErrorStops(old(heap), h, bound, heap, o, v, before, paths, n);
          return None, own;
        }
        IncludeKeepsIncluding(old(heap), h, bound, heap, next, o, v, before, own, paths, n);
      }
      out := Some(Ref(o));
    }
  }

  /** The call fails, and where the input had an array at a.b it has a map afterwards. */
  method FailingIncludeDamages() returns (out: Option<Any>, after: Heap)
    ensures out == None
    ensures Read(SHARED, Ref(0), AB) == Some(Ref(2)) && SHARED[2].List? && IsMap(after, Read(after, Ref(0), AB))
  {
    var o := new Output;
    o.heap, o.next := SHARED, 3;
    var paths := [[Field("a")], AB + [Index(0)]];
    SharedReads();
    SharedIsDamaged(paths);
    ghost var own;
    out, own := o.ApplyInclude(Ref(0), paths);
    after := o.heap;
    LostAt(after, paths[1]);
  }

  lemma LostAt(h: Heap, path: Path)
    requires path == AB + [Index(0)] && ArrayLost(h, Ref(0), path)
    ensures IsMap(h, Read(h, Ref(0), AB))
  {
    var j :| 0 < j < |path| && IndexFirst(path, j) && IsMap(h, Read(h, Ref(0), path[..j]));
    assert path[0].Field? && path[1].Field?;
    assert path[..2] == AB;
  }
}
