/** The output built in place is the one of the include on values. */
module IncludeRefinement {
  import opened Text
  import opened Json
  import opened Paths
  import opened InPlace
  import opened InPlaceInclude
  import Shaping

  /** The paths are what the texts parse to; a blank text leads nowhere. */
  predicate ParsedAs(text: string, path: Path) {
    if TrimSpace(text) == "" then path == [] else Parse(TrimSpace(text)) == Some(path)
  }

  predicate Parsed(texts: seq<string>, paths: seq<Path>) {
    |texts| == |paths| && forall e :: 0 <= e < |paths| ==> ParsedAs(texts[e], paths[e])
  }

  lemma FoundAlike(h: Heap, v: Any, w: Value, text: string, path: Path)
    requires Represents(h, v, w) && ParsedAs(text, path)
    ensures Shaping.FoundPath(w, text) == if Found(h, v, path) then {path} else {}
    ensures Shaping.Includable(w, text) <==> (Found(h, v, path) ==> Shaping.AllFields(path))
  {
    assert Agree(h, Read(h, v, path), Shaping.Get(w, path));
  }

  predicate FoundAmong(h: Heap, v: Any, paths: seq<Path>, r: Path) {
    exists e :: 0 <= e < |paths| && paths[e] == r && Found(h, v, paths[e])
  }

  lemma {:induction false} FoundPathsAre(h: Heap, v: Any, w: Value, texts: seq<string>, paths: seq<Path>, r: Path)
    requires Represents(h, v, w) && Parsed(texts, paths)
    ensures r in Shaping.FoundPaths(w, texts) <==> FoundAmong(h, v, paths, r)
    decreases |texts|
  {
    if texts != [] {
      assert ParsedAs(texts[0], paths[0]);
      FoundAlike(h, v, w, texts[0], paths[0]);
      FoundPathsAre(h, v, w, texts[1..], paths[1..], r);
      if FoundAmong(h, v, paths[1..], r) {
        var e :| 0 <= e < |paths[1..]| && paths[1..][e] == r && Found(h, v, paths[1..][e]);
        assert paths[e + 1] == r;
      }
      if FoundAmong(h, v, paths, r) {
        var e :| 0 <= e < |paths| && paths[e] == r && Found(h, v, paths[e]);
        if e > 0 { assert paths[1..][e - 1] == r; }
      }
    }
  }

  lemma CoveredAlike(h: Heap, v: Any, w: Value, texts: seq<string>, paths: seq<Path>, p: Path)
    requires Represents(h, v, w) && Parsed(texts, paths)
    ensures Covered(h, v, paths, |paths|, p) <==> Shaping.Above(Shaping.FoundPaths(w, texts), p)
  {
    if Covered(h, v, paths, |paths|, p) {
      var e :| 0 <= e < |paths| && Found(h, v, paths[e]) && paths[e] <= p;
      FoundPathsAre(h, v, w, texts, paths, paths[e]);
    }
    if Shaping.Above(Shaping.FoundPaths(w, texts), p) {
      var r :| r in Shaping.FoundPaths(w, texts) && r <= p;
      FoundPathsAre(h, v, w, texts, paths, r);
    }
  }

  lemma LeadsAlike(h: Heap, v: Any, w: Value, texts: seq<string>, paths: seq<Path>, p: Path)
    requires Represents(h, v, w) && Parsed(texts, paths)
    ensures Leads(h, v, paths, |paths|, p) <==> Shaping.Below(Shaping.FoundPaths(w, texts), p)
  {
    if Leads(h, v, paths, |paths|, p) {
      var e :| 0 <= e < |paths| && Found(h, v, paths[e]) && p <= paths[e];
      FoundPathsAre(h, v, w, texts, paths, paths[e]);
    }
    if Shaping.Below(Shaping.FoundPaths(w, texts), p) {
      var r :| r in Shaping.FoundPaths(w, texts) && p <= r;
      FoundPathsAre(h, v, w, texts, paths, r);
    }
  }

  // ----- failing alike

  lemma {:induction false} FirstStop(h: Heap, v: Any, paths: seq<Path>, n: nat)
    requires n <= |paths| && forall k: nat :: k < n ==> !StopsAt(h, v, paths, k)
    ensures forall e :: 0 <= e < n && Found(h, v, paths[e]) ==> Shaping.AllFields(paths[e])
  {
    if n > 0 {
      FirstStop(h, v, paths, n - 1);
      assert !StopsAt(h, v, paths, n - 1);
    }
  }

  /** The include in place fails exactly when the include on values does. */
  lemma FailsAlike(h: Heap, v: Any, w: Value, texts: seq<string>, paths: seq<Path>)
    requires Represents(h, v, w) && (w.Obj? || w.Arr?) && Parsed(texts, paths)
    ensures Shaping.Include(w, texts).None? <==> exists n :: StopsAt(h, v, paths, n)
  {
    SucceedsIff(w, texts);
    forall e | 0 <= e < |paths|
      ensures Shaping.Includable(w, texts[e]) <==> (Found(h, v, paths[e]) ==> Shaping.AllFields(paths[e]))
    {
      assert ParsedAs(texts[e], paths[e]);
      FoundAlike(h, v, w, texts[e], paths[e]);
    }
    if n: nat :| StopsAt(h, v, paths, n) {
      assert texts[n] in texts;
    } else {
      FirstStop(h, v, paths, |paths|);
    }
  }

  lemma SucceedsIff(w: Value, texts: seq<string>)
    requires w.Obj? || w.Arr?
    ensures Shaping.Include(w, texts).Some? <==> forall t :: t in texts ==> Shaping.Includable(w, t)
  {
    if w.Obj? { Shaping.IncludeIsExact(w, texts); } else { Shaping.IncludeOfArray(map[], w, texts); }
  }

  // ----- the same output

  lemma IncludeShows(w: Value, texts: seq<string>, p: Path)
    requires (w.Obj? || w.Arr?) && Shaping.Include(w, texts).Some? && p != []
    ensures var r := Shaping.Include(w, texts).value;
            r.Obj? && Shaping.Shows(r.fields, w, Shaping.FoundPaths(w, texts), p)
  {
    if w.Obj? {
      Shaping.IncludeIsExact(w, texts);
    } else {
      Shaping.IncludeOfArray(map[], w, texts);
    }
  }

  /** The output on values at p, in terms of the memory. */
  predicate ShowsAlike(covered: bool, leads: bool, x: Option<Value>, y: Option<Value>) {
    if covered then x == y else if leads then x.Some? && x.value.Obj? else x == None
  }

  lemma ValueShows(h: Heap, v: Any, w: Value, texts: seq<string>, paths: seq<Path>, p: Path)
    requires Represents(h, v, w) && (w.Obj? || w.Arr?) && Parsed(texts, paths) && Shaping.Include(w, texts).Some?
    requires p != []
    ensures ShowsAlike(Covered(h, v, paths, |paths|, p), Leads(h, v, paths, |paths|, p),
                       Shaping.Get(Shaping.Include(w, texts).value, p), Shaping.Get(w, p))
  {
    IncludeShows(w, texts, p);
    CoveredAlike(h, v, w, texts, paths, p);
    LeadsAlike(h, v, w, texts, paths, p);
    var out := Shaping.Include(w, texts).value;
    assert Obj(out.fields) == out && Shaping.Shows(out.fields, w, Shaping.FoundPaths(w, texts), p);
  }

  lemma KindsKept(h: Heap, h': Heap, x: Option<Any>, y: Option<Value>)
    requires KeepsKinds(h, h') && Agree(h, x, y)
    ensures Agree(h', x, y)
  {
  }

  lemma CoveredReads(h0: Heap, h: Heap, out: Any, v: Any, own: set<nat>, paths: seq<Path>, p: Path)
    requires Includes(h0, h, out, v, own, paths) && Covered(h0, v, paths, |paths|, p)
    ensures Read(h, out, p) == Read(h0, v, p)
  {
    assert MirrorsAt(h, out, v, own, p) && Read(h, v, p) == Read(h0, v, p);
    assert ShowsInput(h, out, v, p) <==> Read(h0, v, p).Some? && Covered(h0, v, paths, |paths|, p);
  }

  lemma WayReads(h0: Heap, h: Heap, out: Any, v: Any, own: set<nat>, paths: seq<Path>, p: Path)
    requires Includes(h0, h, out, v, own, paths)
    requires Leads(h0, v, paths, |paths|, p) && !Covered(h0, v, paths, |paths|, p)
    ensures IsOwn(own, Read(h, out, p)) && IsMap(h, Read(h, out, p))
  {
    var e :| 0 <= e < |paths| && Found(h0, v, paths[e]) && p <= paths[e];
    var path := paths[e];
    assert Covered(h0, v, paths, |paths|, path);
    CoveredReads(h0, h, out, v, own, paths, path);
    if Read(h, out, p).None? { StaysLost(h, out, p, path); }
    assert MirrorsAt(h, out, v, own, p) && Read(h, v, p) == Read(h0, v, p);
    assert ShowsInput(h, out, v, p) <==> Read(h0, v, p).Some? && Covered(h0, v, paths, |paths|, p);
  }

  lemma OutputAgrees(h0: Heap, h: Heap, out: Any, v: Any, own: set<nat>, w: Value, texts: seq<string>,
                     paths: seq<Path>, p: Path)
    requires Represents(h0, v, w) && (w.Obj? || w.Arr?) && Parsed(texts, paths) && Shaping.Include(w, texts).Some?
    requires Includes(h0, h, out, v, own, paths)
    ensures Agree(h, Read(h, out, p), Shaping.Get(Shaping.Include(w, texts).value, p))
  {
    if p == [] {
      SucceedsIff(w, texts);
      return;
    }
    ValueShows(h0, v, w, texts, paths, p);
    assert Agree(h0, Read(h0, v, p), Shaping.Get(w, p));
    if Covered(h0, v, paths, |paths|, p) {
      CoveredReads(h0, h, out, v, own, paths, p);
      KindsKept(h0, h, Read(h0, v, p), Shaping.Get(w, p));
    } else if Leads(h0, v, paths, |paths|, p) {
      WayReads(h0, h, out, v, own, paths, p);
    } else {
      assert !IsOutput(h, out, p);
    }
  }

  /** The output built in place represents the output of the include on values. If the input shares nothing
      with itself, neither does the output, so that exclusions and redactions in place go on as on values. */
  lemma IncludeRefines(h0: Heap, h: Heap, out: Any, v: Any, own: set<nat>, w: Value, texts: seq<string>,
                       paths: seq<Path>)
    requires Represents(h0, v, w) && (w.Obj? || w.Arr?) && Parsed(texts, paths) && Shaping.Include(w, texts).Some?
    requires Includes(h0, h, out, v, own, paths)
    ensures Represents(h, out, Shaping.Include(w, texts).value)
    ensures Unshared(h0, v) ==> Unshared(h, out)
  {
    forall p: Path ensures Agree(h, Read(h, out, p), Shaping.Get(Shaping.Include(w, texts).value, p)) {
      OutputAgrees(h0, h, out, v, own, w, texts, paths, p);
    }
    if Unshared(h0, v) {
      forall p: Path, q: Path | SameRef(Read(h, out, p), Read(h, out, q)) ensures p == q {
        SharedOnce(h0, h, out, v, own, p, q);
      }
    }
  }

  lemma SharedOnce(h0: Heap, h: Heap, out: Any, v: Any, own: set<nat>, p: Path, q: Path)
    requires Mirrors(h, out, v, own) && SameReads(h0, h, v) && Unshared(h0, v)
    requires SameRef(Read(h, out, p), Read(h, out, q))
    ensures p == q
  {
    assert MirrorsAt(h, out, v, own, p) && MirrorsAt(h, out, v, own, q);
    assert Read(h, v, p) == Read(h0, v, p) && Read(h, v, q) == Read(h0, v, q);
    if !IsOwn(own, Read(h, out, p)) { assert SameRef(Read(h0, v, p), Read(h0, v, q)); }
  }
}
