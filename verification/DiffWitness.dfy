/** An environment in which auto-pagination works: one rendering of the chunk results that parses back,
    and a policy that lets the diff tool run. */
module DiffWitness {
  import opened Text
  import opened Json
  import opened Plans
  import opened Executor
  import opened DiffPaging
  import opened DiffRecords
  import DiffFilter

  // ----- a rendering that can be read back

  function Mark(n: nat): string {
    if n == 0 then "0" else "1" + Mark(n - 1)
  }

  function Flat(ns: seq<nat>, text: string): string {
    if ns == [] then text else Mark(ns[0]) + Flat(ns[1..], text)
  }

  lemma {:induction false} MarkReadsBack(a: nat, s: string, b: nat, t: string)
    requires Mark(a) + s == Mark(b) + t
    ensures a == b && s == t
  {
    assert (Mark(a) + s)[0] == (if a == 0 then '0' else '1') && (Mark(b) + t)[0] == (if b == 0 then '0' else '1');
    if a == 0 {
      assert s == (Mark(a) + s)[1..] && t == (Mark(b) + t)[1..];
    } else {
      assert Mark(a - 1) + s == (Mark(a) + s)[1..] && Mark(b - 1) + t == (Mark(b) + t)[1..];
      MarkReadsBack(a - 1, s, b - 1, t);
    }
  }

  lemma {:induction false} FlatReadsBack(ns: seq<nat>, s: string, ms: seq<nat>, t: string)
    requires |ns| == |ms| && Flat(ns, s) == Flat(ms, t)
    ensures ns == ms && s == t
  {
    if ns != [] {
      MarkReadsBack(ns[0], Flat(ns[1..], s), ms[0], Flat(ms[1..], t));
      FlatReadsBack(ns[1..], s, ms[1..], t);
      assert ns == [ns[0]] + ns[1..] && ms == [ms[0]] + ms[1..];
    }
  }

  function NumberAt(m: map<string, Value>, key: string): nat {
    if key in m && m[key].Num? && m[key].n >= 0.0 then m[key].n.Floor else 0
  }

  function Pagination(m: map<string, Value>): map<string, Value> {
    if "pagination" in m && m["pagination"].Obj? then m["pagination"].fields else map[]
  }

  function Numbers(m: map<string, Value>): seq<nat> {
    [NumberAt(m, "offset"), NumberAt(m, "max_bytes"), NumberAt(m, "chunk_len"), NumberAt(m, "next_offset"),
     NumberAt(m, "total_len"), NumberAt(Pagination(m), "current_part"), NumberAt(Pagination(m), "total_parts"),
     if "has_next" in m && m["has_next"] == Bool(true) then 1 else 0]
  }

  function Render(v: Value): string {
    if v.Obj? then Flat(Numbers(v.fields), ChunkText(v)) else ""
  }

  lemma ChunkNumbers(body: string, c: Chunk)
    ensures Numbers(ChunkResult(body, c)) ==
            [c.offset, c.maxBytes, |c.text|, if c.hasNext then c.end else 0, |body|, c.currentPart, c.totalParts,
             if c.hasNext then 1 else 0]
    ensures ChunkText(Obj(ChunkResult(body, c))) == c.text
  {
  }

  lemma RenderReadsBack(body: string, c: Chunk, other: string, d: Chunk)
    requires Render(Obj(ChunkResult(body, c))) == Render(Obj(ChunkResult(other, d)))
    ensures ChunkResult(body, c) == ChunkResult(other, d)
  {
    ChunkNumbers(body, c);
    ChunkNumbers(other, d);
    var ns, ms := Numbers(ChunkResult(body, c)), Numbers(ChunkResult(other, d));
    FlatReadsBack(ns, c.text, ms, d.text);
    assert ns[0] == ms[0] && ns[1] == ms[1] && ns[3] == ms[3] && ns[4] == ms[4];
    assert ns[5] == ms[5] && ns[6] == ms[6] && ns[7] == ms[7];
  }

  ghost function Parse(text: string): Option<Value> {
    if body: string, c: Chunk :| Render(Obj(ChunkResult(body, c))) == text then Some(Obj(Received(body, c))) else None
  }

  lemma ReceivedAlike(body: string, c: Chunk, other: string, d: Chunk)
    requires Render(Obj(ChunkResult(body, c))) == Render(Obj(ChunkResult(other, d)))
    ensures Received(body, c) == Received(other, d)
  {
    RenderReadsBack(body, c, other, d);
    assert ChunkResult(body, c)["diff_chunk"] == ChunkResult(other, d)["diff_chunk"];
    assert c.text == d.text;
  }

  lemma ChunksReparse(body: string, c: Chunk)
    ensures Parse(Render(Obj(ChunkResult(body, c)))) == Some(Obj(Received(body, c)))
  {
    var text := Render(Obj(ChunkResult(body, c)));
    var b, d :| Render(Obj(ChunkResult(b, d))) == text && Parse(text) == Some(Obj(Received(b, d)));
    ReceivedAlike(body, c, b, d);
  }

  // ----- the policy

  /** Only delete_ has no letter that the name lacks; the name has no d before an e. */
  lemma DiffIsNotMutating()
    ensures !IsMutatingName(DIFF)
  {
    forall i | 0 <= i < |DENIED| ensures !Contains(DIFF, DENIED[i]) {
      if i < 6 { DiffLacksFirst(i); } else { DiffLacksLast(i); }
    }
  }

  lemma DiffLacksFirst(i: nat)
    requires i < 6
    ensures !Contains(DIFF, DENIED[i])
  {
    if i == 3 {
      LacksPair(DIFF, "delete_");
    } else {
      Lacks(DIFF, DENIED[i], "camxhw"[i]);
    }
  }

  lemma DiffLacksLast(i: nat)
    requires 6 <= i < |DENIED|
    ensures !Contains(DIFF, DENIED[i])
  {
    Lacks(DIFF, DENIED[i], "cmmac"[i - 6]);
  }

  lemma DiffIsAllowed(p: Policy)
    requires DIFF in p.allowLocal
    ensures IsAllowed(p, "local", DIFF)
  {
    TrimSpaceOfTrimmed(DIFF);
    TrimSpaceOfTrimmed("local");
    assert ToLower(DIFF) == DIFF && ToLower("local") == "local";
    DiffIsNotMutating();
  }

  /** Whatever diffs there are to fetch and however patterns match, some environment serves them as the
      paging theorems ask. */
  lemma DiffEnvExists(fetch: (string, int) -> Option<string>, globs: DiffFilter.Globs) returns (env: Env)
    ensures DiffEnv(env, Backend(fetch, globs, Render)) && Inlines(env)
  {
    var b := Backend(fetch, globs, Render);
    env := Env(Policy({DIFF}, {}),
               (name, args) => if name == DIFF then DiffTool(b, args) else Reply(false, []),
               (name, args) => Reply(false, []),
               text => Parse(text),
               (name, v) => Shaped(v, v),
               (name, args, v) => Inline);
    DiffIsAllowed(env.policy);
    forall body: string, o, m ensures Reparses(env.parse, Render, body, ChunkAt(body, o, m)) {
      ChunksReparse(body, ChunkAt(body, o, m));
    }
  }

  const REQUEST := PlanStep(DIFF, "local", ObjectArgs(map["repo" := Str("o/r"), "number" := Num(1.0)]), "", "")

  lemma RequestAsks()
    ensures Asks(REQUEST, Input("o/r", 1, 0, 0, []))
  {
  }

  lemma AccentedIsDiff(globs: DiffFilter.Globs, i: Input)
    requires i.filter == []
    ensures IsDiff(Backend((repo, number) => Some(Accented()), globs, Render), i, Accented())
  {
  }

  /** One of these environments serves the diff whose last character a request of the default chunk size
      cuts, and so loses it. */
  lemma CutCharacterExists(globs: DiffFilter.Globs) returns (env: Env, b: Backend, i: Input)
    ensures DiffEnv(env, b) && Inlines(env) && Asks(REQUEST, i) && IsDiff(b, i, Accented())
    ensures i.offset == i.maxBytes == 0
  {
    b, i := Backend((repo, number) => Some(Accented()), globs, Render), Input("o/r", 1, 0, 0, []);
    env := DiffEnvExists(b.fetch, globs);
    RequestAsks();
    AccentedIsDiff(globs, i);
  }
}
