/** What the executor records of the chunks of a diff: their texts, decoded from JSON. The records hold
    the diff exactly if no chunk cuts a character. */
module DiffRecords {
  import opened Text
  import opened Json
  import opened Plans
  import opened Executor
  import opened ExecutorTheorems
  import opened DiffPaging
  import Utf8

  /** Results are small enough to stay in the records. */
  ghost predicate Inlines(env: Env) {
    forall n, a, v :: env.store(n, a, v) == Inline
  }

  /** The chunks in the records from k on, one after the other. */
  function Recorded(out: seq<ExecutedStep>, k: nat): string
    decreases |out| - k
  {
    if k >= |out| then "" else ChunkText(out[k].result) + Recorded(out, k + 1)
  }

  /** The chunks as the tool has cut them, each decoded from its rendering. */
  function Decoded(view: View, steps: seq<PlanStep>, k: nat): string
    decreases |steps| - k
  {
    if k >= |steps| then "" else Utf8.Repaired(view.chunk(steps[k]).text) + Decoded(view, steps, k + 1)
  }

  predicate RecordsChunk(exec: Exec, view: View, step: PlanStep) {
    ChunkText(exec(step).st.result) == Utf8.Repaired(view.chunk(step).text)
  }

  lemma RecordedChunk(env: Env, b: Backend, step: PlanStep, i: Input, body: string)
    requires DiffEnv(env, b) && Inlines(env) && Asks(step, i) && IsDiff(b, i, body)
    ensures RecordsChunk(Executes(env), ViewOf(body), step)
  {
    var c := ChunkAt(body, i.offset, i.maxBytes);
    ChunkExecution(env, b, step, i, body, c);
    assert env.store(step.name, step.args, Obj(Received(body, c))) == Inline;
  }

  lemma {:induction false} RecordsAt(xs: seq<Effect>, k: nat)
    requires k < |xs|
    ensures Records(xs)[k] == xs[k].st
  {
    if k > 0 { RecordsAt(xs[1..], k - 1); }
  }

  lemma RecordOf(exec: Exec, steps: seq<PlanStep>, k: nat)
    requires k < |steps|
    ensures |Records(ExecAll(exec, steps))| == |steps| && Records(ExecAll(exec, steps))[k] == exec(steps[k]).st
  {
    RecordsAt(ExecAll(exec, steps), k);
    ExecAllAt(exec, steps, k);
  }

  lemma {:induction false} RecordedChunks(exec: Exec, view: View, target: Target, steps: seq<PlanStep>,
                                          out: seq<ExecutedStep>, k: nat)
    requires forall step :: AsksFor(view, step, target) ==> RecordsChunk(exec, view, step)
    requires AllAskFor(view, steps, k, target) && out == Records(ExecAll(exec, steps)) && |out| == |steps|
    ensures Recorded(out, k) == Decoded(view, steps, k)
    decreases |steps| - k
  {
    if k < |steps| {
      RecordedChunks(exec, view, target, steps, out, k + 1);
      RecordOf(exec, steps, k);
      assert RecordsChunk(exec, view, steps[k]);
    }
  }

  /** Decoding makes the chunks longer unless it leaves every one as it is. */
  lemma {:induction false} DecodedIsJoinedIff(view: View, steps: seq<PlanStep>, k: nat)
    ensures |Decoded(view, steps, k)| >= |Joined(view, steps, k)|
    ensures AllWhole(view, steps, k) <==> |Decoded(view, steps, k)| == |Joined(view, steps, k)|
    ensures AllWhole(view, steps, k) ==> Decoded(view, steps, k) == Joined(view, steps, k)
    decreases |steps| - k
  {
    if k < |steps| {
      Utf8.RepairedIsLonger(view.chunk(steps[k]).text);
      DecodedIsJoinedIff(view, steps, k + 1);
    }
  }

  lemma RunRecordsChunks(env: Env, b: Backend, i: Input, body: string, steps: seq<PlanStep>)
    requires DiffEnv(env, b) && Inlines(env) && IsDiff(b, i, body) && AllAskFor(ViewOf(body), steps, 0, TargetOf(i))
    ensures Recorded(Records(ExecAll(Executes(env), steps)), 0) == Decoded(ViewOf(body), steps, 0)
  {
    var view := ViewOf(body);
    forall s | AsksFor(view, s, TargetOf(i)) ensures RecordsChunk(Executes(env), view, s) {
      var j := InputOf(s).value;
      InputIs(s, j);
      SameTarget(b, i, j, body);
      RecordedChunk(env, b, s, j, body);
    }
    if steps != [] { RecordOf(Executes(env), steps, 0); }
    RecordedChunks(Executes(env), view, TargetOf(i), steps, Records(ExecAll(Executes(env), steps)), 0);
  }

  /** The records hold the diff from the offset on, up to eleven chunks, exactly if every one of these
      chunks is UTF-8. */
  lemma RecordsHoldTheDiffIff(env: Env, b: Backend, step: PlanStep, i: Input, body: string, parallelism: int)
    requires DiffEnv(env, b) && Inlines(env) && Asks(step, i) && IsDiff(b, i, body)
    ensures var end := Run(Executes(env), [step], parallelism);
            && end.Completed?
            && (Recorded(end.s.out, 0) == body[From(i, body)..Reach(i, body, 11)] <==> WholeChunks(i, body, 11))
  {
    PagingReconstructsTheDiff(env, b, step, i, body, parallelism);
    CompletedRunIsExplained(Executes(env), [step], parallelism);
    var steps := Run(Executes(env), [step], parallelism).s.steps;
    RunRecordsChunks(env, b, i, body, steps);
    DecodedIsJoinedIff(ViewOf(body), steps, 0);
  }

  // ----- diffs that are UTF-8

  /** A chunk boundary does not cut a character: the byte there, if any, does not continue one. */
  predicate StartsAt(i: Input, body: string, k: nat) {
    Utf8.Starts(body, Reach(i, body, k))
  }

  predicate CutsBetween(i: Input, body: string, chunks: nat)
    decreases chunks
  {
    Utf8.Starts(body, From(i, body)) && (chunks > 0 ==> CutsBetween(Next(i, body), body, chunks - 1))
  }

  lemma {:induction false} CutsBetweenAt(i: Input, body: string, chunks: nat, k: nat)
    requires CutsBetween(i, body, chunks) && k <= chunks
    ensures StartsAt(i, body, k)
    decreases chunks
  {
    if k > 0 {
      CutsBetweenAt(Next(i, body), body, chunks - 1, k - 1);
      assert Reach(i, body, k) == Reach(Next(i, body), body, k - 1);
    }
  }

  lemma {:induction false} CutsBetweenFrom(i: Input, body: string, chunks: nat)
    requires forall k: nat :: k <= chunks ==> StartsAt(i, body, k)
    ensures CutsBetween(i, body, chunks)
    decreases chunks
  {
    assert StartsAt(i, body, 0) && Reach(i, body, 0) == From(i, body);
    if chunks > 0 {
      forall k: nat | k <= chunks - 1 ensures StartsAt(Next(i, body), body, k) {
        assert StartsAt(i, body, k + 1) && Reach(i, body, k + 1) == Reach(Next(i, body), body, k);
      }
      CutsBetweenFrom(Next(i, body), body, chunks - 1);
    }
  }

  lemma {:induction false} WholeChunksIff(i: Input, body: string, chunks: nat)
    requires Utf8.Valid(body) && chunks > 0
    ensures WholeChunks(i, body, chunks) <==> CutsBetween(i, body, chunks)
    decreases chunks
  {
    var next := Next(i, body);
    Utf8.PartIsValidIff(body, From(i, body), From(next, body));
    if chunks > 1 { WholeChunksIff(next, body, chunks - 1); }
  }

  /** If the diff is UTF-8, the records hold it exactly if no character is cut where one of the eleven
      chunks begins or ends. */
  lemma RecordsHoldTheDiff(env: Env, b: Backend, step: PlanStep, i: Input, body: string, parallelism: int)
    requires DiffEnv(env, b) && Inlines(env) && Asks(step, i) && IsDiff(b, i, body) && Utf8.Valid(body)
    ensures var end := Run(Executes(env), [step], parallelism);
            && end.Completed?
            && (Recorded(end.s.out, 0) == body[From(i, body)..Reach(i, body, 11)] <==>
                forall k: nat :: k <= 11 ==> StartsAt(i, body, k))
  {
    RecordsHoldTheDiffIff(env, b, step, i, body, parallelism);
    WholeChunksIff(i, body, 11);
    if CutsBetween(i, body, 11) {
      forall k: nat | k <= 11 ensures StartsAt(i, body, k) { CutsBetweenAt(i, body, 11, k); }
    }
    if forall k: nat :: k <= 11 ==> StartsAt(i, body, k) { CutsBetweenFrom(i, body, 11); }
  }

  /** 16001 bytes that end in a character of two bytes. */
  function Accented(): string {
    seq(15_999, _ => 'a') + "\U{C3}\U{A9}"
  }

  lemma AccentedFacts(i: Input)
    requires i.offset == i.maxBytes == 0
    ensures Utf8.Valid(Accented()) && !StartsAt(i, Accented(), 1)
    ensures From(i, Accented()) == 0 && Reach(i, Accented(), 11) == 16_001 == |Accented()|
  {
    var body := Accented();
    Utf8.AsciiIsValid(body[..15_999], "\U{C3}\U{A9}");
    assert body == body[..15_999] + "\U{C3}\U{A9}";
    ReachIs(i, body, 1);
    ReachIs(i, body, 11);
    assert Utf8.Continues(body[16_000]);
  }

  lemma CutDiffIsLost(env: Env, b: Backend, step: PlanStep, i: Input, body: string, parallelism: int, k: nat)
    requires DiffEnv(env, b) && Inlines(env) && Asks(step, i) && IsDiff(b, i, body) && Utf8.Valid(body)
    requires From(i, body) == 0 && Reach(i, body, 11) == |body| && k <= 11 && !StartsAt(i, body, k)
    ensures var end := Run(Executes(env), [step], parallelism); end.Completed? && Recorded(end.s.out, 0) != body
  {
    RecordsHoldTheDiff(env, b, step, i, body, parallelism);
    assert body[0..|body|] == body;
  }

  /** A chunk of the default size ends inside the last character, which the records then do not hold. */
  lemma CutCharacterIsLost(env: Env, b: Backend, step: PlanStep, i: Input, parallelism: int)
    requires DiffEnv(env, b) && Inlines(env) && Asks(step, i) && IsDiff(b, i, Accented())
    requires i.offset == i.maxBytes == 0
    ensures var end := Run(Executes(env), [step], parallelism);
            end.Completed? && Recorded(end.s.out, 0) != Accented()
  {
    AccentedFacts(i);
    CutDiffIsLost(env, b, step, i, Accented(), parallelism, 1);
  }
}
