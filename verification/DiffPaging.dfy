/** The diff tool's chunks and what auto-pagination makes of them: a one-step plan fetches
    consecutive chunks that join to the diff. A body is a string of one character per byte. */
module DiffPaging {
  import opened Text
  import opened Json
  import opened Plans
  import opened Executor
  import opened ExecutorTheorems
  import DiffFilter
  import Utf8

  const DEFAULT_CHUNK := 16_000
  const MAX_CHUNK := 64_000

  function ChunkSize(maxBytes: int): (m: nat)
    ensures 0 < m <= MAX_CHUNK
  {
    if maxBytes <= 0 then DEFAULT_CHUNK else if maxBytes > MAX_CHUNK then MAX_CHUNK else maxBytes
  }

  datatype Chunk = Chunk(offset: nat, maxBytes: nat, text: string, end: nat, hasNext: bool,
                         currentPart: nat, totalParts: nat)

  function ChunkBetween(body: string, offset: nat, end: nat, m: nat): Chunk
    requires offset <= end <= |body| && m > 0
  {
    Chunk(offset, m, body[offset..end], end, end < |body|, offset / m + 1, (|body| + m - 1) / m)
  }

  /** The chunk arithmetic, clamping its inputs step by step. */
  method CutChunk(body: string, offset: nat, maxBytes: int) returns (c: Chunk)
    ensures c == ChunkAt(body, offset, maxBytes)
  {
    var m, o := maxBytes, offset;
    if m <= 0 { m := 16_000; }
    if m > 64_000 { m := 64_000; }
    if o > |body| { o := |body|; }
    var end := o + m;
    if end > |body| { end := |body|; }
    c := ChunkBetween(body, o, end, m);
  }

  function Min(a: nat, b: nat): nat {
    if a <= b then a else b
  }

  function ChunkAt(body: string, offset: nat, maxBytes: int): Chunk {
    var m, o := ChunkSize(maxBytes), Min(offset, |body|);
    ChunkBetween(body, o, Min(o + m, |body|), m)
  }

  /** On the chunk boundaries of a non-empty body, the part counter reaches the number of parts
      exactly on the chunk that has no next one. */
  lemma LastPartHasNoNext(body: string, k: nat, maxBytes: int)
    requires k * ChunkSize(maxBytes) < |body|
    ensures var c := ChunkAt(body, k * ChunkSize(maxBytes), maxBytes);
            c.currentPart == k + 1 && (c.currentPart == c.totalParts <==> !c.hasNext)
  {
    var m := ChunkSize(maxBytes);
    var c := ChunkAt(body, k * m, maxBytes);
    QuotientIs(k * m, m, k, 0);
    if k * m + m < |body| {
      assert (k + 1) * m == k * m + m;
      assert |body| + m - 1 >= (k + 1) * m + m;
      QuotientAtLeast(|body| + m - 1, m, k + 2);
    } else {
      QuotientIs(|body| + m - 1, m, k + 1, |body| - 1 - k * m);
    }
  }

  lemma {:induction false} QuotientIs(a: nat, m: nat, q: nat, r: nat)
    requires m > 0 && r < m && a == q * m + r
    ensures a / m == q
  {
    if q == 0 {
      assert a == r;
    } else {
      assert (q - 1) * m == q * m - m;
      QuotientIs(a - m, m, q - 1, r);
      QuotientStep(a, m);
    }
  }

  lemma QuotientStep(a: nat, m: nat)
    requires m > 0 && a >= m
    ensures a / m == (a - m) / m + 1
  {
    var q, r, q', r' := a / m, a % m, (a - m) / m, (a - m) % m;
    assert a == m * q + r && a - m == m * q' + r';
    assert m * (q - 1 - q') == m * q - m - m * q';
    Outgrows(m, q - 1 - q');
  }

  lemma Outgrows(m: int, d: int)
    requires m > 0
    ensures d >= 1 ==> m * d >= m
    ensures d <= -1 ==> m * d <= -m
  {
  }

  lemma QuotientAtLeast(a: nat, m: nat, q: nat)
    requires m > 0 && a >= q * m
    ensures a / m >= q
    decreases q
  {
    if q > 0 {
      assert (q - 1) * m == q * m - m;
      assert q * m >= m;
      QuotientAtLeast(a - m, m, q - 1);
      QuotientStep(a, m);
    }
  }

  // ----- the tool

  datatype Input = Input(repo: string, number: int, offset: int, maxBytes: int, filter: seq<string>)

  function StringArg(m: map<string, Value>, key: string): Option<string> {
    if key !in m || m[key].Null? then Some("") else if m[key].Str? then Some(m[key].s) else None
  }

  function IntArg(m: map<string, Value>, key: string): Option<int> {
    if key !in m || m[key].Null? then Some(0)
    else if m[key].Num? && m[key].n == m[key].n.Floor as real then Some(m[key].n.Floor)
    else None
  }

  function Texts(vs: seq<Value>): Option<seq<string>> {
    if vs == [] then Some([])
    else
      var rest := Texts(vs[1..]);
      if rest.None? || !(vs[0].Str? || vs[0].Null?) then None
      else Some([if vs[0].Str? then vs[0].s else ""] + rest.value)
  }

  function TextsArg(m: map<string, Value>, key: string): Option<seq<string>> {
    if key !in m || m[key].Null? then Some([]) else if m[key].Arr? then Texts(m[key].items) else None
  }

  /** json.Unmarshal into the tool's input struct. */
  function DecodeInput(args: Args): Option<Input> {
    match args
    case Malformed(_) => None
    case NullArgs => Some(Input("", 0, 0, 0, []))
    case ObjectArgs(m) =>
      var repo, number, offset, maxBytes, filter :=
        StringArg(m, "repo"), IntArg(m, "number"), IntArg(m, "offset"), IntArg(m, "max_bytes"),
        TextsArg(m, "file_filter");
      if repo.None? || number.None? || offset.None? || maxBytes.None? || filter.None? then None
      else Some(Input(repo.value, number.value, offset.value, maxBytes.value, filter.value))
  }

  /** The fields that tell the chunk; the executor does not look at the others. */
  function ChunkResult(body: string, c: Chunk): map<string, Value> {
    map["offset" := Num(c.offset as real),
        "max_bytes" := Num(c.maxBytes as real),
        "chunk_len" := Num(|c.text| as real),
        "has_next" := Bool(c.hasNext),
        "next_offset" := if c.hasNext then Num(c.end as real) else Null,
        "diff_chunk" := Str(c.text),
        "total_len" := Num(|body| as real),
        "pagination" := Obj(map["current_part" := Num(c.currentPart as real),
                                "total_parts" := Num(c.totalParts as real)])]
  }

  /** What the handler calls: the GitHub request, the glob engine and json.Marshal. */
  datatype Backend = Backend(
    fetch: (string, int) -> Option<string>,
    globs: DiffFilter.Globs,
    render: Value -> string)

  /** The diff that the chunks are cut from. */
  function Diff(b: Backend, i: Input): Option<string> {
    match b.fetch(i.repo, i.number)
    case None => None
    case Some(diff) =>
      Some(if i.filter == [] then diff else DiffFilter.FilterText(DiffFilter.ByPatterns(b.globs, i.filter), diff))
  }

  function DiffTool(b: Backend, args: Args): ToolReply {
    match DecodeInput(args)
    case None => Reply(true, ["Invalid input"])
    case Some(i) =>
      if i.repo == "" || i.number <= 0 then Reply(true, ["repo and positive number are required"])
      else if i.offset < 0 then Reply(true, ["offset must be >= 0"])
      else
        match Diff(b, i)
        case None => Reply(true, ["GitHub API error"])
        case Some(body) => Reply(false, [b.render(Obj(ChunkResult(body, ChunkAt(body, i.offset, i.maxBytes))))])
  }

  // ----- auto-pagination

  const DIFF := "get_pull_request_diff"

  /** The result that json.Unmarshal makes of a chunk's rendering. */
  function Received(body: string, c: Chunk): map<string, Value> {
    ChunkResult(body, c)["diff_chunk" := Str(Utf8.Repaired(c.text))]
  }

  predicate Reparses(parse: string -> Option<Value>, render: Value -> string, body: string, c: Chunk) {
    parse(render(Obj(ChunkResult(body, c)))) == Some(Obj(Received(body, c)))
  }

  /** The integers up to here are read back exactly, as JSON numbers are decoded to floats. */
  const EXACT := 0x20_0000_0000_0000

  /** An executor whose diff tool is the handler above, without output shaping, on a store that does not
      fail. */
  ghost predicate DiffEnv(env: Env, b: Backend) {
    && IsAllowed(env.policy, "local", DIFF)
    && (forall body: string, o, m :: |body| <= EXACT ==> Reparses(env.parse, b.render, body, ChunkAt(body, o, m)))
    && (forall args :: env.local(DIFF, args) == DiffTool(b, args))
    && (forall v :: env.shape(DIFF, v) == Shaped(v, v))
    && (forall n, a, v :: !env.store(n, a, v).StoreError?)
  }

  predicate Asks(step: PlanStep, i: Input) {
    && step.name == DIFF && step.source == "local" && step.args.ObjectArgs? && DecodeInput(step.args) == Some(i)
    && i.repo != "" && i.number > 0 && i.offset >= 0
  }

  /** The diff of the pull request, or what the patterns leave of it. */
  predicate IsDiff(b: Backend, i: Input, body: string) {
    var fetched := b.fetch(i.repo, i.number);
    && fetched.Some? && |body| <= EXACT
    && body == if i.filter == [] then fetched.value
               else DiffFilter.FilterText(DiffFilter.ByPatterns(b.globs, i.filter), fetched.value)
  }

  /** Which diff an input asks for, whatever the chunk. */
  datatype Target = Target(repo: string, number: int, filter: seq<string>)

  function TargetOf(i: Input): Target {
    Target(i.repo, i.number, i.filter)
  }

  lemma ChunkEffect(env: Env, b: Backend, step: PlanStep, i: Input, body: string)
    requires DiffEnv(env, b) && Asks(step, i) && IsDiff(b, i, body)
    ensures var x, c := Executes(env)(step), ChunkAt(body, i.offset, i.maxBytes);
            && x.err == None
            && if c.hasNext then x.page.NextPage? && Asks(x.page.step, i.(offset := c.end)) else x.page == NoPage
  {
    var c := ChunkAt(body, i.offset, i.maxBytes);
    ChunkExecution(env, b, step, i, body, c);
    ChunkContinuation(step, i, body, c);
  }

  function ChunkText(v: Value): string {
    if v.Obj? && "diff_chunk" in v.fields && v.fields["diff_chunk"].Str? then v.fields["diff_chunk"].s else ""
  }

  lemma ChunkExecution(env: Env, b: Backend, step: PlanStep, i: Input, body: string, c: Chunk)
    requires DiffEnv(env, b) && Asks(step, i) && IsDiff(b, i, body) && c == ChunkAt(body, i.offset, i.maxBytes)
    ensures ExecOne(env, step).resultMap == Some(Received(body, c)) && ExecOne(env, step).err == None
    ensures env.store(step.name, step.args, Obj(Received(body, c))) == Inline ==>
              ExecOne(env, step).st.result == Obj(Received(body, c))
  {
    var v := Obj(Received(body, c));
    ToolAnswers(b, step.args, i, body, c);
    assert Reparses(env.parse, b.render, body, c);
    assert ToLower("local") == "local";
    PlainExecution(env, step, b.render(Obj(ChunkResult(body, c))), v);
  }

  /** A result that is an object and is not shaped goes into the record unless it is stored away. */
  lemma PlainExecution(env: Env, step: PlanStep, text: string, v: Value)
    requires IsAllowed(env.policy, step.source, step.name) && !step.args.Malformed? && v.Obj?
    requires ReplyTo(env, step) == Reply(false, [text]) && env.parse(text) == Some(v)
    requires env.shape(step.name, v) == Shaped(v, v) && !env.store(step.name, step.args, v).StoreError?
    ensures ExecOne(env, step).resultMap == Some(v.fields) && ExecOne(env, step).err == None
    ensures env.store(step.name, step.args, v) == Inline ==> ExecOne(env, step).st.result == v
  {
    AnsweredStepRecords(env, step, v);
  }

  lemma ToolAnswers(b: Backend, args: Args, i: Input, body: string, c: Chunk)
    requires DecodeInput(args) == Some(i) && i.repo != "" && i.number > 0 && i.offset >= 0
    requires IsDiff(b, i, body) && c == ChunkAt(body, i.offset, i.maxBytes)
    ensures DiffTool(b, args) == Reply(false, [b.render(Obj(ChunkResult(body, c)))])
  {
  }

  lemma ChunkContinuation(step: PlanStep, i: Input, body: string, c: Chunk)
    requires Asks(step, i)
    ensures var page := CreateContinuation(step, Received(body, c));
            if c.hasNext then page.NextPage? && Asks(page.step, i.(offset := c.end)) else page == NoPage
  {
    var result := Received(body, c);
    assert step.name !in JIRA_LISTS;
    assert result["has_next"] == Bool(c.hasNext);
    if c.hasNext {
      assert result["next_offset"] == Num(c.end as real);
      ToIntOfInt(c.end);
    }
  }

  // ----- the chunks of a run

  function From(i: Input, body: string): (o: nat)
    ensures o <= |body|
  {
    Min(if i.offset < 0 then 0 else i.offset, |body|)
  }

  function Next(i: Input, body: string): Input {
    i.(offset := Min(From(i, body) + ChunkSize(i.maxBytes), |body|))
  }

  /** Where the given number of chunks ends. */
  function Reach(i: Input, body: string, chunks: nat): (r: nat)
    ensures From(i, body) <= r <= |body|
    decreases chunks
  {
    if chunks == 0 then From(i, body) else Reach(Next(i, body), body, chunks - 1)
  }

  lemma {:induction false} ReachIs(i: Input, body: string, chunks: nat)
    ensures Reach(i, body, chunks) == Min(From(i, body) + ChunkSize(i.maxBytes) * chunks, |body|)
    decreases chunks
  {
    var m := ChunkSize(i.maxBytes);
    Outgrows(m, chunks);
    if chunks > 0 {
      assert m * chunks == m + m * (chunks - 1);
      Outgrows(m, chunks - 1);
      ReachIs(Next(i, body), body, chunks - 1);
    }
  }

  /** The next chunks are UTF-8, one by one. */
  predicate WholeChunks(i: Input, body: string, chunks: nat)
    decreases chunks
  {
    chunks > 0 ==>
      Utf8.Valid(body[From(i, body)..From(Next(i, body), body)]) && WholeChunks(Next(i, body), body, chunks - 1)
  }

  lemma {:induction false} NothingToCut(i: Input, body: string, chunks: nat)
    requires From(i, body) == |body|
    ensures WholeChunks(i, body, chunks)
    decreases chunks
  {
    if chunks > 0 { NothingToCut(Next(i, body), body, chunks - 1); }
  }

  /** The chunk that an input asks for. */
  predicate IsChunk(c: Chunk, i: Input, body: string) {
    && c.offset == From(i, body) && c.end == Next(i, body).offset && c.offset <= c.end <= |body|
    && c.text == body[c.offset..c.end] && (c.hasNext <==> c.end < |body|)
  }

  /** What a run knows of its steps: the inputs of those that ask for chunks, and the chunks. */
  datatype View = View(input: PlanStep -> Option<Input>, chunk: PlanStep -> Chunk)

  function InputOf(step: PlanStep): Option<Input> {
    var i := DecodeInput(step.args);
    if i.Some? && Asks(step, i.value) then i else None
  }

  function ChunkOf(body: string, step: PlanStep): Chunk {
    match InputOf(step)
    case None => Chunk(0, 0, "", 0, false, 0, 0)
    case Some(i) => ChunkAt(body, i.offset, i.maxBytes)
  }

  function ViewOf(body: string): View {
    View(step => InputOf(step), step => ChunkOf(body, step))
  }

  /** The step succeeds, and asks for the next chunk exactly when there is one. */
  predicate Yields(view: View, x: Effect, next: Input, c: Chunk) {
    x.err == None && if c.hasNext then x.page.NextPage? && view.input(x.page.step) == Some(next) else x.page == NoPage
  }

  predicate ServesOne(exec: Exec, view: View, step: PlanStep, i: Input, body: string) {
    IsChunk(view.chunk(step), i, body) && Yields(view, exec(step), Next(i, body), view.chunk(step))
  }

  /** The executor runs a tool that serves chunks of the body. */
  ghost predicate Serves(exec: Exec, view: View, target: Target, body: string) {
    forall step, i :: view.input(step) == Some(i) && TargetOf(i) == target ==> ServesOne(exec, view, step, i, body)
  }

  /** The steps from k on ask for chunks of this diff. */
  predicate AllAskFor(view: View, steps: seq<PlanStep>, k: nat, target: Target)
    decreases |steps| - k
  {
    k < |steps| ==> AsksFor(view, steps[k], target) && AllAskFor(view, steps, k + 1, target)
  }

  predicate AsksFor(view: View, step: PlanStep, target: Target) {
    view.input(step).Some? && TargetOf(view.input(step).value) == target
  }

  /** The chunks of the steps from k on, one after the other. */
  function Joined(view: View, steps: seq<PlanStep>, k: nat): string
    decreases |steps| - k
  {
    if k >= |steps| then "" else view.chunk(steps[k]).text + Joined(view, steps, k + 1)
  }

  /** They are UTF-8, one by one. */
  predicate AllWhole(view: View, steps: seq<PlanStep>, k: nat)
    decreases |steps| - k
  {
    k < |steps| ==> Utf8.Valid(view.chunk(steps[k]).text) && AllWhole(view, steps, k + 1)
  }

  /** The run ended after serving, from step k on, the n chunks that follow the input's offset. */
  predicate Served(end: End, view: View, body: string, i: Input, k: nat, n: nat) {
    && end.Completed? && k < |end.s.steps|
    && AllAskFor(view, end.s.steps, k, TargetOf(i))
    && Joined(view, end.s.steps, k) == body[From(i, body)..Reach(i, body, n)]
    && view.chunk(end.s.steps[|end.s.steps| - 1]).end == Reach(i, body, n)
    && (AllWhole(view, end.s.steps, k) <==> WholeChunks(i, body, n))
  }

  lemma JoinTexts(body: string, c: Chunk, to: nat)
    requires c.offset <= c.end <= to <= |body| && c.text == body[c.offset..c.end]
    ensures c.text + body[c.end..to] == body[c.offset..to]
  {
  }

  lemma ServedOneMore(end: End, view: View, body: string, step: PlanStep, i: Input, next: Input, k: nat, n: nat)
    requires view.input(step) == Some(i) && IsChunk(view.chunk(step), i, body) && next == Next(i, body)
    requires Served(end, view, body, next, k + 1, n) && end.s.steps[k] == step
    ensures Served(end, view, body, i, k, n + 1)
  {
    JoinTexts(body, view.chunk(step), Reach(next, body, n));
  }

  lemma ServedOnce(s: RunState, view: View, body: string, step: PlanStep, i: Input, n: nat)
    requires view.input(step) == Some(i) && IsChunk(view.chunk(step), i, body)
    requires |s.steps| > 0 && s.steps[|s.steps| - 1] == step && (view.chunk(step).hasNext ==> n == 0)
    ensures Served(Completed(s), view, body, i, |s.steps| - 1, n + 1)
  {
    var c, next := view.chunk(step), Next(i, body);
    if !c.hasNext { NothingToCut(next, body, n); }
    assert Reach(i, body, n + 1) == Reach(next, body, n) == c.end;
    assert Joined(view, s.steps, |s.steps| - 1) == c.text + "" == c.text;
  }

  lemma {:induction false} DriveExtends(exec: Exec, s: RunState)
    requires Valid(s)
    ensures Drive(exec, s, 1).Completed? ==> s.steps <= Drive(exec, s, 1).s.steps
    decreases Fuel(s)
  {
    if s.i < |s.steps| {
      TurnUsesFuel(exec, s, 1);
      var turn := NextTurn(exec, s, 1);
      if turn.Continue? { DriveExtends(exec, turn.s); }
    }
  }

  /** The current step of s is still there at the end. */
  predicate Kept(end: End, s: RunState)
    requires s.i < |s.steps|
  {
    end.Completed? ==> s.i < |end.s.steps| && end.s.steps[s.i] == s.steps[s.i]
  }

  lemma StepKept(exec: Exec, s: RunState, a: RunState)
    requires Valid(a) && s.i < |s.steps| && s.steps <= a.steps
    ensures Kept(Drive(exec, a, 1), s)
  {
    DriveExtends(exec, a);
  }

  predicate Waiting(view: View, s: RunState, i: Input) {
    s.count == s.i <= MAX_CONTINUATIONS && |s.steps| == s.i + 1 && view.input(s.steps[s.i]) == Some(i)
  }

  /** One chunk: the next one joins the work list while the budget lasts. */
  lemma ChunkTurn(exec: Exec, view: View, s: RunState, i: Input, body: string) returns (a: RunState)
    requires Serves(exec, view, TargetOf(i), body) && Waiting(view, s, i)
    ensures Valid(a) && Drive(exec, s, 1) == Drive(exec, a, 1) && Kept(Drive(exec, a, 1), s)
    ensures IsChunk(view.chunk(s.steps[s.i]), i, body)
    ensures if view.chunk(s.steps[s.i]).hasNext && s.i < MAX_CONTINUATIONS
            then Waiting(view, a, Next(i, body)) && a.i == s.i + 1
            else a.steps == s.steps && a.i == |a.steps|
  {
    var step := s.steps[s.i];
    assert ServesOne(exec, view, step, i, body);
    a := TakeOne(s, exec(step)).s;
    DriveStep(exec, s, a);
    StepKept(exec, s, a);
  }

  lemma LastChunk(a: RunState, s: RunState, view: View, i: Input, body: string, n: nat)
    requires Waiting(view, s, i) && IsChunk(view.chunk(s.steps[s.i]), i, body) && s.steps == a.steps
    requires view.chunk(s.steps[s.i]).hasNext ==> n == 0
    ensures Served(Completed(a), view, body, i, s.i, n + 1)
  {
    ServedOnce(a, view, body, s.steps[s.i], i, n);
  }

  lemma MoreChunks(end: End, s: RunState, view: View, i: Input, body: string, next: Input, k: nat, n: nat)
    requires Waiting(view, s, i) && IsChunk(view.chunk(s.steps[s.i]), i, body) && Kept(end, s)
    requires k == s.i + 1 && next == Next(i, body) && Served(end, view, body, next, k, n)
    ensures Served(end, view, body, i, s.i, n + 1)
  {
    ServedOneMore(end, view, body, s.steps[s.i], i, next, s.i, n);
  }

  lemma {:induction false} DriveChunks(exec: Exec, view: View, s: RunState, i: Input, body: string, n: nat)
      returns (end: End)
    requires Serves(exec, view, TargetOf(i), body) && Waiting(view, s, i) && s.i + n == MAX_CONTINUATIONS
    ensures end == Drive(exec, s, 1) && Served(end, view, body, i, s.i, n + 1)
    decreases n
  {
    var a := ChunkTurn(exec, view, s, i, body);
    if view.chunk(s.steps[s.i]).hasNext && n > 0 {
      end := DriveChunks(exec, view, a, Next(i, body), body, n - 1);
      MoreChunks(end, s, view, i, body, Next(i, body), a.i, n);
    } else {
      end := Completed(a);
      DriveStop(exec, a);
      LastChunk(a, s, view, i, body, n);
    }
  }

  lemma PagingOfServed(exec: Exec, view: View, step: PlanStep, i: Input, body: string, parallelism: int)
    requires Serves(exec, view, TargetOf(i), body) && Paginates(exec) && PanicsOnNull(exec)
    requires view.input(step) == Some(i) && step.args.ObjectArgs?
    ensures Served(Run(exec, [step], parallelism), view, body, i, 0, 11)
  {
    var end := DriveChunks(exec, view, Start([step]), i, body, 10);
    assert NoGroupedNull([step], parallelism);
    ParallelRefinesSequential(exec, [step], parallelism);
  }

  // ----- the diff tool serves chunks

  lemma InputIs(step: PlanStep, i: Input)
    ensures InputOf(step) == Some(i) <==> Asks(step, i)
  {
  }

  lemma ChunkAtIs(i: Input, body: string)
    requires i.offset >= 0
    ensures IsChunk(ChunkAt(body, i.offset, i.maxBytes), i, body)
  {
  }

  lemma SameTarget(b: Backend, i: Input, j: Input, body: string)
    requires IsDiff(b, i, body) && TargetOf(j) == TargetOf(i)
    ensures IsDiff(b, j, body)
  {
  }

  lemma ServesChunks(env: Env, b: Backend, i: Input, body: string)
    requires DiffEnv(env, b) && IsDiff(b, i, body)
    ensures Serves(Executes(env), ViewOf(body), TargetOf(i), body)
  {
    forall s, j | InputOf(s) == Some(j) && TargetOf(j) == TargetOf(i)
      ensures ServesOne(Executes(env), ViewOf(body), s, j, body)
    {
      InputIs(s, j);
      SameTarget(b, i, j, body);
      ServesChunk(env, b, s, j, body);
    }
  }

  lemma ServesChunk(env: Env, b: Backend, step: PlanStep, i: Input, body: string)
    requires DiffEnv(env, b) && Asks(step, i) && InputOf(step) == Some(i) && IsDiff(b, i, body)
    ensures ServesOne(Executes(env), ViewOf(body), step, i, body)
  {
    ChunkEffect(env, b, step, i, body);
    ChunkAtIs(i, body);
    var x, next := Executes(env)(step), Next(i, body);
    if x.page.NextPage? { InputIs(x.page.step, next); }
  }

  lemma ReachOfAll(i: Input, body: string)
    ensures Reach(i, body, 11) == Min(From(i, body) + ChunkSize(i.maxBytes) * 11, |body|)
  {
    ReachIs(i, body, 11);
  }

  lemma MoreIff(end: End, view: View, body: string, i: Input)
    requires Served(end, view, body, i, 0, 11)
    ensures Reach(i, body, 11) == Min(From(i, body) + ChunkSize(i.maxBytes) * 11, |body|)
    ensures var last := end.s.steps[|end.s.steps| - 1];
            view.chunk(last).end < |body| <==> From(i, body) + ChunkSize(i.maxBytes) * 11 < |body|
  {
    ReachOfAll(i, body);
  }

  lemma {:induction false} LastAsks(view: View, steps: seq<PlanStep>, k: nat, target: Target)
    requires k < |steps| && AllAskFor(view, steps, k, target)
    ensures AsksFor(view, steps[|steps| - 1], target)
    decreases |steps| - k
  {
    if k + 1 < |steps| { LastAsks(view, steps, k + 1, target); }
  }

  lemma HasNextIff(body: string, step: PlanStep)
    requires InputOf(step).Some?
    ensures ChunkOf(body, step).hasNext <==> ChunkOf(body, step).end < |body|
  {
  }

  /** A one-step diff plan delivers, at any parallelism, consecutive chunks that join to the diff from
      its offset on, cut off after eleven chunks; the last chunk says there is more exactly when
      something was cut off. */
  lemma PagingReconstructsTheDiff(env: Env, b: Backend, step: PlanStep, i: Input, body: string, parallelism: int)
    requires DiffEnv(env, b) && Asks(step, i) && IsDiff(b, i, body)
    ensures var end, o, m := Run(Executes(env), [step], parallelism), From(i, body), ChunkSize(i.maxBytes);
            && Served(end, ViewOf(body), body, i, 0, 11) && Reach(i, body, 11) == Min(o + m * 11, |body|)
            && (ChunkOf(body, end.s.steps[|end.s.steps| - 1]).hasNext <==> o + m * 11 < |body|)
  {
    var view := ViewOf(body);
    ServesChunks(env, b, i, body);
    ExecutorPaginates(env);
    ExecutorPanicsOnNull(env);
    InputIs(step, i);
    PagingOfServed(Executes(env), view, step, i, body, parallelism);
    var end := Run(Executes(env), [step], parallelism);
    MoreIff(end, view, body, i);
    LastAsks(view, end.s.steps, 0, TargetOf(i));
    HasNextIff(body, end.s.steps[|end.s.steps| - 1]);
  }
}
