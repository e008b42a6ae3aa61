/** The plan executor: a work list that grows while it is consumed, run step by step or in
    parallel groups. Functions give the meaning of a step, a group and a whole run; the methods
    are the executor itself, proved against them. */
module Executor {
  import opened Text
  import opened Json
  import opened Plans

  const MAX_CONTINUATIONS: nat := 10

  datatype Item = Item(id: string, tool: string)
  datatype ToolReply = HandlerError(msg: string) | Reply(isError: bool, content: seq<string>)
  datatype StoreReply = StoreError(msg: string) | Inline | Stored(replacement: Value, item: Item)

  /** Output shaping yields a value or an error, and may change the value it was given in place. */
  datatype ShapeReply = ShapeError(msg: string, original: Value) | Shaped(value: Value, original: Value)

  /** What the executor calls: the local handlers, the upstream server, json.Unmarshal on a tool's
      text, output shaping with the options of the run and the artifact store, each a function of its
      arguments. */
  datatype Env = Env(
    policy: Policy,
    local: (string, Args) -> ToolReply,
    upstream: (string, Args) -> ToolReply,
    parse: string -> Option<Value>,
    shape: (string, Value) -> ShapeReply,
    store: (string, Args, Value) -> StoreReply)

  datatype ExecutedStep = ExecutedStep(
    name: string, source: string, args: Args, ok: bool, result: Value, error: string)

  /** What executing one step yields: its record, the result map when the tool returned a JSON
      object, the artifact it created and the error that stops the run. */
  datatype Execution = Execution(
    st: ExecutedStep, resultMap: Option<map<string, Value>>, item: Option<Item>, err: Option<string>)

  predicate IsLocal(step: PlanStep) {
    EqualFold(step.source, "local")
  }

  function Dispatch(env: Env, step: PlanStep): ToolReply {
    if IsLocal(step) then env.local(step.name, step.args) else env.upstream(step.name, step.args)
  }

  function ExecOne(env: Env, step: PlanStep): Execution {
    var st := ExecutedStep(step.name, step.source, step.args, false, Null, "");
    if !IsAllowed(env.policy, step.source, step.name) then
      Execution(st.(error := "blocked by policy"), None, None, Some("blocked tool: " + step.name))
    else if step.args.Malformed? then
      Execution(st.(error := "invalid args: must be JSON object"), None, None, Some("invalid args for " + step.name))
    else
      match Dispatch(env, step)
      case HandlerError(msg) => Execution(st.(error := msg), None, None, Some(msg))
      case Reply(true, content) =>
        var text := if |content| > 0 then content[0] else "tool returned error";
        Execution(st.(error := text), None, None, Some("tool error"))
      case Reply(false, content) => Accept(env, step, st.(ok := true), content)
  }

  function MapOf(v: Value): Option<map<string, Value>> {
    if v.Obj? then Some(v.fields) else None
  }

  /** The part of a step's execution after the tool has answered without an error. The result map is the
      tool's own value, as shaping has left it. */
  function Accept(env: Env, step: PlanStep, st: ExecutedStep, content: seq<string>): Execution {
    var parsed := if |content| > 0 then env.parse(content[0]) else Some(Null);
    var result := if parsed.Some? then parsed.value else Str(content[0]);
    if result.Null? then Execution(st, None, None, None)
    else
      match env.shape(step.name, result)
      case ShapeError(msg, original) =>
        var e := "output shaping error: " + msg;
        Execution(st.(ok := false, result := original, error := e), MapOf(original), None, Some(msg))
      case Shaped(shaped, original) => Keep(env, step, st.(result := shaped), original)
  }

  /** The decision between the shaped value and an artifact of the tool's own value. */
  function Keep(env: Env, step: PlanStep, st: ExecutedStep, original: Value): Execution {
    match env.store(step.name, step.args, original)
    case StoreError(msg) =>
      var e := "artifact store error: " + msg;
      Execution(st.(ok := false, error := e), MapOf(original), None, Some(msg))
    case Inline => Execution(st, MapOf(original), None, None)
    case Stored(repl, item) => Execution(st.(result := repl), MapOf(original), Some(item), None)
  }

  // ----- continuation steps

  /** The next page of a step, none, or the panic of assigning into the nil map that the
      arguments `null` decode to. */
  datatype Page = NoPage | NextPage(step: PlanStep) | Panic

  function WithArg(step: PlanStep, key: string, v: Value, reason: string): Page {
    match step.args
    case Malformed(_) => NoPage
    case NullArgs => Panic
    case ObjectArgs(fields) =>
      NextPage(PlanStep(step.name, step.source, ObjectArgs(fields[key := v]), "Auto-continuation: " + reason, ""))
  }

  function WithInt(step: PlanStep, key: string, i: int, reason: string): Page {
    WithArg(step, key, Num(i as real), reason + Itoa(i))
  }

  function NumField(m: map<string, Value>, key: string): Option<int> {
    if key in m && m[key].Num? then Some(ToInt(m[key].n)) else None
  }

  const JIRA_LISTS := {"jira_search_issues", "jira_get_issue_comments", "jira_list_projects"}
  const PR_LISTS := {"list_pull_request_files", "list_pull_request_commits"}

  /** Jira pages say where they start, not that more follows. */
  function NextJiraStart(name: string, result: map<string, Value>): Option<int> {
    var startAt, maxResults, total :=
      NumField(result, "startAt"), NumField(result, "maxResults"), NumField(result, "total");
    if name in JIRA_LISTS && startAt.Some? && maxResults.Some? && total.Some?
       && startAt.value + maxResults.value < total.value
    then Some(startAt.value + maxResults.value) else None
  }

  function CreateContinuation(step: PlanStep, result: map<string, Value>): Page {
    if step.args.Malformed? then NoPage
    else if NextJiraStart(step.name, result).Some? then
      WithInt(step, "startAt", NextJiraStart(step.name, result).value, "fetching next page at startAt ")
    else if "has_next" !in result || result["has_next"] != Bool(true) then NoPage
    else if step.name == "get_pull_request_diff" && NumField(result, "next_offset").Some? then
      WithInt(step, "offset", NumField(result, "next_offset").value, "fetching next diff chunk at offset ")
    else if step.name in PR_LISTS && NumField(result, "next_page").Some? then
      WithInt(step, "page", NumField(result, "next_page").value, "fetching page ")
    else if "next_cursor" in result && result["next_cursor"].Str? && TrimSpace(result["next_cursor"].s) != "" then
      WithArg(step, "cursor", result["next_cursor"], "fetching next page using cursor")
    else if NumField(result, "next_start").Some? then
      WithInt(step, "start", NumField(result, "next_start").value, "fetching next page at start ")
    else NoPage
  }

  /** All that a step's execution contributes to the run: its record, the page it asks for, the
      artifact it created and the error that stops the run. */
  datatype Effect = Effect(st: ExecutedStep, page: Page, item: Option<Item>, err: Option<string>)

  function EffectOf(env: Env, step: PlanStep): Effect {
    var x := ExecOne(env, step);
    Effect(x.st, if x.resultMap.None? then NoPage else CreateContinuation(step, x.resultMap.value), x.item, x.err)
  }

  /** The run itself sees each step's execution only as a function from steps to effects. */
  type Exec = PlanStep -> Effect

  function Executes(env: Env): Exec {
    step => EffectOf(env, step)
  }

  // ----- the meaning of a run

  /** The executor's variables between two turns of its loop; i counts the executed steps. */
  datatype RunState = RunState(
    steps: seq<PlanStep>, i: nat, count: nat, out: seq<ExecutedStep>, manifest: seq<Item>)

  datatype End = Completed(s: RunState) | Failed(s: RunState, err: string) | Panicked

  datatype Turn = Continue(s: RunState) | Stop(end: End)

  predicate Valid(s: RunState) {
    s.i <= |s.steps| && s.count <= MAX_CONTINUATIONS
  }

  /** Every turn uses up a step, and a step is only added by using up the budget. */
  function Fuel(s: RunState): int {
    |s.steps| - s.i + MAX_CONTINUATIONS - s.count
  }

  function Items(x: Effect): seq<Item> {
    if x.item.Some? then [x.item.value] else []
  }

  /** Appends the page of one executed step while the budget lasts; None is the panic. */
  function AddPage(s: RunState, x: Effect): Option<RunState> {
    if s.count >= MAX_CONTINUATIONS then Some(s)
    else
      match x.page
      case NoPage => Some(s)
      case NextPage(p) => Some(s.(steps := s.steps + [p], count := s.count + 1))
      case Panic => None
  }

  function Record(s: RunState, x: Effect): RunState {
    s.(out := s.out + [x.st], manifest := s.manifest + Items(x))
  }

  /** One sequential turn, given what the step's execution yielded. */
  function TakeOne(s: RunState, x: Effect): Turn
    requires Valid(s) && s.i < |s.steps|
  {
    var r := Record(s, x);
    if x.err.Some? then Stop(Failed(r.(i := s.i + 1), x.err.value))
    else
      match AddPage(r, x)
      case None => Stop(Panicked)
      case Some(a) => Continue(a.(i := s.i + 1))
  }

  function SequentialTurn(exec: Exec, s: RunState): Turn
    requires Valid(s) && s.i < |s.steps|
  {
    TakeOne(s, exec(s.steps[s.i]))
  }

  function RecordAll(s: RunState, xs: seq<Effect>): RunState
    decreases |xs|
  {
    if xs == [] then s else RecordAll(Record(s, xs[0]), xs[1..])
  }

  function AddPages(s: RunState, xs: seq<Effect>): Option<RunState>
    decreases |xs|
  {
    if xs == [] then Some(s)
    else
      match AddPage(s, xs[0])
      case None => None
      case Some(a) => AddPages(a, xs[1..])
  }

  function FirstError(xs: seq<Effect>): Option<string> {
    if xs == [] then None else if xs[0].err.Some? then xs[0].err else FirstError(xs[1..])
  }

  function ExecAll(exec: Exec, group: seq<PlanStep>): (xs: seq<Effect>)
    ensures |xs| == |group|
  {
    if group == [] then [] else [exec(group[0])] + ExecAll(exec, group[1..])
  }

  lemma {:induction false} ExecAllAt(exec: Exec, group: seq<PlanStep>, k: nat)
    requires k < |group|
    ensures ExecAll(exec, group)[k] == exec(group[k])
  {
    if k > 0 { ExecAllAt(exec, group[1..], k - 1); }
  }

  /** One turn over the next |xs| steps as a group, given what their executions yielded: all
      records, then all pages, then the first error in plan order. */
  function TakeGroup(s: RunState, xs: seq<Effect>): Turn
    requires Valid(s) && s.i + |xs| <= |s.steps|
  {
    match AddPages(RecordAll(s, xs), xs)
    case None => Stop(Panicked)
    case Some(a) =>
      var e, b := FirstError(xs), a.(i := s.i + |xs|);
      if e.Some? then Stop(Failed(b, e.value)) else Continue(b)
  }

  function GroupTurn(exec: Exec, s: RunState, n: nat): Turn
    requires Valid(s) && s.i + n <= |s.steps|
  {
    TakeGroup(s, ExecAll(exec, s.steps[s.i..s.i + n]))
  }

  function GroupName(step: PlanStep): string {
    TrimSpace(step.parallelGroup)
  }

  /** How many steps from i on belong to the named group without a gap. */
  function GroupLength(steps: seq<PlanStep>, i: nat, name: string): (n: nat)
    requires i <= |steps|
    ensures i + n <= |steps|
    ensures forall k :: i <= k < i + n ==> GroupName(steps[k]) == name && IsLocal(steps[k])
    decreases |steps| - i
  {
    if i < |steps| && GroupName(steps[i]) == name && IsLocal(steps[i]) then 1 + GroupLength(steps, i + 1, name)
    else 0
  }

  predicate RunsAsGroup(step: PlanStep, parallelism: int) {
    GroupName(step) != "" && parallelism > 1 && IsLocal(step)
  }

  function NextTurn(exec: Exec, s: RunState, parallelism: int): Turn
    requires Valid(s) && s.i < |s.steps|
  {
    if RunsAsGroup(s.steps[s.i], parallelism) then
      GroupTurn(exec, s, GroupLength(s.steps, s.i, GroupName(s.steps[s.i])))
    else SequentialTurn(exec, s)
  }

  lemma {:induction false} AddPagesFacts(s: RunState, xs: seq<Effect>)
    requires Valid(s)
    ensures AddPages(s, xs).Some? ==>
              var a := AddPages(s, xs).value;
              Valid(a) && a.i == s.i && s.steps <= a.steps && a.out == s.out && a.manifest == s.manifest
              && |a.steps| - a.count == |s.steps| - s.count
    decreases |xs|
  {
    if xs != [] && AddPage(s, xs[0]).Some? {
      AddPagesFacts(AddPage(s, xs[0]).value, xs[1..]);
    }
  }

  function Records(xs: seq<Effect>): (sts: seq<ExecutedStep>)
    ensures |sts| == |xs|
  {
    if xs == [] then [] else [xs[0].st] + Records(xs[1..])
  }

  function AllItems(xs: seq<Effect>): seq<Item> {
    if xs == [] then [] else Items(xs[0]) + AllItems(xs[1..])
  }

  lemma {:induction false} RecordAllFacts(s: RunState, xs: seq<Effect>)
    ensures RecordAll(s, xs) == s.(out := s.out + Records(xs), manifest := s.manifest + AllItems(xs))
    decreases |xs|
  {
    if xs == [] {
      assert s.out + [] == s.out && s.manifest + [] == s.manifest;
    } else {
      RecordAllFacts(Record(s, xs[0]), xs[1..]);
      AppendAssociates(s.out, [xs[0].st], Records(xs[1..]));
      AppendAssociates(s.manifest, Items(xs[0]), AllItems(xs[1..]));
    }
  }

  predicate Progress(s: RunState, turn: Turn) {
    turn.Continue? ==> Valid(turn.s) && 0 <= Fuel(turn.s) < Fuel(s) && s.steps <= turn.s.steps
  }

  lemma TakeOneUsesFuel(s: RunState, x: Effect)
    requires Valid(s) && s.i < |s.steps|
    ensures Progress(s, TakeOne(s, x))
  {
  }

  lemma TakeGroupUsesFuel(s: RunState, xs: seq<Effect>)
    requires Valid(s) && xs != [] && s.i + |xs| <= |s.steps|
    ensures Progress(s, TakeGroup(s, xs))
  {
    RecordAllFacts(s, xs);
    AddPagesFacts(RecordAll(s, xs), xs);
  }

  lemma TurnUsesFuel(exec: Exec, s: RunState, parallelism: int)
    requires Valid(s) && s.i < |s.steps|
    ensures Progress(s, NextTurn(exec, s, parallelism))
  {
    if RunsAsGroup(s.steps[s.i], parallelism) {
      var n := GroupLength(s.steps, s.i, GroupName(s.steps[s.i]));
      TakeGroupUsesFuel(s, ExecAll(exec, s.steps[s.i..s.i + n]));
    } else {
      TakeOneUsesFuel(s, exec(s.steps[s.i]));
    }
  }

  /** The whole run from a state on: it terminates whatever the tools return. */
  function Drive(exec: Exec, s: RunState, parallelism: int): End
    requires Valid(s)
    decreases Fuel(s)
  {
    if s.i == |s.steps| then Completed(s)
    else
      TurnUsesFuel(exec, s, parallelism);
      match NextTurn(exec, s, parallelism)
      case Continue(a) => Drive(exec, a, parallelism)
      case Stop(end) => end
  }

  function Start(plan: seq<PlanStep>): RunState {
    RunState(plan, 0, 0, [], [])
  }

  function Run(exec: Exec, plan: seq<PlanStep>, parallelism: int): End {
    Drive(exec, Start(plan), parallelism)
  }

  // ----- the executor

  /** Runs a group on at most `limit` tasks at a time. Tasks are launched in plan order and finish
      in any order the scheduler picks, each writing only its own slot; the result does not depend
      on the choices. */
  method RunGroup(exec: Exec, group: seq<PlanStep>, limit: nat) returns (results: array<Effect>)
    requires limit > 0
    ensures fresh(results) && results[..] == ExecAll(exec, group)
  {
    var n := |group|;
    var idle := Effect(ExecutedStep("", "", NullArgs, false, Null, ""), NoPage, None, None);
    results := new Effect[n](_ => idle);
    var launched: nat := 0;
    var running: set<nat> := {};
    while launched < n || running != {}
      invariant launched <= n
      invariant |running| <= limit && forall k :: k in running ==> k < launched
      invariant forall k :: 0 <= k < launched && k !in running ==> results[k] == exec(group[k])
      decreases 2 * (n - launched) + |running|
    {
      if {
        case launched < n && |running| < limit =>
          running, launched := running + {launched}, launched + 1;
        case running != {} =>
          var k :| k in running;
          results[k] := exec(group[k]);
          running := running - {k};
      }
    }
    forall k | 0 <= k < n ensures results[..][k] == ExecAll(exec, group)[k] { ExecAllAt(exec, group, k); }
  }

  method AddContinuation(s: RunState, x: Effect) returns (a: RunState, panicked: bool)
    ensures AddPage(s, x) == if panicked then None else Some(a)
  {
    a, panicked := s, false;
    if s.count < MAX_CONTINUATIONS {
      match x.page {
        case NoPage =>
        case NextPage(p) => a := s.(steps := s.steps + [p], count := s.count + 1);
        case Panic => panicked := true;
      }
    }
  }

  method RecordResults(s: RunState, results: array<Effect>) returns (a: RunState)
    ensures a == RecordAll(s, results[..])
  {
    ghost var xs := results[..];
    a := s;
    for k := 0 to results.Length
      invariant RecordAll(a, xs[k..]) == RecordAll(s, xs)
    {
      assert xs[k..][1..] == xs[k + 1..];
      a := Record(a, results[k]);
    }
  }

  method ContinueResults(s: RunState, results: array<Effect>) returns (r: Option<RunState>)
    ensures r == AddPages(s, results[..])
  {
    ghost var xs := results[..];
    var a := s;
    for k := 0 to results.Length
      invariant AddPages(a, xs[k..]) == AddPages(s, xs)
    {
      assert xs[k..][1..] == xs[k + 1..];
      var panicked;
      a, panicked := AddContinuation(a, results[k]);
      if panicked { return None; }
    }
    r := Some(a);
  }

  method FirstErrorOf(results: array<Effect>) returns (e: Option<string>)
    ensures e == FirstError(results[..])
  {
    ghost var xs := results[..];
    for k := 0 to results.Length
      invariant FirstError(xs[k..]) == FirstError(xs)
    {
      assert xs[k..][1..] == xs[k + 1..];
      if results[k].err.Some? { return results[k].err; }
    }
    e := None;
  }

  method TakeResults(s: RunState, results: array<Effect>) returns (turn: Turn)
    requires Valid(s) && s.i + results.Length <= |s.steps|
    ensures turn == TakeGroup(s, results[..])
  {
    var recorded := RecordResults(s, results);
    var continued := ContinueResults(recorded, results);
    if continued.None? { return Stop(Panicked); }
    var a := continued.value.(i := s.i + results.Length);
    var e := FirstErrorOf(results);
    turn := if e.Some? then Stop(Failed(a, e.value)) else Continue(a);
  }

  method RunGroupTurn(exec: Exec, s: RunState, n: nat, limit: nat) returns (turn: Turn)
    requires Valid(s) && s.i + n <= |s.steps| && limit > 0
    ensures turn == GroupTurn(exec, s, n)
  {
    var results := RunGroup(exec, s.steps[s.i..s.i + n], limit);
    turn := TakeResults(s, results);
  }

  method RunSequentialTurn(exec: Exec, s: RunState) returns (turn: Turn)
    requires Valid(s) && s.i < |s.steps|
    ensures turn == SequentialTurn(exec, s)
  {
    var x := exec(s.steps[s.i]);
    var a := Record(s, x);
    if x.err.Some? { return Stop(Failed(a.(i := s.i + 1), x.err.value)); }
    var panicked;
    a, panicked := AddContinuation(a, x);
    turn := if panicked then Stop(Panicked) else Continue(a.(i := s.i + 1));
  }

  method RunTurn(exec: Exec, s: RunState, limit: nat) returns (turn: Turn)
    requires Valid(s) && s.i < |s.steps| && limit > 0
    ensures turn == NextTurn(exec, s, limit)
  {
    var step := s.steps[s.i];
    if RunsAsGroup(step, limit) {
      turn := RunGroupTurn(exec, s, GroupLength(s.steps, s.i, GroupName(step)), limit);
    } else {
      turn := RunSequentialTurn(exec, s);
    }
  }

  /** What the caller of the executor sees of the end of a run. */
  datatype Report = Report(out: seq<ExecutedStep>, manifest: Option<seq<Item>>, err: Option<string>) | Crashed

  function Reported(end: End): Report {
    match end
    case Completed(s) => Report(s.out, if s.manifest == [] then None else Some(s.manifest), None)
    case Failed(s, e) => Report(s.out, Some(s.manifest), Some(e))
    case Panicked => Crashed
  }

  /** The executor: whatever its schedule, it ends as Run says. */
  method ExecutePlan(env: Env, plan: seq<PlanStep>, parallelism: int) returns (report: Report)
    ensures report == Reported(Run(Executes(env), plan, if parallelism <= 0 then 1 else parallelism))
  {
    var limit, exec := if parallelism <= 0 then 1 else parallelism, Executes(env);
    var s := Start(plan);
    while s.i < |s.steps|
      invariant Valid(s) && Drive(exec, s, limit) == Run(exec, plan, limit)
      decreases Fuel(s)
    {
      TurnUsesFuel(exec, s, limit);
      var turn := RunTurn(exec, s, limit);
      match turn {
        case Stop(end) => return Reported(end);
        case Continue(a) => s := a;
      }
    }
    report := Reported(Completed(s));
  }
}
