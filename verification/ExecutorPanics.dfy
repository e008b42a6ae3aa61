/** Exactly when a parallel run of the plan executor can panic where the sequential run does not. */
module ExecutorPanics {
  import opened Text
  import opened Json
  import opened Plans
  import opened Executor
  import opened ExecutorTheorems

  // ----- the condition

  /** The step gets as far as its tool. */
  predicate Runnable(p: Policy, step: PlanStep) {
    IsAllowed(p, step.source, step.name) && !step.args.Malformed?
  }

  /** The steps from j to k are local and of one group. */
  predicate SameRun(plan: seq<PlanStep>, j: nat, k: nat)
    requires j <= k < |plan|
  {
    forall t :: j <= t <= k ==> GroupName(plan[t]) == GroupName(plan[k]) && IsLocal(plan[t])
  }

  /** Both steps hand the same arguments to the same local tool. */
  predicate SameCall(a: PlanStep, b: PlanStep) {
    a.name == b.name && a.args == b.args && IsLocal(a) && IsLocal(b)
  }

  /** An earlier step does not keep the executor from step k: it is in the same run of grouped steps, or it
      can run and is another call. */
  predicate Clears(p: Policy, plan: seq<PlanStep>, j: nat, k: nat)
    requires j < k < |plan|
  {
    SameRun(plan, j, k) || (Runnable(p, plan[j]) && !SameCall(plan[j], plan[k]))
  }

  /** Step k runs in a group, is allowed and has the arguments `null`, and every earlier step clears it. */
  predicate Risky(p: Policy, plan: seq<PlanStep>, parallelism: int, k: nat) {
    && k < |plan| && RunsAsGroup(plan[k], parallelism) && plan[k].args.NullArgs?
    && IsAllowed(p, plan[k].source, plan[k].name)
    && forall j :: 0 <= j < k ==> Clears(p, plan, j, k)
  }

  // ----- what is known of a real executor

  predicate RealAt(exec: Exec, p: Policy, step: PlanStep) {
    var x := exec(step);
    && (x.err.None? ==> Runnable(p, step))
    && (x.page == Panic ==> step.args.NullArgs? && Runnable(p, step))
    && (x.page.NextPage? ==> CopyOf(step, x.page.step))
  }

  /** A tool gets only the name and the arguments. */
  predicate SamePanic(exec: Exec, p: Policy, a: PlanStep, b: PlanStep) {
    SameCall(a, b) && Runnable(p, a) && Runnable(p, b) ==> (exec(a).page == Panic <==> exec(b).page == Panic)
  }

  ghost predicate Real(exec: Exec, p: Policy) {
    (forall step :: RealAt(exec, p, step)) && forall a, b :: SamePanic(exec, p, a, b)
  }

  lemma ExecutorIsReal(env: Env)
    ensures Real(Executes(env), env.policy)
  {
    var exec := Executes(env);
    ExecutorPaginates(env);
    forall step ensures RealAt(exec, env.policy, step) {
      assert exec(step) == EffectOf(env, step);
    }
    forall a, b ensures SamePanic(exec, env.policy, a, b) {
      if SameCall(a, b) && Runnable(env.policy, a) && Runnable(env.policy, b) {
        SameResultMap(env, a, b);
        var m := ExecOne(env, a).resultMap;
        if m.Some? { SamePage(a, b, m.value); }
      }
    }
  }

  lemma SameResultMap(env: Env, a: PlanStep, b: PlanStep)
    requires SameCall(a, b) && Runnable(env.policy, a) && Runnable(env.policy, b)
    ensures ExecOne(env, a).resultMap == ExecOne(env, b).resultMap
  {
    assert Dispatch(env, a) == Dispatch(env, b);
  }

  lemma SamePage(a: PlanStep, b: PlanStep, result: map<string, Value>)
    requires a.name == b.name && a.args == b.args
    ensures CreateContinuation(a, result) == Panic <==> CreateContinuation(b, result) == Panic
  {
  }

  // ----- a new panic needs a risky step

  /** Every step so far succeeded, and asked for no page of `null` while pages were still made. */
  ghost predicate Clean(exec: Exec, plan: seq<PlanStep>, s: RunState) {
    && Valid(s) && plan <= s.steps
    && (forall j :: 0 <= j < s.i ==> Passed(exec, s, j))
    && forall j :: |plan| <= j < |s.steps| ==> s.steps[j].parallelGroup == ""
  }

  predicate Passed(exec: Exec, s: RunState, j: nat)
    requires j < |s.steps|
  {
    exec(s.steps[j]).err.None? && (s.count < MAX_CONTINUATIONS ==> exec(s.steps[j]).page != Panic)
  }

  lemma OneKeepsClean(exec: Exec, p: Policy, plan: seq<PlanStep>, s: RunState)
    requires Real(exec, p) && Clean(exec, plan, s) && s.i < |s.steps| && TakeOne(s, exec(s.steps[s.i])).Continue?
    ensures Clean(exec, plan, TakeOne(s, exec(s.steps[s.i])).s)
  {
    var x, a := exec(s.steps[s.i]), TakeOne(s, exec(s.steps[s.i])).s;
    assert RealAt(exec, p, s.steps[s.i]);
    forall j | 0 <= j < a.i ensures Passed(exec, a, j) {
      assert a.steps[j] == s.steps[j];
      if j < s.i { assert Passed(exec, s, j); }
    }
  }

  /** A group without errors is the same as its steps one after the other. */
  lemma {:induction false} GroupRunsSequentially(exec: Exec, p: Policy, plan: seq<PlanStep>, s: RunState,
                                                 xs: seq<Effect>, name: string)
    requires Real(exec, p) && Clean(exec, plan, s) && GroupAt(exec, name, s.steps, s.i, xs) && FirstError(xs).None?
    ensures TakeGroup(s, xs) == Stop(Panicked) ==> Drive(exec, s, 1).Panicked?
    ensures TakeGroup(s, xs).Continue? ==>
              Clean(exec, plan, TakeGroup(s, xs).s) && Drive(exec, s, 1) == Drive(exec, TakeGroup(s, xs).s, 1)
    decreases |xs|
  {
    if xs == [] {
      assert TakeGroup(s, xs) == Continue(s);
    } else {
      var turn := TakeOne(s, xs[0]);
      assert NextTurn(exec, s, 1) == turn;
      TakeOneUsesFuel(s, xs[0]);
      GroupPeels(s, xs);
      if turn.Continue? {
        OneKeepsClean(exec, p, plan, s);
        GroupAtPrefix(exec, name, s.steps, turn.s.steps, s.i + 1, xs[1..]);
        GroupRunsSequentially(exec, p, plan, turn.s, xs[1..], name);
      }
    }
  }

  lemma {:induction false} PanickingPage(s: RunState, xs: seq<Effect>) returns (k: nat)
    requires AddPages(s, xs).None?
    ensures k < |xs| && xs[k].page == Panic && s.count < MAX_CONTINUATIONS
    decreases |xs|
  {
    if AddPage(s, xs[0]).None? {
      k := 0;
    } else {
      k := PanickingPage(AddPage(s, xs[0]).value, xs[1..]);
      k := k + 1;
    }
  }

  lemma {:induction false} GroupMember(exec: Exec, name: string, steps: seq<PlanStep>, i: nat, xs: seq<Effect>, k: nat)
    requires GroupAt(exec, name, steps, i, xs) && k < |xs|
    ensures i + k < |steps| && xs[k] == exec(steps[i + k]) && GroupName(steps[i + k]) == name && IsLocal(steps[i + k])
    decreases k
  {
    if k > 0 { GroupMember(exec, name, steps, i + 1, xs[1..], k - 1); }
  }

  lemma EarlierClears(exec: Exec, p: Policy, plan: seq<PlanStep>, s: RunState, j: nat, k: nat)
    requires Real(exec, p) && Clean(exec, plan, s) && s.count < MAX_CONTINUATIONS && j < s.i <= k < |plan|
    requires exec(plan[k]).page == Panic
    ensures Clears(p, plan, j, k)
  {
    assert Passed(exec, s, j) && s.steps[j] == plan[j];
    assert RealAt(exec, p, plan[j]) && RealAt(exec, p, plan[k]);
    assert SamePanic(exec, p, plan[j], plan[k]);
  }

  lemma GroupIsOneRun(exec: Exec, name: string, plan: seq<PlanStep>, steps: seq<PlanStep>, i: nat, xs: seq<Effect>,
                      j: nat, k: nat)
    requires GroupAt(exec, name, steps, i, xs) && plan <= steps && i <= j <= k < i + |xs| && k < |plan|
    ensures SameRun(plan, j, k)
  {
    GroupMember(exec, name, steps, i, xs, k - i);
    forall t | j <= t <= k ensures GroupName(plan[t]) == GroupName(plan[k]) && IsLocal(plan[t]) {
      GroupMember(exec, name, steps, i, xs, t - i);
    }
  }

  /** Pages stand behind the plan and are in no group. */
  lemma GroupedIsPlanned(exec: Exec, plan: seq<PlanStep>, s: RunState, k: nat)
    requires Clean(exec, plan, s) && k < |s.steps| && GroupName(s.steps[k]) != ""
    ensures k < |plan| && plan[k] == s.steps[k]
  {
  }

  lemma PanickingStepIsRisky(exec: Exec, p: Policy, plan: seq<PlanStep>, s: RunState, xs: seq<Effect>, name: string,
                             parallelism: int, k: nat)
    requires Real(exec, p) && Clean(exec, plan, s) && GroupAt(exec, name, s.steps, s.i, xs)
    requires s.count < MAX_CONTINUATIONS
    requires s.i <= k < s.i + |xs| && k < |plan| && exec(plan[k]).page == Panic && RunsAsGroup(plan[k], parallelism)
    ensures Risky(p, plan, parallelism, k)
  {
    assert RealAt(exec, p, plan[k]);
    forall j | 0 <= j < k ensures Clears(p, plan, j, k) {
      if j < s.i {
        EarlierClears(exec, p, plan, s, j, k);
      } else {
        GroupIsOneRun(exec, name, plan, s.steps, s.i, xs, j, k);
      }
    }
  }

  lemma PanickingGroupIsRisky(exec: Exec, p: Policy, plan: seq<PlanStep>, s: RunState, xs: seq<Effect>, name: string,
                              parallelism: int)
      returns (k: nat)
    requires Real(exec, p) && Clean(exec, plan, s) && GroupAt(exec, name, s.steps, s.i, xs)
    requires name != "" && parallelism > 1
    requires TakeGroup(s, xs) == Stop(Panicked)
    ensures Risky(p, plan, parallelism, k)
  {
    RecordAllFacts(s, xs);
    var m := PanickingPage(RecordAll(s, xs), xs);
    GroupMember(exec, name, s.steps, s.i, xs, m);
    k := s.i + m;
    GroupedIsPlanned(exec, plan, s, k);
    PanickingStepIsRisky(exec, p, plan, s, xs, name, parallelism, k);
  }

  /** One turn of a parallel run that ends in a new panic: it panics at a risky step, or both runs go on
      from the same state. */
  lemma GroupTurnIsShared(exec: Exec, p: Policy, plan: seq<PlanStep>, s: RunState, xs: seq<Effect>, name: string,
                          turn: Turn,
                          parallelism: int)
      returns (k: nat)
    requires Real(exec, p) && Clean(exec, plan, s) && GroupAt(exec, name, s.steps, s.i, xs)
    requires name != "" && parallelism > 1
    requires turn == TakeGroup(s, xs) && (turn.Stop? ==> turn.end.Panicked?) && !Drive(exec, s, 1).Panicked?
    ensures turn.Stop? ==> Risky(p, plan, parallelism, k)
    ensures turn.Continue? ==> Clean(exec, plan, turn.s) && Drive(exec, s, 1) == Drive(exec, turn.s, 1)
  {
    k := 0;
    if turn.Stop? {
      k := PanickingGroupIsRisky(exec, p, plan, s, xs, name, parallelism);
    } else {
      GroupRunsSequentially(exec, p, plan, s, xs, name);
    }
  }

  lemma SoloTurnIsShared(exec: Exec, p: Policy, plan: seq<PlanStep>, s: RunState, turn: Turn)
    requires Real(exec, p) && Clean(exec, plan, s) && s.i < |s.steps| && turn == TakeOne(s, exec(s.steps[s.i]))
    requires (turn.Stop? ==> turn.end.Panicked?) && !Drive(exec, s, 1).Panicked?
    ensures turn.Continue? && Clean(exec, plan, turn.s) && Drive(exec, s, 1) == Drive(exec, turn.s, 1)
  {
    assert NextTurn(exec, s, 1) == turn;
    OneKeepsClean(exec, p, plan, s);
  }

  lemma TurnIsShared(exec: Exec, p: Policy, plan: seq<PlanStep>, s: RunState, turn: Turn,
                     parallelism: int) returns (k: nat)
    requires Real(exec, p) && Clean(exec, plan, s) && s.i < |s.steps| && turn == NextTurn(exec, s, parallelism)
    requires (turn.Stop? ==> turn.end.Panicked?) && !Drive(exec, s, 1).Panicked?
    ensures turn.Stop? ==> Risky(p, plan, parallelism, k)
    ensures turn.Continue? ==> Clean(exec, plan, turn.s) && Drive(exec, s, 1) == Drive(exec, turn.s, 1)
  {
    if RunsAsGroup(s.steps[s.i], parallelism) {
      var name := GroupName(s.steps[s.i]);
      var n := GroupLength(s.steps, s.i, name);
      ExecutesGroup(exec, name, s.steps, s.i, n);
      k := GroupTurnIsShared(exec, p, plan, s, ExecAll(exec, s.steps[s.i..s.i + n]), name, turn, parallelism);
    } else {
      k := 0;
      SoloTurnIsShared(exec, p, plan, s, turn);
    }
  }

  lemma {:induction false} NewPanicIsRisky(exec: Exec, p: Policy, plan: seq<PlanStep>, s: RunState, parallelism: int)
      returns (k: nat)
    requires Real(exec, p) && Clean(exec, plan, s)
    requires Drive(exec, s, parallelism).Panicked? && !Drive(exec, s, 1).Panicked?
    ensures Risky(p, plan, parallelism, k)
    decreases Fuel(s)
  {
    TurnUsesFuel(exec, s, parallelism);
    var turn := NextTurn(exec, s, parallelism);
    k := TurnIsShared(exec, p, plan, s, turn, parallelism);
    if turn.Continue? { k := NewPanicIsRisky(exec, p, plan, turn.s, parallelism); }
  }

  // ----- a risky step makes a new panic

  predicate IsTrap(p: Policy, name: string, step: PlanStep) {
    Runnable(p, step) && IsLocal(step) && step.name == name && step.args.NullArgs?
  }

  /** One local tool answers the arguments `null` with a page that has a next one, and the store is full;
      all other tools answer nothing. */
  function TrapEnv(p: Policy, name: string): Env {
    Env(p,
        (n: string, args: Args) => Reply(false, if n == name && args.NullArgs? then ["page"] else []),
        (n, args) => Reply(false, []),
        text => Some(Obj(map["has_next" := Bool(true), "next_cursor" := Str("x")])),
        (n, v) => Shaped(v, v),
        (n, args, v) => StoreError("full"))
  }

  type Test = PlanStep -> bool

  /** The executor as the argument needs it: a trap fails with a page that panics, any other step asks for
      no page and fails unless it is good. */
  predicate TrapAt(exec: Exec, good: Test, trap: Test, step: PlanStep) {
    var x := exec(step);
    if trap(step) then x.err.Some? && x.page == Panic
    else x.page == NoPage && (x.err.None? <==> good(step))
  }

  ghost predicate Traps(exec: Exec, good: Test, trap: Test) {
    forall step :: TrapAt(exec, good, trap, step)
  }

  function Good(p: Policy): Test {
    step => Runnable(p, step)
  }

  function Trap(p: Policy, name: string): Test {
    step => IsTrap(p, name, step)
  }

  /** The trap k runs in a group, and the executor gets to it. */
  predicate Reaches(plan: seq<PlanStep>, good: Test, trap: Test, parallelism: int, k: nat) {
    && k < |plan| && RunsAsGroup(plan[k], parallelism) && trap(plan[k])
    && forall j :: 0 <= j < k ==> SameRun(plan, j, k) || Free(good, trap, plan[j])
  }

  predicate Free(good: Test, trap: Test, step: PlanStep) {
    good(step) && !trap(step)
  }

  lemma RiskyIsReached(p: Policy, plan: seq<PlanStep>, parallelism: int, k: nat)
    requires Risky(p, plan, parallelism, k)
    ensures Reaches(plan, Good(p), Trap(p, plan[k].name), parallelism, k)
  {
    forall j | 0 <= j < k ensures SameRun(plan, j, k) || Free(Good(p), Trap(p, plan[k].name), plan[j]) {
      assert Clears(p, plan, j, k);
    }
  }

  lemma TrapPage(step: PlanStep)
    requires step.args.NullArgs?
    ensures CreateContinuation(step, map["has_next" := Bool(true), "next_cursor" := Str("x")]) == Panic
  {
    TrimSpaceOfTrimmed("x");
  }

  lemma TrapEnvTraps(p: Policy, name: string)
    ensures Traps(Executes(TrapEnv(p, name)), Good(p), Trap(p, name))
  {
    var env := TrapEnv(p, name);
    forall step ensures TrapAt(Executes(env), Good(p), Trap(p, name), step) {
      assert Executes(env)(step) == EffectOf(env, step);
      if IsTrap(p, name, step) { TrapPage(step); }
    }
  }

  lemma {:induction false} TrappedSequentially(exec: Exec, good: Test, trap: Test, s: RunState, k: nat)
    requires Traps(exec, good, trap) && Valid(s) && s.i <= k < |s.steps| && trap(s.steps[k])
    ensures Drive(exec, s, 1).Failed?
    decreases k - s.i
  {
    assert TrapAt(exec, good, trap, s.steps[s.i]);
    var turn := NextTurn(exec, s, 1);
    if turn.Continue? { TrappedSequentially(exec, good, trap, turn.s, k); }
  }

  lemma {:induction false} TrappedPages(exec: Exec, good: Test, trap: Test, s: RunState, group: seq<PlanStep>)
    requires Traps(exec, good, trap) && s.count < MAX_CONTINUATIONS
    ensures AddPages(s, ExecAll(exec, group)) == if exists g :: g in group && trap(g) then None else Some(s)
    decreases |group|
  {
    if group != [] {
      assert group == [group[0]] + group[1..];
      assert TrapAt(exec, good, trap, group[0]);
      TrappedPages(exec, good, trap, s, group[1..]);
    }
  }

  lemma {:induction false} FreeStepsSucceed(exec: Exec, good: Test, trap: Test, group: seq<PlanStep>)
    requires Traps(exec, good, trap) && forall g :: g in group ==> Free(good, trap, g)
    ensures FirstError(ExecAll(exec, group)).None?
    decreases |group|
  {
    if group != [] {
      assert group[0] in group && TrapAt(exec, good, trap, group[0]);
      FreeStepsSucceed(exec, good, trap, group[1..]);
    }
  }

  lemma {:induction false} GroupLengthCovers(steps: seq<PlanStep>, i: nat, name: string, n: nat)
    requires i + n <= |steps| && forall t :: i <= t < i + n ==> GroupName(steps[t]) == name && IsLocal(steps[t])
    ensures GroupLength(steps, i, name) >= n
    decreases n
  {
    if n > 0 { GroupLengthCovers(steps, i + 1, name, n - 1); }
  }

  /** A step of an earlier group is not in the run of k. */
  lemma EarlierGroupEnds(plan: seq<PlanStep>, i: nat, j: nat, k: nat)
    requires i <= j < k < |plan| && j < i + GroupLength(plan, i, GroupName(plan[i])) <= k
    ensures !SameRun(plan, j, k)
  {
    if SameRun(plan, j, k) {
      assert GroupName(plan[j]) == GroupName(plan[i]);
      assert forall t :: i <= t <= k ==> GroupName(plan[t]) == GroupName(plan[i]) && IsLocal(plan[t]);
      GroupLengthCovers(plan, i, GroupName(plan[i]), k + 1 - i);
    }
  }

  lemma EarlierGroupIsFree(plan: seq<PlanStep>, good: Test, trap: Test, parallelism: int, i: nat, n: nat, k: nat)
    requires Reaches(plan, good, trap, parallelism, k) && i + n <= k && n == GroupLength(plan, i, GroupName(plan[i]))
    ensures forall g :: g in plan[i..i + n] ==> Free(good, trap, g)
  {
    forall g | g in plan[i..i + n] ensures Free(good, trap, g) {
      var m :| 0 <= m < n && plan[i..i + n][m] == g;
      EarlierGroupEnds(plan, i, i + m, k);
    }
  }

  lemma TrappedGroup(exec: Exec, good: Test, trap: Test, s: RunState, group: seq<PlanStep>, g: PlanStep)
    requires Valid(s) && s.count == 0 && s.i + |group| <= |s.steps| && Traps(exec, good, trap) && g in group && trap(g)
    ensures TakeGroup(s, ExecAll(exec, group)) == Stop(Panicked)
  {
    RecordAllFacts(s, ExecAll(exec, group));
    TrappedPages(exec, good, trap, RecordAll(s, ExecAll(exec, group)), group);
  }

  lemma FreeGroup(exec: Exec, good: Test, trap: Test, s: RunState, group: seq<PlanStep>)
    requires Valid(s) && s.count == 0 && s.i + |group| <= |s.steps| && Traps(exec, good, trap)
    requires forall g :: g in group ==> Free(good, trap, g)
    ensures TakeGroup(s, ExecAll(exec, group)).Continue? && Keeps(s, TakeGroup(s, ExecAll(exec, group)).s, |group|)
  {
    RecordAllFacts(s, ExecAll(exec, group));
    TrappedPages(exec, good, trap, RecordAll(s, ExecAll(exec, group)), group);
    FreeStepsSucceed(exec, good, trap, group);
  }

  /** n steps further in the same work list, without a page. */
  predicate Keeps(s: RunState, a: RunState, n: nat) {
    a.count == 0 && a.steps == s.steps && a.i == s.i + n
  }

  lemma TrappedGroupTurn(exec: Exec, good: Test, trap: Test, s: RunState, n: nat, k: nat)
    requires Valid(s) && s.count == 0 && s.i <= k < s.i + n <= |s.steps| && trap(s.steps[k]) && Traps(exec, good, trap)
    ensures GroupTurn(exec, s, n) == Stop(Panicked)
  {
    var group := s.steps[s.i..s.i + n];
    assert group[k - s.i] == s.steps[k];
    TrappedGroup(exec, good, trap, s, group, s.steps[k]);
  }

  lemma FreeGroupTurn(exec: Exec, good: Test, trap: Test, s: RunState, n: nat, parallelism: int, k: nat)
    requires Valid(s) && s.count == 0 && s.i + n <= k && Reaches(s.steps, good, trap, parallelism, k)
    requires Traps(exec, good, trap) && n == GroupLength(s.steps, s.i, GroupName(s.steps[s.i]))
    ensures GroupTurn(exec, s, n).Continue? && Keeps(s, GroupTurn(exec, s, n).s, n)
  {
    EarlierGroupIsFree(s.steps, good, trap, parallelism, s.i, n, k);
    FreeGroup(exec, good, trap, s, s.steps[s.i..s.i + n]);
  }

  lemma {:induction false} TrappedInParallel(exec: Exec, good: Test, trap: Test, s: RunState, parallelism: int, k: nat)
    requires Valid(s) && s.count == 0 && s.i <= k
    requires Reaches(s.steps, good, trap, parallelism, k) && Traps(exec, good, trap)
    ensures Drive(exec, s, parallelism).Panicked?
    decreases k - s.i
  {
    if RunsAsGroup(s.steps[s.i], parallelism) {
      var n := GroupLength(s.steps, s.i, GroupName(s.steps[s.i]));
      if k < s.i + n {
        TrappedGroupTurn(exec, good, trap, s, n, k);
      } else {
        FreeGroupTurn(exec, good, trap, s, n, parallelism, k);
      }
    } else {
      assert !SameRun(s.steps, s.i, k) && Free(good, trap, s.steps[s.i]);
      assert TrapAt(exec, good, trap, s.steps[s.i]);
    }
    var turn := NextTurn(exec, s, parallelism);
    if turn.Continue? { TrappedInParallel(exec, good, trap, turn.s, parallelism, k); }
  }

  /** Tools, a parser and a store for which the sequential run of the plan fails and the parallel one
      panics. */
  lemma RiskyStepPanics(p: Policy, plan: seq<PlanStep>, parallelism: int, k: nat) returns (env: Env)
    requires Risky(p, plan, parallelism, k)
    ensures env.policy == p
    ensures Run(Executes(env), plan, 1).Failed? && Run(Executes(env), plan, parallelism).Panicked?
  {
    env := TrapEnv(p, plan[k].name);
    TrapEnvTraps(p, plan[k].name);
    RiskyIsReached(p, plan, parallelism, k);
    TrappedSequentially(Executes(env), Good(p), Trap(p, plan[k].name), Start(plan), k);
    TrappedInParallel(Executes(env), Good(p), Trap(p, plan[k].name), Start(plan), parallelism, k);
  }

  ghost predicate PanicsAnew(env: Env, plan: seq<PlanStep>, parallelism: int) {
    Run(Executes(env), plan, parallelism).Panicked? && !Run(Executes(env), plan, 1).Panicked?
  }

  /** Under a policy some tools make the parallel run of a plan panic where the sequential run does not,
      exactly if the plan has a risky step. */
  lemma PanicsAnewIff(p: Policy, plan: seq<PlanStep>, parallelism: int)
    ensures (exists env: Env :: env.policy == p && PanicsAnew(env, plan, parallelism)) <==>
            exists k :: Risky(p, plan, parallelism, k)
  {
    if env: Env :| env.policy == p && PanicsAnew(env, plan, parallelism) {
      ExecutorIsReal(env);
      var k := NewPanicIsRisky(Executes(env), p, plan, Start(plan), parallelism);
    }
    if k :| Risky(p, plan, parallelism, k) {
      var env := RiskyStepPanics(p, plan, parallelism, k);
      assert PanicsAnew(env, plan, parallelism);
    }
  }

  /** A grouped step of `null` for any allowed local tool whose schema lets it pass: the plan is valid, and
      risky. */
  lemma ValidPlanIsRisky(p: Policy, catalog: seq<CatalogItem>, conforms: (string, string, Args) -> bool,
                         name: string, parallelism: int)
    requires IsAllowed(p, "local", name) && name !in {"query", "router"} && parallelism > 1
    requires SchemaOf(catalog, name).Some? && conforms(name, SchemaOf(catalog, name).value, NullArgs)
    ensures var plan := [PlanStep(name, "local", NullArgs, "", "g")];
            StepOk(p, catalog, conforms, plan[0]) && Risky(p, plan, parallelism, 0)
  {
    var step := PlanStep(name, "local", NullArgs, "", "g");
    assert name != "" by { assert TrimSpace("") == "" && ToLower("") == ""; }
    assert GroupName(step) == "g" by { TrimSpaceOfTrimmed("g"); }
    assert IsLocal(step);
  }

  /** What a caller of the executor may rely on for any schedule of any group: without a risky step,
      asking for more parallelism changes neither the error nor an error-free report. */
  lemma ReportRefines(env: Env, plan: seq<PlanStep>, parallelism: int)
    requires forall k :: !Risky(env.policy, plan, parallelism, k)
    ensures match (Reported(Run(Executes(env), plan, 1)), Reported(Run(Executes(env), plan, parallelism)))
            case (Crashed, b) => b == Crashed
            case (Report(o, m, None), b) => b == Report(o, m, None)
            case (Report(o, m, Some(e)), b) =>
              b.Report? && b.err == Some(e) && o <= b.out
              && m.Some? && b.manifest.Some? && m.value <= b.manifest.value
  {
    PanicsAnewIff(env.policy, plan, parallelism);
    assert !PanicsAnew(env, plan, parallelism);
    ParallelRefinesSequential(Executes(env), plan, parallelism);
  }
}
