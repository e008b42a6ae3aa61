/** What holds of every run of the plan executor: a parallel run refines the sequential one, a run
    stays within its plan and budget, and a validated plan is never blocked. */
module ExecutorTheorems {
  import opened Text
  import opened Json
  import opened Plans
  import opened Executor

  // ----- what executing a step can contribute

  /** The next page of a step is the same tool of the same source, with object arguments, outside
      any group. */
  predicate CopyOf(a: PlanStep, b: PlanStep) {
    b.name == a.name && b.source == a.source && b.args.ObjectArgs? && b.parallelGroup == ""
  }

  ghost predicate Paginates(exec: Exec) {
    forall step :: exec(step).page.NextPage? ==> CopyOf(step, exec(step).page.step)
  }

  ghost predicate PanicsOnNull(exec: Exec) {
    forall step :: exec(step).page == Panic ==> step.args.NullArgs?
  }

  /** No step that would run in a group has the arguments `null`: a caller can check this. */
  predicate NoGroupedNull(steps: seq<PlanStep>, parallelism: int) {
    forall step :: step in steps ==> !(RunsAsGroup(step, parallelism) && step.args.NullArgs?)
  }

  predicate NoPanic(xs: seq<Effect>) {
    xs == [] || (xs[0].page != Panic && NoPanic(xs[1..]))
  }

  lemma {:induction false} NoPanicAdds(s: RunState, xs: seq<Effect>)
    requires NoPanic(xs)
    ensures AddPages(s, xs).Some?
    decreases |xs|
  {
    if xs != [] { NoPanicAdds(AddPage(s, xs[0]).value, xs[1..]); }
  }

  lemma {:induction false} GroupWithoutNull(exec: Exec, group: seq<PlanStep>)
    requires PanicsOnNull(exec) && forall step :: step in group ==> !step.args.NullArgs?
    ensures NoPanic(ExecAll(exec, group))
  {
    if group != [] {
      assert group[0] in group && forall step :: step in group[1..] ==> step in group;
      GroupWithoutNull(exec, group[1..]);
    }
  }

  // ----- what runs together

  /** The step belongs to the named group: it is local and its group has the name, blanks aside. */
  predicate InGroup(step: PlanStep, name: string) {
    ToLower(step.source) == "local" && TrimSpace(step.parallelGroup) == name
  }

  /** A step runs alone unless it is local, names a group and may run in parallel; then it runs with all the
      steps behind it of the same group, up to the first that is not. */
  lemma TurnsAre(exec: Exec, s: RunState, parallelism: int)
    requires Valid(s) && s.i < |s.steps|
    ensures var step := s.steps[s.i];
            var name, turn := TrimSpace(step.parallelGroup), NextTurn(exec, s, parallelism);
            if name == "" || parallelism <= 1 || ToLower(step.source) != "local" then turn == SequentialTurn(exec, s)
            else exists n: nat :: IsGroup(s.steps, s.i, n, name) && turn == GroupTurn(exec, s, n)
  {
    assert ToLower("local") == "local";
    var name := TrimSpace(s.steps[s.i].parallelGroup);
    LongestGroup(s.steps, s.i, name);
  }

  /** The n steps from place i on are all of the group that follow one another. */
  predicate IsGroup(steps: seq<PlanStep>, i: nat, n: nat, name: string) {
    && i + n <= |steps| && (forall k :: i <= k < i + n ==> InGroup(steps[k], name))
    && (i + n < |steps| ==> !InGroup(steps[i + n], name))
  }

  lemma {:induction false} LongestGroup(steps: seq<PlanStep>, i: nat, name: string)
    requires i <= |steps|
    ensures IsGroup(steps, i, GroupLength(steps, i, name), name)
    decreases |steps| - i
  {
    assert ToLower("local") == "local";
    if i < |steps| { LongestGroup(steps, i + 1, name); }
  }

  // ----- parallel refines sequential

  lemma {:induction false} AddPagesMovesIndex(s: RunState, xs: seq<Effect>, i: nat)
    ensures AddPages(s.(i := i), xs) ==
            match AddPages(s, xs) case None => None case Some(a) => Some(a.(i := i))
    decreases |xs|
  {
    if xs != [] && AddPage(s, xs[0]).Some? {
      AddPagesMovesIndex(AddPage(s, xs[0]).value, xs[1..], i);
    }
  }

  /** A group whose first step succeeds is a sequential turn followed by the rest of the group. */
  lemma GroupPeels(s: RunState, xs: seq<Effect>)
    requires Valid(s) && xs != [] && s.i + |xs| <= |s.steps| && xs[0].err.None?
    ensures TakeOne(s, xs[0]) == Stop(Panicked) ==> TakeGroup(s, xs) == Stop(Panicked)
    ensures TakeOne(s, xs[0]).Continue? ==>
              var a := TakeOne(s, xs[0]).s;
              Valid(a) && s.steps <= a.steps && a.i == s.i + 1
              && TakeGroup(s, xs) == TakeGroup(a, xs[1..])
  {
    var rest := xs[1..];
    var r := Record(s, xs[0]);
    RecordAllFacts(r, rest);
    if AddPage(r, xs[0]).Some? {
      var added := AddPage(r, xs[0]).value;
      var a := added.(i := s.i + 1);
      RecordAllFacts(added, rest);
      RecordAllFacts(a, rest);
      assert AddPage(RecordAll(r, rest), xs[0]) == Some(RecordAll(added, rest));
      assert AddPages(RecordAll(s, xs), xs) == AddPages(RecordAll(added, rest), rest);
      assert RecordAll(a, rest) == RecordAll(added, rest).(i := s.i + 1);
      AddPagesMovesIndex(RecordAll(added, rest), rest, s.i + 1);
    }
  }

  /** The executor's guarantee about the schedule: an error-free run ends in the same state, and a
      failing run reports the same error, with the sequential records and artifacts as a prefix; the
      late records are those of the failing step's own group. Only where it is strict does a
      parallel run panic no more often than the sequential one. */
  predicate Refines(exec: Exec, sequential: End, parallel: End, strict: bool) {
    match (sequential, parallel)
    case (_, Panicked) => strict ==> sequential.Panicked?
    case (Completed(a), Completed(b)) => a == b
    case (Failed(a, e), Failed(b, f)) =>
      e == f && a.out <= b.out && a.manifest <= b.manifest && LateResults(exec, |a.out|, b)
    case _ => false
  }

  predicate LateResults(exec: Exec, from: nat, b: RunState) {
    0 < from <= |b.out| <= |b.steps| && LateFrom(exec, GroupName(b.steps[from - 1]), b.steps, b.out, from)
  }

  /** From place k on, every record is what its own step's tool answers, and its step is local and in
      the group. */
  predicate LateFrom(exec: Exec, name: string, steps: seq<PlanStep>, out: seq<ExecutedStep>, k: nat)
    decreases |out| - k
  {
    k < |out| ==>
      && k < |steps| && out[k] == exec(steps[k]).st && GroupName(steps[k]) == name && IsLocal(steps[k])
      && LateFrom(exec, name, steps, out, k + 1)
  }

  /** The effects xs are those of the steps from place i on, which belong to the group. */
  predicate GroupAt(exec: Exec, name: string, steps: seq<PlanStep>, i: nat, xs: seq<Effect>): (r: bool)
    ensures r && i <= |steps| ==> i + |xs| <= |steps|
    decreases |xs|
  {
    xs != [] ==>
      && i < |steps| && xs[0] == exec(steps[i]) && GroupName(steps[i]) == name && IsLocal(steps[i])
      && GroupAt(exec, name, steps, i + 1, xs[1..])
  }

  function After(exec: Exec, turn: Turn, parallelism: int): End
    requires turn.Continue? ==> Valid(turn.s)
  {
    match turn
    case Continue(a) => Drive(exec, a, parallelism)
    case Stop(end) => end
  }

  lemma {:induction false} GroupAtPrefix(exec: Exec, name: string, steps: seq<PlanStep>, more: seq<PlanStep>, i: nat,
                                         xs: seq<Effect>)
    requires GroupAt(exec, name, steps, i, xs) && steps <= more
    ensures GroupAt(exec, name, more, i, xs)
    decreases |xs|
  {
    if xs != [] { GroupAtPrefix(exec, name, steps, more, i + 1, xs[1..]); }
  }

  lemma {:induction false} ExecutesGroup(exec: Exec, name: string, steps: seq<PlanStep>, i: nat, n: nat)
    requires i + n <= |steps| && forall k :: i <= k < i + n ==> GroupName(steps[k]) == name && IsLocal(steps[k])
    ensures GroupAt(exec, name, steps, i, ExecAll(exec, steps[i..i + n]))
    decreases n
  {
    if n > 0 {
      ExecutesGroup(exec, name, steps, i + 1, n - 1);
      assert steps[i..i + n][1..] == steps[i + 1..i + n];
    }
  }

  lemma {:induction false} GroupIsLate(exec: Exec, name: string, steps: seq<PlanStep>, before: seq<ExecutedStep>,
                                       xs: seq<Effect>)
    requires GroupAt(exec, name, steps, |before|, xs)
    ensures LateFrom(exec, name, steps, before + Records(xs), |before|)
    decreases |xs|
  {
    if xs != [] {
      AppendAssociates(before, [xs[0].st], Records(xs[1..]));
      GroupIsLate(exec, name, steps, before + [xs[0].st], xs[1..]);
    }
  }

  lemma GroupExtendsFirst(s: RunState, xs: seq<Effect>)
    requires xs != []
    ensures Record(s, xs[0]).out <= s.out + Records(xs)
    ensures Record(s, xs[0]).manifest <= s.manifest + AllItems(xs)
  {
    AppendAssociates(s.out, [xs[0].st], Records(xs[1..]));
    AppendAssociates(s.manifest, Items(xs[0]), AllItems(xs[1..]));
  }

  lemma FailedGroupIsLate(exec: Exec, s: RunState, xs: seq<Effect>, name: string, b: RunState)
    requires Valid(s) && xs != [] && |s.out| == s.i && GroupAt(exec, name, s.steps, s.i, xs)
    requires TakeGroup(s, xs).Stop? && TakeGroup(s, xs).end.Failed? && b == TakeGroup(s, xs).end.s
    ensures Record(s, xs[0]).out <= b.out && Record(s, xs[0]).manifest <= b.manifest
    ensures LateResults(exec, s.i + 1, b)
  {
    RecordAllFacts(s, xs);
    AddPagesFacts(RecordAll(s, xs), xs);
    GroupExtendsFirst(s, xs);
    AppendAssociates(s.out, [xs[0].st], Records(xs[1..]));
    GroupAtPrefix(exec, name, s.steps, b.steps, s.i, xs);
    GroupIsLate(exec, name, b.steps, s.out + [xs[0].st], xs[1..]);
  }

  lemma FailingGroupRefines(exec: Exec, s: RunState, xs: seq<Effect>, name: string, strict: bool)
    requires Valid(s) && xs != [] && |s.out| == s.i && GroupAt(exec, name, s.steps, s.i, xs)
    requires xs[0].err.Some?
    requires strict ==> NoPanic(xs)
    ensures TakeOne(s, xs[0]).Stop? && TakeGroup(s, xs).Stop?
    ensures Refines(exec, TakeOne(s, xs[0]).end, TakeGroup(s, xs).end, strict)
  {
    if strict { NoPanicAdds(RecordAll(s, xs), xs); }
    if TakeGroup(s, xs).end.Failed? {
      FailedGroupIsLate(exec, s, xs, name, TakeGroup(s, xs).end.s);
    }
  }

  ghost predicate Strict(exec: Exec, s: RunState, parallelism: int) {
    Paginates(exec) && PanicsOnNull(exec) && NoGroupedNull(s.steps, parallelism)
  }

  lemma StrictAfterPage(exec: Exec, s: RunState, step: PlanStep, parallelism: int)
    requires Strict(exec, s, parallelism) && AddPage(s, exec(step)).Some?
    ensures Strict(exec, AddPage(s, exec(step)).value, parallelism)
  {
  }

  lemma StrictAfterOne(exec: Exec, s: RunState, parallelism: int)
    requires Valid(s) && s.i < |s.steps| && Strict(exec, s, parallelism) && SequentialTurn(exec, s).Continue?
    ensures Strict(exec, SequentialTurn(exec, s).s, parallelism)
  {
    StrictAfterPage(exec, Record(s, exec(s.steps[s.i])), s.steps[s.i], parallelism);
  }

  lemma StrictGroup(exec: Exec, s: RunState, n: nat, parallelism: int)
    requires Valid(s) && s.i + n <= |s.steps| && n > 0 && Strict(exec, s, parallelism) && parallelism > 1
    requires forall k :: s.i <= k < s.i + n ==> RunsAsGroup(s.steps[k], parallelism)
    ensures NoPanic(ExecAll(exec, s.steps[s.i..s.i + n]))
  {
    var group := s.steps[s.i..s.i + n];
    forall step | step in group ensures !step.args.NullArgs? { assert step in s.steps; }
    GroupWithoutNull(exec, group);
  }

  lemma {:induction false} GroupRefines(exec: Exec, s: RunState, xs: seq<Effect>, name: string, turn: Turn,
                                        parallelism: int, strict: bool)
    requires Valid(s) && |s.out| == s.i && GroupAt(exec, name, s.steps, s.i, xs) && turn == TakeGroup(s, xs)
    requires strict ==> Strict(exec, s, parallelism) && NoPanic(xs)
    ensures turn.Continue? ==> Valid(turn.s)
    ensures Refines(exec, Drive(exec, s, 1), After(exec, turn, parallelism), strict)
    decreases Fuel(s), if xs == [] then 3 else 0
  {
    if xs == [] {
      DriveRefines(exec, s, parallelism, strict);
    } else {
      var first := TakeOne(s, xs[0]);
      assert NextTurn(exec, s, 1) == first;
      TakeOneUsesFuel(s, xs[0]);
      if xs[0].err.Some? {
        FailingGroupRefines(exec, s, xs, name, strict);
      } else {
        GroupPeels(s, xs);
        if first.Continue? {
          GroupAtPrefix(exec, name, s.steps, first.s.steps, s.i + 1, xs[1..]);
          if strict { StrictAfterOne(exec, s, parallelism); }
          GroupRefines(exec, first.s, xs[1..], name, turn, parallelism, strict);
        }
      }
    }
  }

  lemma {:induction false} GroupTurnRefines(exec: Exec, s: RunState, turn: Turn, parallelism: int, strict: bool)
    requires Valid(s) && |s.out| == s.i < |s.steps| && RunsAsGroup(s.steps[s.i], parallelism)
    requires turn == NextTurn(exec, s, parallelism)
    requires strict ==> Strict(exec, s, parallelism)
    ensures turn.Continue? ==> Valid(turn.s)
    ensures Refines(exec, Drive(exec, s, 1), After(exec, turn, parallelism), strict)
    decreases Fuel(s), 1
  {
    var name := GroupName(s.steps[s.i]);
    var n := GroupLength(s.steps, s.i, name);
    assert n > 0;
    if strict { StrictGroup(exec, s, n, parallelism); }
    ExecutesGroup(exec, name, s.steps, s.i, n);
    GroupRefines(exec, s, ExecAll(exec, s.steps[s.i..s.i + n]), name, turn, parallelism, strict);
  }

  lemma {:induction false} DriveRefines(exec: Exec, s: RunState, parallelism: int, strict: bool)
    requires Valid(s) && |s.out| == s.i
    requires strict ==> Strict(exec, s, parallelism)
    ensures Refines(exec, Drive(exec, s, 1), Drive(exec, s, parallelism), strict)
    decreases Fuel(s), 2
  {
    if s.i < |s.steps| {
      TurnUsesFuel(exec, s, parallelism);
      if RunsAsGroup(s.steps[s.i], parallelism) {
        GroupTurnRefines(exec, s, NextTurn(exec, s, parallelism), parallelism, strict);
      } else {
        assert NextTurn(exec, s, 1) == NextTurn(exec, s, parallelism);
        var turn := NextTurn(exec, s, 1);
        if turn.Continue? {
          if strict { StrictAfterOne(exec, s, parallelism); }
          DriveRefines(exec, turn.s, parallelism, strict);
        }
      }
    }
  }

  /** For every plan, every tool behaviour and every parallelism. */
  lemma ParallelRefinesSequential(exec: Exec, plan: seq<PlanStep>, parallelism: int)
    ensures Refines(exec, Run(exec, plan, 1), Run(exec, plan, parallelism), false)
    ensures Paginates(exec) && PanicsOnNull(exec) && NoGroupedNull(plan, parallelism) ==>
              Refines(exec, Run(exec, plan, 1), Run(exec, plan, parallelism), true)
  {
    DriveRefines(exec, Start(plan), parallelism, false);
    if Paginates(exec) && PanicsOnNull(exec) && NoGroupedNull(plan, parallelism) {
      DriveRefines(exec, Start(plan), parallelism, true);
    }
  }

  lemma ContinuationCopies(step: PlanStep, result: map<string, Value>)
    ensures CreateContinuation(step, result).NextPage? ==> CopyOf(step, CreateContinuation(step, result).step)
  {
  }

  lemma ExecutorPaginates(env: Env)
    ensures Paginates(Executes(env))
  {
    forall step | EffectOf(env, step).page.NextPage?
      ensures CopyOf(step, EffectOf(env, step).page.step)
    {
      ContinuationCopies(step, ExecOne(env, step).resultMap.value);
    }
  }

  lemma ExecutorPanicsOnNull(env: Env)
    ensures PanicsOnNull(Executes(env))
  {
  }

  // ----- a run stays within its plan

  lemma {:induction false} ExecAllAppends(exec: Exec, a: seq<PlanStep>, b: seq<PlanStep>)
    ensures ExecAll(exec, a + b) == ExecAll(exec, a) + ExecAll(exec, b)
  {
    if a == [] {
      assert a + b == b;
    } else {
      assert (a + b)[1..] == a[1..] + b;
      ExecAllAppends(exec, a[1..], b);
      AppendAssociates([exec(a[0])], ExecAll(exec, a[1..]), ExecAll(exec, b));
    }
  }

  lemma {:induction false} RecordsAppend(a: seq<Effect>, b: seq<Effect>)
    ensures Records(a + b) == Records(a) + Records(b)
  {
    if a == [] {
      assert a + b == b;
    } else {
      assert (a + b)[1..] == a[1..] + b;
      RecordsAppend(a[1..], b);
      AppendAssociates([a[0].st], Records(a[1..]), Records(b));
    }
  }

  lemma {:induction false} AllItemsAppend(a: seq<Effect>, b: seq<Effect>)
    ensures AllItems(a + b) == AllItems(a) + AllItems(b)
  {
    if a == [] {
      assert a + b == b;
    } else {
      assert (a + b)[1..] == a[1..] + b;
      AllItemsAppend(a[1..], b);
      AppendAssociates(Items(a[0]), AllItems(a[1..]), AllItems(b));
    }
  }

  predicate CopiedEarlier(steps: seq<PlanStep>, k: nat)
    requires k < |steps|
  {
    exists j :: 0 <= j < k && CopyOf(steps[j], steps[k])
  }

  /** The shape of every state of a run: the plan comes first, at most ten pages follow it, each a
      copy of an earlier step, and the records are those of the steps in work-list order. */
  predicate Within(exec: Exec, plan: seq<PlanStep>, s: RunState) {
    && Valid(s) && plan <= s.steps && |s.steps| == |plan| + s.count
    && s.out == Records(ExecAll(exec, s.steps[..s.i]))
    && forall k :: |plan| <= k < |s.steps| ==> CopiedEarlier(s.steps, k)
  }

  lemma AddPageStaysWithin(exec: Exec, plan: seq<PlanStep>, s: RunState, j: nat)
    requires Paginates(exec) && Within(exec, plan, s) && j < |s.steps|
    ensures AddPage(s, exec(s.steps[j])).Some? ==> Within(exec, plan, AddPage(s, exec(s.steps[j])).value)
  {
    var a := AddPage(s, exec(s.steps[j]));
    if a.Some? && a.value != s {
      assert a.value.steps[..s.i] == s.steps[..s.i];
      assert CopyOf(a.value.steps[j], a.value.steps[|s.steps|]);
      forall k | |plan| <= k < |s.steps| ensures CopiedEarlier(a.value.steps, k) {
        assert CopiedEarlier(s.steps, k);
        var i :| 0 <= i < k && CopyOf(s.steps[i], s.steps[k]);
        assert CopyOf(a.value.steps[i], a.value.steps[k]);
      }
    }
  }

  lemma {:induction false} AddPagesStaysWithin(exec: Exec, plan: seq<PlanStep>, s: RunState, lo: nat, hi: nat)
    requires Paginates(exec) && Within(exec, plan, s) && lo <= hi <= |s.steps|
    ensures var a := AddPages(s, ExecAll(exec, s.steps[lo..hi])); a.Some? ==> Within(exec, plan, a.value)
    decreases hi - lo
  {
    if lo < hi {
      var group := s.steps[lo..hi];
      AddPageStaysWithin(exec, plan, s, lo);
      assert group[1..] == s.steps[lo + 1..hi];
      if AddPage(s, exec(s.steps[lo])).Some? {
        var a := AddPage(s, exec(s.steps[lo])).value;
        assert a.steps[lo + 1..hi] == group[1..];
        AddPagesStaysWithin(exec, plan, a, lo + 1, hi);
      }
    }
  }

  lemma RecordAllStaysWithin(exec: Exec, plan: seq<PlanStep>, s: RunState, n: nat)
    requires Within(exec, plan, s) && s.i + n <= |s.steps|
    ensures Within(exec, plan, RecordAll(s, ExecAll(exec, s.steps[s.i..s.i + n])).(i := s.i + n))
  {
    var xs := ExecAll(exec, s.steps[s.i..s.i + n]);
    RecordAllFacts(s, xs);
    assert s.steps[..s.i] + s.steps[s.i..s.i + n] == s.steps[..s.i + n];
    ExecAllAppends(exec, s.steps[..s.i], s.steps[s.i..s.i + n]);
    RecordsAppend(ExecAll(exec, s.steps[..s.i]), xs);
  }

  function StateOf(end: End): RunState
    requires !end.Panicked?
  {
    end.s
  }

  predicate EndsWithin(exec: Exec, plan: seq<PlanStep>, end: End) {
    match end
    case Completed(s) => Within(exec, plan, s) && s.i == |s.steps|
    case Failed(s, _) => Within(exec, plan, s) && s.i > 0
    case Panicked => true
  }

  lemma GroupStaysWithin(exec: Exec, plan: seq<PlanStep>, s: RunState, n: nat)
    requires Paginates(exec) && Within(exec, plan, s) && 0 < n && s.i + n <= |s.steps|
    ensures match GroupTurn(exec, s, n)
            case Continue(a) => Within(exec, plan, a)
            case Stop(end) => EndsWithin(exec, plan, end)
  {
    var xs := ExecAll(exec, s.steps[s.i..s.i + n]);
    var r := RecordAll(s, xs);
    RecordAllStaysWithin(exec, plan, s, n);
    RecordAllFacts(s, xs);
    AddPagesStaysWithin(exec, plan, r.(i := s.i + n), s.i, s.i + n);
    AddPagesMovesIndex(r, xs, s.i + n);
  }

  lemma OneStaysWithin(exec: Exec, plan: seq<PlanStep>, s: RunState)
    requires Paginates(exec) && Within(exec, plan, s) && s.i < |s.steps|
    ensures match SequentialTurn(exec, s)
            case Continue(a) => Within(exec, plan, a)
            case Stop(end) => EndsWithin(exec, plan, end)
  {
    var x := exec(s.steps[s.i]);
    assert s.steps[s.i..s.i + 1] == [s.steps[s.i]];
    RecordAllStaysWithin(exec, plan, s, 1);
    var r := Record(s, x);
    assert ExecAll(exec, [s.steps[s.i]]) == [x] && RecordAll(s, [x]) == r;
    AddPageStaysWithin(exec, plan, r.(i := s.i + 1), s.i);
  }

  lemma {:induction false} DriveStaysWithin(exec: Exec, plan: seq<PlanStep>, s: RunState, parallelism: int)
    requires Paginates(exec) && Within(exec, plan, s)
    ensures EndsWithin(exec, plan, Drive(exec, s, parallelism))
    decreases Fuel(s)
  {
    if s.i < |s.steps| {
      TurnUsesFuel(exec, s, parallelism);
      if RunsAsGroup(s.steps[s.i], parallelism) {
        GroupStaysWithin(exec, plan, s, GroupLength(s.steps, s.i, GroupName(s.steps[s.i])));
      } else {
        OneStaysWithin(exec, plan, s);
      }
      var turn := NextTurn(exec, s, parallelism);
      if turn.Continue? {
        DriveStaysWithin(exec, plan, turn.s, parallelism);
      }
    }
  }

  /** Whatever the tools return, a run that does not panic executes at most |plan| + 10 steps, in
      the order plan then pages, and every page copies the tool of an earlier step. */
  lemma RunStaysWithinPlan(exec: Exec, plan: seq<PlanStep>, parallelism: int)
    requires Paginates(exec)
    ensures var end := Run(exec, plan, parallelism);
            !end.Panicked? ==>
              EndsWithin(exec, plan, end) && |StateOf(end).out| <= |plan| + MAX_CONTINUATIONS
  {
    DriveStaysWithin(exec, plan, Start(plan), parallelism);
  }

  // ----- a completed run

  function Page1(x: Effect): seq<PlanStep> {
    if x.page.NextPage? then [x.page.step] else []
  }

  function PagesOf(xs: seq<Effect>): seq<PlanStep> {
    if xs == [] then [] else Page1(xs[0]) + PagesOf(xs[1..])
  }

  function Budgeted(pages: seq<PlanStep>): seq<PlanStep> {
    if |pages| <= MAX_CONTINUATIONS then pages else pages[..MAX_CONTINUATIONS]
  }

  lemma {:induction false} PagesAppend(a: seq<Effect>, x: Effect)
    ensures PagesOf(a + [x]) == PagesOf(a) + Page1(x)
  {
    if a == [] {
      assert a + [x] == [x];
    } else {
      assert (a + [x])[1..] == a[1..] + [x];
      PagesAppend(a[1..], x);
      AppendAssociates(Page1(a[0]), PagesOf(a[1..]), Page1(x));
    }
  }

  lemma {:induction false} NoErrorAppends(a: seq<Effect>, x: Effect)
    ensures FirstError(a + [x]) == if FirstError(a).Some? then FirstError(a) else x.err
  {
    if a != [] {
      assert (a + [x])[1..] == a[1..] + [x];
      NoErrorAppends(a[1..], x);
    }
  }

  /** The first i steps ran without an error; the work list is the plan followed by the first ten
      pages they asked for. */
  predicate Explained(exec: Exec, plan: seq<PlanStep>, s: RunState) {
    Valid(s) &&
    var xs := ExecAll(exec, s.steps[..s.i]);
    && FirstError(xs) == None
    && s.out == Records(xs)
    && s.manifest == AllItems(xs)
    && s.steps == plan + Budgeted(PagesOf(xs))
    && s.count == |Budgeted(PagesOf(xs))|
  }

  lemma BudgetAppends(plan: seq<PlanStep>, pages: seq<PlanStep>, page: seq<PlanStep>)
    requires |page| <= 1
    ensures plan + Budgeted(pages + page) ==
            if |Budgeted(pages)| >= MAX_CONTINUATIONS then plan + Budgeted(pages)
            else (plan + Budgeted(pages)) + page
    ensures |Budgeted(pages + page)| ==
            if |Budgeted(pages)| >= MAX_CONTINUATIONS then |Budgeted(pages)| else |Budgeted(pages)| + |page|
  {
  }

  lemma OneStaysExplained(exec: Exec, plan: seq<PlanStep>, s: RunState)
    requires Explained(exec, plan, s) && s.i < |s.steps| && SequentialTurn(exec, s).Continue?
    ensures Explained(exec, plan, SequentialTurn(exec, s).s)
  {
    var done, step := s.steps[..s.i], s.steps[s.i];
    var xs, x := ExecAll(exec, done), exec(step);
    var a := SequentialTurn(exec, s).s;
    assert a.steps[..a.i] == done + [step];
    assert ExecAll(exec, [step]) == [x];
    ExecAllAppends(exec, done, [step]);
    NoErrorAppends(xs, x);
    RecordsAppend(xs, [x]);
    AllItemsAppend(xs, [x]);
    assert AllItems([x]) == Items(x);
    PagesAppend(xs, x);
    BudgetAppends(plan, PagesOf(xs), Page1(x));
  }

  lemma {:induction false} DriveStaysExplained(exec: Exec, plan: seq<PlanStep>, s: RunState)
    requires Explained(exec, plan, s)
    ensures Drive(exec, s, 1).Completed? ==>
              Explained(exec, plan, Drive(exec, s, 1).s) && Drive(exec, s, 1).s.i == |Drive(exec, s, 1).s.steps|
    decreases Fuel(s)
  {
    if s.i < |s.steps| {
      TurnUsesFuel(exec, s, 1);
      var turn := SequentialTurn(exec, s);
      if turn.Continue? {
        OneStaysExplained(exec, plan, s);
        DriveStaysExplained(exec, plan, turn.s);
      }
    }
  }

  /** The outcome of an error-free run in closed form, for every parallelism: the work list is the
      plan and the first ten pages its own steps ask for, and every step ran, once, in that order. */
  lemma CompletedRunIsExplained(exec: Exec, plan: seq<PlanStep>, parallelism: int)
    requires Run(exec, plan, parallelism).Completed?
    ensures var s := Run(exec, plan, parallelism).s;
            var xs := ExecAll(exec, s.steps);
            && s.steps == plan + Budgeted(PagesOf(xs))
            && s.out == Records(xs) && s.manifest == AllItems(xs) && FirstError(xs) == None
  {
    ParallelRefinesSequential(exec, plan, parallelism);
    assert Explained(exec, plan, Start(plan)) by { assert plan + [] == plan; }
    DriveStaysExplained(exec, plan, Start(plan));
    var s := Run(exec, plan, parallelism).s;
    assert s.steps[..|s.steps|] == s.steps;
  }

  predicate Creates(exec: Exec, steps: seq<PlanStep>, k: nat, item: Item) {
    k < |steps| && exec(steps[k]).item == Some(item)
  }

  predicate Mentions(report: Report, item: Item) {
    report.Report? && report.manifest.Some? && item in report.manifest.value
  }

  lemma {:induction false} AllItemsHold(exec: Exec, steps: seq<PlanStep>, item: Item)
    ensures item in AllItems(ExecAll(exec, steps)) <==> exists k: nat :: Creates(exec, steps, k, item)
  {
    if steps != [] {
      var more := steps[1..];
      AllItemsHold(exec, more, item);
      if item in AllItems(ExecAll(exec, more)) {
        var k: nat :| Creates(exec, more, k, item);
        assert Creates(exec, steps, k + 1, item);
      }
      if k: nat :| Creates(exec, steps, k, item) {
        if k > 0 { assert Creates(exec, more, k - 1, item); }
      }
      assert exec(steps[0]).item == Some(item) ==> Creates(exec, steps, 0, item);
    }
  }

  /** The caller of a run that ends without an error sees a record of each step, and as its artifacts
      those that the steps have created, if any. */
  lemma ReportShowsArtifacts(exec: Exec, plan: seq<PlanStep>, parallelism: int)
    requires Run(exec, plan, parallelism).Completed?
    ensures var s, report := Run(exec, plan, parallelism).s, Reported(Run(exec, plan, parallelism));
            && report.Report? && report.err == None
            && report.out == Records(ExecAll(exec, s.steps))
            && forall item :: Mentions(report, item) <==> exists k: nat :: Creates(exec, s.steps, k, item)
  {
    CompletedRunIsExplained(exec, plan, parallelism);
    var s, report := Run(exec, plan, parallelism).s, Reported(Run(exec, plan, parallelism));
    forall item ensures Mentions(report, item) <==> exists k: nat :: Creates(exec, s.steps, k, item) {
      AllItemsHold(exec, s.steps, item);
    }
  }

  // ----- what a record says

  /** The record names its step; the step failed exactly if the record is not ok. */
  predicate RecordsStep(step: PlanStep, st: ExecutedStep, err: Option<string>) {
    && st.name == step.name && st.source == step.source && st.args == step.args
    && (st.ok <==> err == None) && (st.ok ==> st.error == "")
  }

  lemma AcceptRecordsStep(env: Env, step: PlanStep, st: ExecutedStep, content: seq<string>)
    requires RecordsStep(step, st, None)
    ensures RecordsStep(step, Accept(env, step, st, content).st, Accept(env, step, st, content).err)
  {
  }

  lemma ExecutorRecordsStep(env: Env, step: PlanStep)
    ensures RecordsStep(step, Executes(env)(step).st, Executes(env)(step).err)
  {
    var st := ExecutedStep(step.name, step.source, step.args, true, Null, "");
    var reply := Dispatch(env, step);
    if reply.Reply? { AcceptRecordsStep(env, step, st, reply.content); }
  }

  ghost predicate RecordsSteps(exec: Exec) {
    forall step :: RecordsStep(step, exec(step).st, exec(step).err)
  }

  lemma ExecutorRecordsSteps(env: Env)
    ensures RecordsSteps(Executes(env))
  {
    forall step ensures RecordsStep(step, Executes(env)(step).st, Executes(env)(step).err) {
      ExecutorRecordsStep(env, step);
    }
  }

  /** A local tool is called here, any other on the upstream server. */
  function ReplyTo(env: Env, step: PlanStep): ToolReply {
    if ToLower(step.source) == "local" then env.local(step.name, step.args) else env.upstream(step.name, step.args)
  }

  /** No result, page or artifact, and these errors in the record and for the run. */
  predicate ComesToNothing(x: Execution, recorded: string, err: string) {
    x.st.result == Null && x.resultMap == None && x.item == None && x.st.error == recorded && x.err == Some(err)
  }

  /** What a step comes to if its tool does not answer with a value. */
  lemma FailedStepSays(env: Env, step: PlanStep)
    ensures var x, reply := ExecOne(env, step), ReplyTo(env, step);
            if !IsAllowed(env.policy, step.source, step.name) then
              ComesToNothing(x, "blocked by policy", "blocked tool: " + step.name)
            else if step.args.Malformed? then
              ComesToNothing(x, "invalid args: must be JSON object", "invalid args for " + step.name)
            else
              && (reply.HandlerError? ==> ComesToNothing(x, reply.msg, reply.msg))
              && (reply.Reply? && reply.isError && reply.content != [] ==>
                    ComesToNothing(x, reply.content[0], "tool error"))
              && (reply == Reply(true, []) ==> ComesToNothing(x, "tool returned error", "tool error"))
  {
    assert ToLower("local") == "local";
  }

  /** The tool of the step answered with this value, the first text of its reply. */
  predicate Answered(env: Env, step: PlanStep, v: Value) {
    && IsAllowed(env.policy, step.source, step.name) && !step.args.Malformed?
    && ReplyTo(env, step).Reply? && !ReplyTo(env, step).isError && AnswersWith(env, ReplyTo(env, step).content, v)
  }

  /** Text that is no JSON counts as a string, and no text as null. */
  predicate AnswersWith(env: Env, content: seq<string>, v: Value) {
    if content == [] then v == Null
    else match env.parse(content[0]) case None => v == Str(content[0]) case Some(w) => v == w
  }

  /** A record holds the shaped value of the tool's answer, or the reference to its artifact; the artifact
      and the next page are made of the answer itself, as shaping has left it. */
  lemma AnsweredStepRecords(env: Env, step: PlanStep, v: Value)
    requires Answered(env, step, v)
    ensures var x := ExecOne(env, step);
            if v == Null then x.err == None && x.st.result == Null && x.resultMap == None && x.item == None
            else
              match env.shape(step.name, v)
              case ShapeError(msg, left) =>
                && x.err == Some(msg) && x.st.error == "output shaping error: " + msg && x.item == None
                && x.st.result == left
              case Shaped(shaped, left) =>
                && x.resultMap == (if left.Obj? then Some(left.fields) else None)
                && match env.store(step.name, step.args, left)
                   case StoreError(msg) =>
                     && x.err == Some(msg) && x.st.error == "artifact store error: " + msg && x.item == None
                     && x.st.result == shaped
                   case Inline => x.err == None && x.st.result == shaped && x.item == None
                   case Stored(reference, item) => x.err == None && x.st.result == reference && x.item == Some(item)
  {
    assert ToLower("local") == "local";
  }

  predicate AllOk(out: seq<ExecutedStep>) {
    forall k :: 0 <= k < |out| ==> out[k].ok
  }

  /** The records before this one are ok, it is not. */
  predicate FailsAt(out: seq<ExecutedStep>, k: nat) {
    k < |out| && !out[k].ok && forall j :: 0 <= j < k ==> out[j].ok
  }

  predicate SequentialOk(end: End) {
    match end
    case Completed(s) => AllOk(s.out)
    case Failed(s, _) => |s.out| > 0 && FailsAt(s.out, |s.out| - 1)
    case Panicked => true
  }

  lemma {:induction false} DriveRecordsOk(exec: Exec, s: RunState)
    requires Valid(s) && RecordsSteps(exec) && AllOk(s.out)
    ensures SequentialOk(Drive(exec, s, 1))
    decreases Fuel(s)
  {
    if s.i < |s.steps| {
      TurnUsesFuel(exec, s, 1);
      var x, turn := exec(s.steps[s.i]), SequentialTurn(exec, s);
      assert RecordsStep(s.steps[s.i], x.st, x.err);
      assert Record(s, x).out == s.out + [x.st];
      if turn.Continue? { DriveRecordsOk(exec, turn.s); }
    }
  }

  /** The caller of a run that fails sees what has been recorded so far, and the error. */
  lemma ReportShowsFailure(exec: Exec, plan: seq<PlanStep>, parallelism: int)
    requires RecordsSteps(exec) && Run(exec, plan, parallelism).Failed?
    ensures var report := Reported(Run(exec, plan, parallelism));
            && report.Report? && report.err.Some? && report.manifest.Some?
            && exists k :: FailsAt(report.out, k)
  {
    RecordsTellFailure(exec, plan, parallelism);
  }

  /** A completed run has only ok records. A failed run has one that is not, and the first of them is
      where a run without groups would have ended, for every parallelism. */
  lemma RecordsTellFailure(exec: Exec, plan: seq<PlanStep>, parallelism: int)
    requires RecordsSteps(exec)
    ensures var end := Run(exec, plan, parallelism);
            && (end.Completed? ==> AllOk(end.s.out))
            && (end.Failed? ==> exists k :: FailsAt(end.s.out, k))
  {
    DriveRecordsOk(exec, Start(plan));
    ParallelRefinesSequential(exec, plan, parallelism);
    var end, sequential := Run(exec, plan, parallelism), Run(exec, plan, 1);
    if end.Failed? {
      var k := |sequential.s.out| - 1;
      assert sequential.s.out[k] == end.s.out[k] && forall j :: 0 <= j < k ==> sequential.s.out[j] == end.s.out[j];
      assert FailsAt(end.s.out, k);
    }
  }

  // ----- sequential runs, turn by turn

  lemma DriveStep(exec: Exec, s: RunState, a: RunState)
    requires Valid(s) && s.i < |s.steps| && NextTurn(exec, s, 1) == Continue(a)
    ensures Valid(a) && Drive(exec, s, 1) == Drive(exec, a, 1)
  {
    TurnUsesFuel(exec, s, 1);
  }

  lemma DriveStop(exec: Exec, a: RunState)
    requires Valid(a) && a.i == |a.steps|
    ensures Drive(exec, a, 1) == Completed(a)
  {
  }

  // ----- a validated plan

  predicate Permitted(p: Policy, step: PlanStep) {
    && step.name != "query" && step.name != "router"
    && IsAllowed(p, step.source, step.name) && !step.args.Malformed?
    && (if IsLocal(step) then step.name in p.allowLocal else step.name in p.allowUpstream)
  }

  lemma ValidStepIsPermitted(p: Policy, catalog: seq<CatalogItem>, conforms: (string, string, Args) -> bool,
                             step: PlanStep)
    requires StepOk(p, catalog, conforms, step)
    ensures Permitted(p, step)
  {
    SourceIs(step.source);
    assert ToLower("local") == "local" && ToLower("upstream") == "upstream";
  }

  lemma {:induction false} WorkListPermitted(p: Policy, plan: seq<PlanStep>, steps: seq<PlanStep>, k: nat)
    requires plan <= steps && k < |steps|
    requires forall j :: |plan| <= j < |steps| ==> CopiedEarlier(steps, j)
    requires forall j :: 0 <= j < |plan| ==> Permitted(p, plan[j])
    ensures Permitted(p, steps[k])
  {
    if k >= |plan| {
      assert CopiedEarlier(steps, k);
      var j :| 0 <= j < k && CopyOf(steps[j], steps[k]);
      WorkListPermitted(p, plan, steps, j);
    }
  }

  /** After a successful validation, nothing the executor runs, pages included, is blocked by the
      policy or refused for its arguments: each step reaches the list its source is allowed on. */
  lemma ValidatedPlanIsNeverBlocked(env: Env, plan: seq<PlanStep>, catalog: seq<CatalogItem>,
                                    conforms: (string, string, Args) -> bool, parallelism: int)
    requires forall k :: 0 <= k < |plan| ==> StepOk(env.policy, catalog, conforms, plan[k])
    ensures var end := Run(Executes(env), plan, parallelism);
            !end.Panicked? ==> forall step :: step in StateOf(end).steps ==> Permitted(env.policy, step)
  {
    var end := Run(Executes(env), plan, parallelism);
    ExecutorPaginates(env);
    RunStaysWithinPlan(Executes(env), plan, parallelism);
    forall k | 0 <= k < |plan| ensures Permitted(env.policy, plan[k]) {
      ValidStepIsPermitted(env.policy, catalog, conforms, plan[k]);
    }
    if !end.Panicked? {
      forall step | step in StateOf(end).steps ensures Permitted(env.policy, step) {
        var k :| 0 <= k < |StateOf(end).steps| && StateOf(end).steps[k] == step;
        WorkListPermitted(env.policy, plan, StateOf(end).steps, k);
      }
    }
  }
}
