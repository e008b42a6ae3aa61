/** What auto-pagination makes of a list that a tool serves in pages: a one-step plan delivers the
    pages one after the other, up to eleven, and they join to the list. */
module ListPaging {
  import opened Text
  import opened Json
  import opened Plans
  import opened Executor
  import opened ExecutorTheorems

  // ----- which page comes next

  /** The ways in which a result leads to the next page, the first that applies counts. */
  datatype Kind = ByTotal | ByOffset | ByPage | ByCursor | ByStart

  predicate HasNum(result: map<string, Value>, key: string) {
    key in result && result[key].Num?
  }

  predicate GoesOn(result: map<string, Value>) {
    "has_next" in result && result["has_next"] == Bool(true)
  }

  predicate MoreThanShown(result: map<string, Value>) {
    && HasNum(result, "startAt") && HasNum(result, "maxResults") && HasNum(result, "total")
    && ToInt(result["startAt"].n) + ToInt(result["maxResults"].n) < ToInt(result["total"].n)
  }

  predicate Offers(kind: Kind, tool: string, result: map<string, Value>) {
    match kind
    case ByTotal =>
      tool in {"jira_search_issues", "jira_get_issue_comments", "jira_list_projects"} && MoreThanShown(result)
    case ByOffset => tool == "get_pull_request_diff" && GoesOn(result) && HasNum(result, "next_offset")
    case ByPage =>
      tool in {"list_pull_request_files", "list_pull_request_commits"} && GoesOn(result) && HasNum(result, "next_page")
    case ByCursor =>
      && GoesOn(result) && "next_cursor" in result
      && result["next_cursor"].Str? && TrimSpace(result["next_cursor"].s) != ""
    case ByStart => GoesOn(result) && HasNum(result, "next_start")
  }

  /** The argument that asks for the next page, and its value. */
  function Mark(kind: Kind, tool: string, result: map<string, Value>): (string, Value)
    requires Offers(kind, tool, result)
  {
    match kind
    case ByTotal => ("startAt", Num((ToInt(result["startAt"].n) + ToInt(result["maxResults"].n)) as real))
    case ByOffset => ("offset", Num(ToInt(result["next_offset"].n) as real))
    case ByPage => ("page", Num(ToInt(result["next_page"].n) as real))
    case ByCursor => ("cursor", result["next_cursor"])
    case ByStart => ("start", Num(ToInt(result["next_start"].n) as real))
  }

  predicate OffersOneOf(kinds: set<Kind>, tool: string, result: map<string, Value>) {
    exists kind :: kind in kinds && Offers(kind, tool, result)
  }

  function Earlier(kind: Kind): set<Kind> {
    match kind
    case ByTotal => {}
    case ByOffset => {ByTotal}
    case ByPage => {ByTotal, ByOffset}
    case ByCursor => {ByTotal, ByOffset, ByPage}
    case ByStart => {ByTotal, ByOffset, ByPage, ByCursor}
  }

  predicate IsFirst(kind: Kind, tool: string, result: map<string, Value>) {
    Offers(kind, tool, result) && !OffersOneOf(Earlier(kind), tool, result)
  }

  /** The same tool of the same source with one argument changed, outside any group. */
  predicate AsksNext(page: Page, step: PlanStep, mark: (string, Value))
    requires step.args.ObjectArgs?
  {
    && page.NextPage? && page.step.name == step.name && page.step.source == step.source
    && page.step.args == ObjectArgs(step.args.fields[mark.0 := mark.1]) && page.step.parallelGroup == ""
  }

  lemma FirstIsFollowed(step: PlanStep, result: map<string, Value>, kind: Kind)
    requires step.args.ObjectArgs? && IsFirst(kind, step.name, result)
    ensures AsksNext(CreateContinuation(step, result), step, Mark(kind, step.name, result))
  {
    match kind {
      case ByTotal =>
      case _ =>
        assert ByTotal in Earlier(kind);
        assert NextJiraStart(step.name, result).None?;
        assert step.name == "get_pull_request_diff" ==> step.name !in PR_LISTS;
        assert kind != ByOffset ==> ByOffset in Earlier(kind);
        assert kind != ByOffset && kind != ByPage ==> ByPage in Earlier(kind);
        assert kind == ByStart ==> ByCursor in Earlier(kind);
    }
  }

  lemma NothingIsFollowed(step: PlanStep, result: map<string, Value>)
    requires step.args.ObjectArgs? && forall kind :: !Offers(kind, step.name, result)
    ensures CreateContinuation(step, result) == NoPage
  {
    assert !Offers(ByTotal, step.name, result) && !Offers(ByOffset, step.name, result);
    assert !Offers(ByPage, step.name, result) && !Offers(ByCursor, step.name, result);
    assert !Offers(ByStart, step.name, result);
  }

  /** Arguments that are null panic on the next page; text that is no object has none. */
  lemma NullPanicsIff(step: PlanStep, result: map<string, Value>)
    requires !step.args.ObjectArgs?
    ensures CreateContinuation(step, result).NextPage? == false
    ensures CreateContinuation(step, result) == Panic <==>
              step.args.NullArgs? && exists kind :: Offers(kind, step.name, result)
  {
    if step.args.NullArgs? {
      var named := step.(args := ObjectArgs(map[]));
      if forall kind :: !Offers(kind, step.name, result) {
        NothingIsFollowed(named, result);
      } else {
        var kind := FirstOf(step.name, result);
        FirstIsFollowed(named, result, kind);
      }
    }
  }

  function FirstOf(tool: string, result: map<string, Value>): (kind: Kind)
    requires exists kind :: Offers(kind, tool, result)
    ensures IsFirst(kind, tool, result)
  {
    if Offers(ByTotal, tool, result) then ByTotal
    else if Offers(ByOffset, tool, result) then ByOffset
    else if Offers(ByPage, tool, result) then ByPage
    else if Offers(ByCursor, tool, result) then ByCursor
    else ByStart
  }

  // ----- a run over the pages of a book

  /** The argument that asks for a page, if it is there. */
  datatype Place = Absent | At(v: Value)

  /** A page and, unless it is the last, the argument that asks for the next one. */
  datatype Leaf = Leaf(items: seq<Value>, next: Option<Value>)

  type Book = Place -> Option<Leaf>

  predicate LeadsOn(book: Book, leaf: Leaf) {
    leaf.next.Some? ==> book(At(leaf.next.value)).Some?
  }

  /** No page asks for one that is not there. */
  ghost predicate Bound(book: Book) {
    forall at :: book(at).Some? ==> LeadsOn(book, book(at).value)
  }

  /** The pages from a place on, at most n. */
  function Pages(book: Book, at: Place, n: nat): seq<seq<Value>>
    decreases n
  {
    if n == 0 || book(at).None? then []
    else
      match book(at).value.next
      case None => [book(at).value.items]
      case Some(v) => [book(at).value.items] + Pages(book, At(v), n - 1)
  }

  /** What a run knows of its steps and records: the place a step asks for, and the items a result holds. */
  datatype View = View(asks: PlanStep -> Option<Place>, read: Value -> seq<Value>)

  /** The step succeeds, its record holds the page, and it asks for the next one exactly if there is one. */
  predicate Yields(view: View, x: Effect, leaf: Leaf) {
    && x.err == None && x.st.ok && view.read(x.st.result) == leaf.items
    && match leaf.next
       case None => x.page == NoPage
       case Some(v) => x.page.NextPage? && view.asks(x.page.step) == Some(At(v))
  }

  predicate ServesAt(exec: Exec, view: View, book: Book, step: PlanStep, at: Place) {
    book(at).Some? ==> Yields(view, exec(step), book(at).value)
  }

  ghost predicate Serves(exec: Exec, view: View, book: Book) {
    forall step, at :: view.asks(step) == Some(at) ==> ServesAt(exec, view, book, step, at)
  }

  /** The items of each record. */
  function Lists(read: Value -> seq<Value>, out: seq<ExecutedStep>): (r: seq<seq<Value>>)
    ensures |r| == |out|
  {
    seq(|out|, k requires 0 <= k < |out| => read(out[k].result))
  }

  predicate Waiting(view: View, s: RunState, at: Place) {
    s.count == s.i <= MAX_CONTINUATIONS && |s.steps| == s.i + 1 && view.asks(s.steps[s.i]) == Some(at)
  }

  /** One page: the next one joins the work list while the budget lasts. */
  lemma PageTurn(exec: Exec, view: View, book: Book, s: RunState, at: Place) returns (a: RunState)
    requires Serves(exec, view, book) && Waiting(view, s, at) && book(at).Some?
    ensures Valid(a) && Drive(exec, s, 1) == Drive(exec, a, 1)
    ensures Lists(view.read, a.out) == Lists(view.read, s.out) + [book(at).value.items]
    ensures if book(at).value.next.Some? && s.i < MAX_CONTINUATIONS
            then Waiting(view, a, At(book(at).value.next.value)) && a.i == s.i + 1
            else a.i == |a.steps|
  {
    var step := s.steps[s.i];
    assert ServesAt(exec, view, book, step, at);
    a := TakeOne(s, exec(step)).s;
    DriveStep(exec, s, a);
    assert a.out == s.out + [exec(step).st];
  }

  lemma {:induction false} DrivePages(exec: Exec, view: View, book: Book, s: RunState, at: Place, n: nat)
      returns (end: End)
    requires Serves(exec, view, book) && Bound(book) && Waiting(view, s, at) && book(at).Some?
    requires s.i + n == MAX_CONTINUATIONS
    ensures end == Drive(exec, s, 1) && end.Completed?
    ensures Lists(view.read, end.s.out) == Lists(view.read, s.out) + Pages(book, at, n + 1)
    decreases n
  {
    var leaf := book(at).value;
    var a := PageTurn(exec, view, book, s, at);
    if leaf.next.Some? && n > 0 {
      assert LeadsOn(book, leaf);
      end := DrivePages(exec, view, book, a, At(leaf.next.value), n - 1);
      AppendAssociates(Lists(view.read, s.out), [leaf.items], Pages(book, At(leaf.next.value), n));
    } else {
      end := Completed(a);
      DriveStop(exec, a);
      assert Pages(book, at, n + 1) == [leaf.items];
    }
  }

  lemma PagesOfRun(exec: Exec, view: View, book: Book, step: PlanStep, at: Place, parallelism: int)
    requires Serves(exec, view, book) && Bound(book) && Paginates(exec) && PanicsOnNull(exec)
    requires view.asks(step) == Some(at) && book(at).Some? && step.args.ObjectArgs?
    ensures var end := Run(exec, [step], parallelism);
            end.Completed? && Lists(view.read, end.s.out) == Pages(book, at, 11)
  {
    var end := DrivePages(exec, view, book, Start([step]), at, 10);
    assert NoGroupedNull([step], parallelism);
    ParallelRefinesSequential(exec, [step], parallelism);
    assert Lists(view.read, []) + Pages(book, at, 11) == Pages(book, at, 11);
  }

  // ----- a tool that serves a book

  /** A call of a tool without the argument that says which page is meant. */
  datatype Query = Query(tool: string, source: string, key: string, rest: map<string, Value>)

  function PlaceIn(fields: map<string, Value>, key: string): Place {
    if key in fields then At(fields[key]) else Absent
  }

  function AskedFor(q: Query, step: PlanStep): Option<Place> {
    if step.name == q.tool && step.source == q.source && step.args.ObjectArgs?
       && step.args.fields - {q.key} == q.rest
    then Some(PlaceIn(step.args.fields, q.key)) else None
  }

  /** What the tool answers, if that is a JSON object. */
  function ResultOf(env: Env, q: Query, fields: map<string, Value>): Option<map<string, Value>> {
    var reply := if ToLower(q.source) == "local" then env.local(q.tool, ObjectArgs(fields))
                 else env.upstream(q.tool, ObjectArgs(fields));
    if reply.HandlerError? || reply.isError || reply.content == [] then None
    else
      var parsed := env.parse(reply.content[0]);
      if parsed.Some? && parsed.value.Obj? then Some(parsed.value.fields) else None
  }

  /** What a result must hold to lead to the next page, or to none. */
  predicate Leads(q: Query, result: map<string, Value>, next: Option<Value>) {
    match next
    case None => forall kind :: !Offers(kind, q.tool, result)
    case Some(v) => exists kind :: IsFirst(kind, q.tool, result) && Mark(kind, q.tool, result) == (q.key, v)
  }

  predicate Shows(q: Query, read: Value -> seq<Value>, result: map<string, Value>, leaf: Leaf) {
    read(Obj(result)) == leaf.items && Leads(q, result, leaf.next)
  }

  predicate Replies(env: Env, q: Query, read: Value -> seq<Value>, book: Book, fields: map<string, Value>) {
    var leaf := book(PlaceIn(fields, q.key));
    leaf.Some? ==> ResultOf(env, q, fields).Some? && Shows(q, read, ResultOf(env, q, fields).value, leaf.value)
  }

  /** The tool may run, its results are neither shaped nor stored away, and it serves the book. */
  ghost predicate ListEnv(env: Env, q: Query, read: Value -> seq<Value>, book: Book) {
    && Plain(env, q)
    && forall fields: map<string, Value> :: fields - {q.key} == q.rest ==> Replies(env, q, read, book, fields)
  }

  ghost predicate Plain(env: Env, q: Query) {
    && IsAllowed(env.policy, q.source, q.tool)
    && (forall v :: env.shape(q.tool, v) == Shaped(v, v))
    && (forall a, v :: env.store(q.tool, a, v) == Inline)
  }

  lemma ListExecution(env: Env, q: Query, step: PlanStep, at: Place, result: map<string, Value>)
    requires Plain(env, q) && AskedFor(q, step) == Some(at) && ResultOf(env, q, step.args.fields) == Some(result)
    ensures var x := ExecOne(env, step);
            x.err == None && x.st.ok && x.st.result == Obj(result) && x.resultMap == Some(result)
  {
    assert ToLower("local") == "local";
    assert env.shape(step.name, Obj(result)) == Shaped(Obj(result), Obj(result));
    assert env.store(step.name, step.args, Obj(result)) == Inline;
  }

  lemma PageFollows(q: Query, step: PlanStep, at: Place, result: map<string, Value>, next: Option<Value>)
    requires AskedFor(q, step) == Some(at) && Leads(q, result, next)
    ensures var page := CreateContinuation(step, result);
            match next
            case None => page == NoPage
            case Some(v) => page.NextPage? && AskedFor(q, page.step) == Some(At(v))
  {
    match next {
      case None => NothingIsFollowed(step, result);
      case Some(v) =>
        var kind :| IsFirst(kind, q.tool, result) && Mark(kind, q.tool, result) == (q.key, v);
        FirstIsFollowed(step, result, kind);
        var page := CreateContinuation(step, result);
        assert page.step.args.fields - {q.key} == step.args.fields - {q.key};
    }
  }

  function ViewOf(q: Query, read: Value -> seq<Value>): View {
    View(step => AskedFor(q, step), read)
  }

  lemma ListEnvServes(env: Env, q: Query, read: Value -> seq<Value>, book: Book)
    requires ListEnv(env, q, read, book)
    ensures Serves(Executes(env), ViewOf(q, read), book)
  {
    var view := ViewOf(q, read);
    forall step, at | view.asks(step) == Some(at) ensures ServesAt(Executes(env), view, book, step, at) {
      if book(at).Some? {
        assert Replies(env, q, read, book, step.args.fields);
        var result := ResultOf(env, q, step.args.fields).value;
        ListExecution(env, q, step, at, result);
        PageFollows(q, step, at, result, book(at).value.next);
      }
    }
  }

  /** A one-step plan delivers, at any parallelism, the pages from the asked place on in their order, up
      to eleven, one in each record. */
  lemma PagesAreDelivered(env: Env, q: Query, read: Value -> seq<Value>, book: Book, step: PlanStep, at: Place,
                          parallelism: int)
    requires ListEnv(env, q, read, book) && Bound(book) && AskedFor(q, step) == Some(at) && book(at).Some?
    ensures var end := Run(Executes(env), [step], parallelism);
            end.Completed? && Lists(read, end.s.out) == Pages(book, at, 11)
  {
    ListEnvServes(env, q, read, book);
    ExecutorPaginates(env);
    ExecutorPanicsOnNull(env);
    PagesOfRun(Executes(env), ViewOf(q, read), book, step, at, parallelism);
  }

  // ----- lists in pages of m items

  /** The integers up to here are read back exactly, as JSON numbers are decoded to floats. */
  const EXACT := 0x20_0000_0000_0000

  function Min(a: nat, b: nat): nat {
    if a <= b then a else b
  }

  function Slice(all: seq<Value>, from: nat, to: nat): seq<Value>
    requires from <= to
  {
    all[Min(from, |all|)..Min(to, |all|)]
  }

  function Flat(lists: seq<seq<Value>>): seq<Value> {
    if lists == [] then [] else lists[0] + Flat(lists[1..])
  }

  /** The page that begins at item o, with the next one m items further on. */
  predicate LeafAt(leaf: Leaf, begins: Place -> Option<nat>, all: seq<Value>, m: nat, o: nat) {
    && leaf.items == Slice(all, o, o + m)
    && (leaf.next.Some? <==> o + m < |all|)
    && (leaf.next.Some? ==> begins(At(leaf.next.value)) == Some(o + m))
  }

  predicate HasLeafAt(book: Book, begins: Place -> Option<nat>, all: seq<Value>, m: nat, at: Place) {
    begins(at).Some? ==> book(at).Some? && LeafAt(book(at).value, begins, all, m, begins(at).value)
  }

  ghost predicate BookOf(book: Book, begins: Place -> Option<nat>, all: seq<Value>, m: nat) {
    forall at :: (book(at).Some? <==> begins(at).Some?) && HasLeafAt(book, begins, all, m, at)
  }

  lemma BookIsBound(book: Book, begins: Place -> Option<nat>, all: seq<Value>, m: nat)
    requires BookOf(book, begins, all, m)
    ensures Bound(book)
  {
    forall at | book(at).Some? ensures LeadsOn(book, book(at).value) {
      assert HasLeafAt(book, begins, all, m, at);
    }
  }

  lemma SlicesJoin(all: seq<Value>, a: nat, b: nat, c: nat, first: seq<Value>, rest: seq<Value>)
    requires a <= b <= c && first == Slice(all, a, b)
    requires rest == if b < |all| then Slice(all, b, c) else []
    ensures first + rest == Slice(all, a, c)
  {
  }

  /** Where n pages from item o on end. */
  function Reach(o: nat, m: nat, n: nat): (to: nat)
    ensures o <= to
    decreases n
  {
    if n == 0 then o else Reach(o + m, m, n - 1)
  }

  lemma {:induction false} ReachIs(o: nat, m: nat, n: nat)
    ensures Reach(o, m, n) == o + n * m
    decreases n
  {
    if n > 0 {
      ReachIs(o + m, m, n - 1);
      assert n * m == m + (n - 1) * m;
    }
  }

  lemma FlatFirst(items: seq<Value>, lists: seq<seq<Value>>)
    ensures Flat([items] + lists) == items + Flat(lists)
  {
    assert ([items] + lists)[1..] == lists;
  }

  /** The pages after the first. */
  function Rest(book: Book, leaf: Leaf, n: nat): seq<seq<Value>> {
    if leaf.next.Some? then Pages(book, At(leaf.next.value), n) else []
  }

  lemma PagesFirst(book: Book, at: Place, leaf: Leaf, n: nat)
    requires book(at) == Some(leaf) && n > 0
    ensures Flat(Pages(book, at, n)) == leaf.items + Flat(Rest(book, leaf, n - 1))
  {
    FlatFirst(leaf.items, Rest(book, leaf, n - 1));
  }

  lemma {:induction false} PagesJoin(book: Book, begins: Place -> Option<nat>, all: seq<Value>, m: nat, at: Place,
                                     o: nat, n: nat)
    requires BookOf(book, begins, all, m) && begins(at) == Some(o)
    ensures Flat(Pages(book, at, n)) == Slice(all, o, Reach(o, m, n))
    decreases n, 0
  {
    if n > 0 {
      assert HasLeafAt(book, begins, all, m, at);
      PagesFirst(book, at, book(at).value, n);
      RestJoins(book, begins, all, m, book(at).value, o, n - 1);
      SlicesJoin(all, o, o + m, Reach(o, m, n), book(at).value.items, Flat(Rest(book, book(at).value, n - 1)));
    }
  }

  lemma {:induction false} RestJoins(book: Book, begins: Place -> Option<nat>, all: seq<Value>, m: nat, leaf: Leaf,
                                     o: nat, n: nat)
    requires BookOf(book, begins, all, m) && LeafAt(leaf, begins, all, m, o)
    ensures Flat(Rest(book, leaf, n)) == if o + m < |all| then Slice(all, o + m, Reach(o + m, m, n)) else []
    decreases n, 1
  {
    if leaf.next.Some? { PagesJoin(book, begins, all, m, At(leaf.next.value), o + m, n); }
  }

  lemma BookIsDelivered(env: Env, q: Query, read: Value -> seq<Value>, book: Book, begins: Place -> Option<nat>,
                        all: seq<Value>, m: nat, step: PlanStep, at: Place, o: nat, parallelism: int)
    requires ListEnv(env, q, read, book) && BookOf(book, begins, all, m)
    requires AskedFor(q, step) == Some(at) && begins(at) == Some(o)
    ensures var end := Run(Executes(env), [step], parallelism);
            end.Completed? && Flat(Lists(read, end.s.out)) == Slice(all, o, o + 11 * m)
  {
    BookIsBound(book, begins, all, m);
    assert HasLeafAt(book, begins, all, m, at);
    PagesAreDelivered(env, q, read, book, step, at, parallelism);
    PagesJoin(book, begins, all, m, at, o, 11);
    ReachIs(o, m, 11);
  }

  /** The book of a list whose page from item o on is asked for by mark(o). */
  function ListBook(begins: Place -> Option<nat>, mark: nat -> Value, all: seq<Value>, m: nat): Book {
    (at: Place) =>
      var o := begins(at);
      if o.None? then None
      else Some(Leaf(Slice(all, o.value, o.value + m), if o.value + m < |all| then Some(mark(o.value + m)) else None))
  }

  ghost predicate MarksBegin(begins: Place -> Option<nat>, mark: nat -> Value, all: seq<Value>, m: nat) {
    forall at :: begins(at).Some? && begins(at).value + m < |all| ==>
                   begins(At(mark(begins(at).value + m))) == Some(begins(at).value + m)
  }

  lemma ListBookIs(begins: Place -> Option<nat>, mark: nat -> Value, all: seq<Value>, m: nat)
    requires MarksBegin(begins, mark, all, m)
    ensures BookOf(ListBook(begins, mark, all, m), begins, all, m)
  {
    forall at ensures HasLeafAt(ListBook(begins, mark, all, m), begins, all, m, at) {
    }
  }

  lemma ListIsDelivered(env: Env, q: Query, read: Value -> seq<Value>, begins: Place -> Option<nat>,
                        mark: nat -> Value, all: seq<Value>, m: nat, step: PlanStep, o: nat, parallelism: int)
    requires ListEnv(env, q, read, ListBook(begins, mark, all, m)) && MarksBegin(begins, mark, all, m)
    requires AskedFor(q, step).Some? && begins(AskedFor(q, step).value) == Some(o)
    ensures var end := Run(Executes(env), [step], parallelism);
            end.Completed? && Flat(Lists(read, end.s.out)) == Slice(all, o, o + 11 * m)
  {
    ListBookIs(begins, mark, all, m);
    var book := ListBook(begins, mark, all, m);
    BookIsDelivered(env, q, read, book, begins, all, m, step, AskedFor(q, step).value, o, parallelism);
  }

  // ----- Jira's lists: a page says where it begins, how many items a page has and how many there are

  predicate JiraQuery(q: Query) {
    q.tool in {"jira_search_issues", "jira_get_issue_comments", "jira_list_projects"} && q.key == "startAt"
  }

  /** An absent argument and null both mean the first item. */
  function JiraBegins(at: Place): Option<nat> {
    match at
    case Absent => Some(0)
    case At(Null) => Some(0)
    case At(Num(r)) => if 0 <= r.Floor <= EXACT && r == r.Floor as real then Some(r.Floor) else None
    case At(_) => None
  }

  predicate JiraReply(result: map<string, Value>, read: Value -> seq<Value>, all: seq<Value>, m: nat, o: nat) {
    && "startAt" in result && result["startAt"] == Num(o as real)
    && "maxResults" in result && result["maxResults"] == Num(m as real)
    && "total" in result && result["total"] == Num(|all| as real)
    && ("has_next" in result ==> result["has_next"] != Bool(true))
    && read(Obj(result)) == Slice(all, o, o + m)
  }

  predicate JiraAnswers(env: Env, q: Query, read: Value -> seq<Value>, all: seq<Value>, m: nat,
                        fields: map<string, Value>) {
    var o, result := JiraBegins(PlaceIn(fields, q.key)), ResultOf(env, q, fields);
    o.Some? ==> result.Some? && JiraReply(result.value, read, all, m, o.value)
  }

  /** Whatever the other arguments of the query, every page of the list can be asked for. */
  ghost predicate JiraEnv(env: Env, q: Query, read: Value -> seq<Value>, all: seq<Value>, m: nat) {
    && Plain(env, q) && JiraQuery(q) && |all| <= EXACT
    && forall fields: map<string, Value> :: fields - {q.key} == q.rest ==> JiraAnswers(env, q, read, all, m, fields)
  }

  function ItemMark(o: nat): Value {
    Num(o as real)
  }

  lemma JiraLeads(q: Query, result: map<string, Value>, read: Value -> seq<Value>, all: seq<Value>, m: nat, o: nat)
    requires JiraQuery(q) && JiraReply(result, read, all, m, o)
    ensures Leads(q, result, if o + m < |all| then Some(ItemMark(o + m)) else None)
  {
    ToIntOfInt(o);
    ToIntOfInt(m);
    ToIntOfInt(|all|);
    if o + m < |all| {
      assert IsFirst(ByTotal, q.tool, result) && Mark(ByTotal, q.tool, result) == (q.key, ItemMark(o + m));
    }
  }

  lemma JiraReplies(env: Env, q: Query, read: Value -> seq<Value>, all: seq<Value>, m: nat, fields: map<string, Value>)
    requires JiraQuery(q) && JiraAnswers(env, q, read, all, m, fields)
    ensures Replies(env, q, read, ListBook(JiraBegins, ItemMark, all, m), fields)
  {
    var o := JiraBegins(PlaceIn(fields, q.key));
    if o.Some? { JiraLeads(q, ResultOf(env, q, fields).value, read, all, m, o.value); }
  }

  lemma JiraServes(env: Env, q: Query, read: Value -> seq<Value>, all: seq<Value>, m: nat, book: Book)
    requires JiraEnv(env, q, read, all, m) && book == ListBook(JiraBegins, ItemMark, all, m)
    ensures ListEnv(env, q, read, book)
  {
    forall fields: map<string, Value> | fields - {q.key} == q.rest ensures Replies(env, q, read, book, fields) {
      JiraReplies(env, q, read, all, m, fields);
    }
  }

  lemma JiraMarksBegin(all: seq<Value>, m: nat)
    requires |all| <= EXACT
    ensures MarksBegin(JiraBegins, ItemMark, all, m)
  {
  }

  /** A one-step plan for a Jira list delivers, at any parallelism, the items from the asked place on,
      each once and in order, cut off after eleven pages. */
  lemma JiraListIsDelivered(env: Env, q: Query, read: Value -> seq<Value>, all: seq<Value>, m: nat, step: PlanStep,
                            o: nat, parallelism: int)
    requires JiraEnv(env, q, read, all, m)
    requires AskedFor(q, step).Some? && JiraBegins(AskedFor(q, step).value) == Some(o)
    ensures var end := Run(Executes(env), [step], parallelism);
            end.Completed? && Flat(Lists(read, end.s.out)) == Slice(all, o, o + 11 * m)
  {
    var begins, mark := JiraBegins, ItemMark;
    JiraServes(env, q, read, all, m, ListBook(begins, mark, all, m));
    JiraMarksBegin(all, m);
    ListIsDelivered(env, q, read, begins, mark, all, m, step, o, parallelism);
  }

  // ----- lists whose pages name the next one

  predicate MarkQuery(q: Query, kind: Kind) {
    match kind
    case ByPage => q.tool in {"list_pull_request_files", "list_pull_request_commits"} && q.key == "page"
    case ByCursor => q.key == "cursor" && NoOwnKind(q.tool)
    case ByStart => q.key == "start" && NoOwnKind(q.tool)
    case _ => false
  }

  predicate NoOwnKind(tool: string) {
    tool !in {"jira_search_issues", "jira_get_issue_comments", "jira_list_projects", "get_pull_request_diff",
              "list_pull_request_files", "list_pull_request_commits"}
  }

  predicate Names(result: map<string, Value>, kind: Kind, v: Value) {
    match kind
    case ByPage => "next_page" in result && result["next_page"] == v && v.Num? && v.n == v.n.Floor as real
    case ByCursor => "next_cursor" in result && result["next_cursor"] == v && v.Str? && TrimSpace(v.s) != ""
    case ByStart =>
      && "next_start" in result && result["next_start"] == v && v.Num? && v.n == v.n.Floor as real
      && ("next_cursor" in result ==> result["next_cursor"] == Null)
    case _ => false
  }

  predicate MarkReply(result: map<string, Value>, kind: Kind, mark: nat -> Value, read: Value -> seq<Value>,
                      all: seq<Value>, m: nat, o: nat) {
    && "has_next" in result && result["has_next"] == Bool(o + m < |all|)
    && (o + m < |all| ==> Names(result, kind, mark(o + m)))
    && read(Obj(result)) == Slice(all, o, o + m)
  }

  predicate MarkAnswers(env: Env, q: Query, kind: Kind, begins: Place -> Option<nat>, mark: nat -> Value,
                        read: Value -> seq<Value>, all: seq<Value>, m: nat, fields: map<string, Value>) {
    var o, result := begins(PlaceIn(fields, q.key)), ResultOf(env, q, fields);
    o.Some? ==> result.Some? && MarkReply(result.value, kind, mark, read, all, m, o.value)
  }

  ghost predicate MarkEnv(env: Env, q: Query, kind: Kind, begins: Place -> Option<nat>, mark: nat -> Value,
                          read: Value -> seq<Value>, all: seq<Value>, m: nat) {
    && Plain(env, q) && MarkQuery(q, kind) && MarksBegin(begins, mark, all, m)
    && forall fields: map<string, Value> :: fields - {q.key} == q.rest ==>
         MarkAnswers(env, q, kind, begins, mark, read, all, m, fields)
  }

  lemma MarkLeads(q: Query, result: map<string, Value>, kind: Kind, mark: nat -> Value, read: Value -> seq<Value>,
                  all: seq<Value>, m: nat, o: nat)
    requires MarkQuery(q, kind) && MarkReply(result, kind, mark, read, all, m, o)
    ensures Leads(q, result, if o + m < |all| then Some(mark(o + m)) else None)
  {
    if o + m < |all| {
      var v := mark(o + m);
      if v.Num? { ToIntOfInt(v.n.Floor); }
      assert IsFirst(kind, q.tool, result) && Mark(kind, q.tool, result) == (q.key, v);
    }
  }

  lemma MarkReplies(env: Env, q: Query, kind: Kind, begins: Place -> Option<nat>, mark: nat -> Value,
                    read: Value -> seq<Value>, all: seq<Value>, m: nat, fields: map<string, Value>)
    requires MarkQuery(q, kind) && MarkAnswers(env, q, kind, begins, mark, read, all, m, fields)
    ensures Replies(env, q, read, ListBook(begins, mark, all, m), fields)
  {
    var o := begins(PlaceIn(fields, q.key));
    if o.Some? { MarkLeads(q, ResultOf(env, q, fields).value, kind, mark, read, all, m, o.value); }
  }

  /** The same for the pages of a pull request, and for any other tool whose results name the next page
      by a cursor or by its first item. */
  lemma MarkedListIsDelivered(env: Env, q: Query, kind: Kind, begins: Place -> Option<nat>, mark: nat -> Value,
                              read: Value -> seq<Value>, all: seq<Value>, m: nat, step: PlanStep, o: nat,
                              parallelism: int)
    requires MarkEnv(env, q, kind, begins, mark, read, all, m)
    requires AskedFor(q, step).Some? && begins(AskedFor(q, step).value) == Some(o)
    ensures var end := Run(Executes(env), [step], parallelism);
            end.Completed? && Flat(Lists(read, end.s.out)) == Slice(all, o, o + 11 * m)
  {
    var book := ListBook(begins, mark, all, m);
    forall fields: map<string, Value> | fields - {q.key} == q.rest ensures Replies(env, q, read, book, fields) {
      MarkReplies(env, q, kind, begins, mark, read, all, m, fields);
    }
    ListIsDelivered(env, q, read, begins, mark, all, m, step, o, parallelism);
  }
}
