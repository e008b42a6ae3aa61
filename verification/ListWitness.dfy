/** Environments that serve lists as the paging theorems ask. */
module ListWitness {
  import opened Text
  import opened Json
  import opened Plans
  import opened Executor
  import opened ListPaging

  function Tally(n: nat): string {
    seq(n, _ => '1')
  }

  function Read(v: Value): seq<Value> {
    if v.Obj? && "items" in v.fields && v.fields["items"].Arr? then v.fields["items"].items else []
  }

  /** One local tool, which answers the place of a page by a text as long as the items before it. */
  function Server(q: Query, begins: Place -> Option<nat>, result: nat -> map<string, Value>): Env {
    Env(Policy({q.tool}, {}),
        (name: string, args: Args) =>
          if args.ObjectArgs? && begins(PlaceIn(args.fields, q.key)).Some? then
            Reply(false, [Tally(begins(PlaceIn(args.fields, q.key)).value)])
          else Reply(true, []),
        (name, args) => Reply(true, []),
        text => Some(Obj(result(|text|))),
        (name, v) => Shaped(v, v),
        (name, args, v) => Inline)
  }

  lemma ServerIsPlain(q: Query, begins: Place -> Option<nat>, result: nat -> map<string, Value>)
    requires q.source == "local" && IsAllowed(Policy({q.tool}, {}), q.source, q.tool)
    ensures Plain(Server(q, begins, result), q)
    ensures forall fields: map<string, Value> ::
              begins(PlaceIn(fields, q.key)).Some? ==>
                ResultOf(Server(q, begins, result), q, fields) == Some(result(begins(PlaceIn(fields, q.key)).value))
  {
    assert ToLower("local") == "local";
  }

  const JIRA := Query("jira_search_issues", "local", "startAt", map["jql" := Str("x")])
  const FILES := Query("list_pull_request_files", "local", "page", map["repo" := Str("o/r"), "number" := Num(1.0)])

  predicate LacksLetter(tool: string, fragment: string, letter: char) {
    letter in fragment && letter !in tool
  }

  /** The name is as it stands when trimmed and in lower case, and lacks a letter of every fragment. */
  lemma MayRun(tool: string, first: string, last: string)
    requires tool != "" && Trimmed(tool) && ToLower(tool) == tool && |first| == 6 && |last| == |DENIED| - 6
    requires forall i :: 0 <= i < 6 ==> LacksLetter(tool, DENIED[i], first[i])
    requires forall i :: 6 <= i < |DENIED| ==> LacksLetter(tool, DENIED[i], last[i - 6])
    ensures IsAllowed(Policy({tool}, {}), "local", tool)
  {
    TrimSpaceOfTrimmed(tool);
    TrimSpaceOfTrimmed("local");
    assert ToLower("local") == "local";
    forall i | 0 <= i < |DENIED| ensures !Contains(tool, DENIED[i]) {
      Lacks(tool, DENIED[i], if i < 6 then first[i] else last[i - 6]);
    }
  }

  lemma JiraLacksFirst(i: nat)
    requires i < 6
    ensures LacksLetter(JIRA.tool, DENIED[i], "tpmdpw"[i])
  {
  }

  lemma JiraLacksLast(i: nat)
    requires 6 <= i < |DENIED|
    ensures LacksLetter(JIRA.tool, DENIED[i], "tmmpq"[i - 6])
  {
  }

  lemma JiraMayRun()
    ensures IsAllowed(Policy({JIRA.tool}, {}), "local", JIRA.tool)
  {
    forall i: nat | i < 6 ensures LacksLetter(JIRA.tool, DENIED[i], "tpmdpw"[i]) { JiraLacksFirst(i); }
    forall i: nat | 6 <= i < |DENIED| ensures LacksLetter(JIRA.tool, DENIED[i], "tmmpq"[i - 6]) { JiraLacksLast(i); }
    MayRun(JIRA.tool, "tpmdpw", "tmmpq");
  }

  lemma FilesLackFirst(i: nat)
    requires i < 6
    ensures LacksLetter(FILES.tool, DENIED[i], "cdmdhw"[i])
  {
  }

  lemma FilesLackLast(i: nat)
    requires 6 <= i < |DENIED|
    ensures LacksLetter(FILES.tool, DENIED[i], "cmmac"[i - 6])
  {
  }

  lemma FilesMayRun()
    ensures IsAllowed(Policy({FILES.tool}, {}), "local", FILES.tool)
  {
    forall i: nat | i < 6 ensures LacksLetter(FILES.tool, DENIED[i], "cdmdhw"[i]) { FilesLackFirst(i); }
    forall i: nat | 6 <= i < |DENIED| ensures LacksLetter(FILES.tool, DENIED[i], "cmmac"[i - 6]) { FilesLackLast(i); }
    MayRun(FILES.tool, "cdmdhw", "cmmac");
  }

  function JiraResult(all: seq<Value>, m: nat): nat -> map<string, Value> {
    (o: nat) => map["startAt" := Num(o as real), "maxResults" := Num(m as real), "total" := Num(|all| as real),
                    "items" := Arr(Slice(all, o, o + m))]
  }

  lemma JiraResults(all: seq<Value>, m: nat, o: nat)
    ensures JiraReply(JiraResult(all, m)(o), Read, all, m, o)
  {
  }

  lemma JiraServer(q: Query, begins: Place -> Option<nat>, result: nat -> map<string, Value>, all: seq<Value>, m: nat)
    requires Plain(Server(q, begins, result), q) && q == JIRA && begins == JiraBegins && |all| <= EXACT
    requires forall fields: map<string, Value> ::
               begins(PlaceIn(fields, q.key)).Some? ==>
                 ResultOf(Server(q, begins, result), q, fields) == Some(result(begins(PlaceIn(fields, q.key)).value))
    requires forall o: nat :: JiraReply(result(o), Read, all, m, o)
    ensures JiraEnv(Server(q, begins, result), q, Read, all, m)
  {
  }

  /** Some environment serves the list, whatever it holds, in pages of m items. */
  lemma JiraEnvExists(all: seq<Value>, m: nat) returns (env: Env)
    requires |all| <= EXACT
    ensures JiraEnv(env, JIRA, Read, all, m)
  {
    var begins, result := JiraBegins, JiraResult(all, m);
    env := Server(JIRA, begins, result);
    JiraMayRun();
    ServerIsPlain(JIRA, begins, result);
    forall o: nat ensures JiraReply(result(o), Read, all, m, o) { JiraResults(all, m, o); }
    JiraServer(JIRA, begins, result, all, m);
  }

  function PageResult(all: seq<Value>, m: nat): nat -> map<string, Value> {
    (o: nat) => map["has_next" := Bool(o + m < |all|), "next_page" := Num((o + m) as real),
                    "items" := Arr(Slice(all, o, o + m))]
  }

  lemma PageResults(all: seq<Value>, m: nat, o: nat)
    ensures MarkReply(PageResult(all, m)(o), ByPage, ItemMark, Read, all, m, o)
  {
  }

  lemma PageServer(q: Query, begins: Place -> Option<nat>, mark: nat -> Value, result: nat -> map<string, Value>,
                   all: seq<Value>, m: nat)
    requires Plain(Server(q, begins, result), q) && q == FILES && MarksBegin(begins, mark, all, m)
    requires forall fields: map<string, Value> ::
               begins(PlaceIn(fields, q.key)).Some? ==>
                 ResultOf(Server(q, begins, result), q, fields) == Some(result(begins(PlaceIn(fields, q.key)).value))
    requires forall o: nat :: MarkReply(result(o), ByPage, mark, Read, all, m, o)
    ensures MarkEnv(Server(q, begins, result), q, ByPage, begins, mark, Read, all, m)
  {
  }

  lemma PageEnvExists(all: seq<Value>, m: nat) returns (env: Env)
    requires |all| <= EXACT
    ensures MarkEnv(env, FILES, ByPage, JiraBegins, ItemMark, Read, all, m)
  {
    var begins, mark, result := JiraBegins, ItemMark, PageResult(all, m);
    env := Server(FILES, begins, result);
    FilesMayRun();
    ServerIsPlain(FILES, begins, result);
    JiraMarksBegin(all, m);
    forall o: nat ensures MarkReply(result(o), ByPage, mark, Read, all, m, o) { PageResults(all, m, o); }
    PageServer(FILES, begins, mark, result, all, m);
  }
}
