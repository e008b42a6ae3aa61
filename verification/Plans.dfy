/** The tool policy and the check every plan passes before it runs. */
module Plans {
  import opened Text
  import opened Json

  datatype Policy = Policy(allowLocal: set<string>, allowUpstream: set<string>)

  const DENIED: seq<string> := [
    "create_", "update_", "merge_", "delete_", "push_", "write",
    "create-or-update", "remove", "mutate", "approve", "request_changes"]

  predicate IsMutatingName(nameLower: string) {
    exists i :: 0 <= i < |DENIED| && Contains(nameLower, DENIED[i])
  }

  predicate IsAllowed(p: Policy, source: string, toolName: string) {
    var nameLower := ToLower(TrimSpace(toolName));
    var src := ToLower(TrimSpace(source));
    && nameLower != ""
    && !IsMutatingName(nameLower)
    && (if src == "local" then toolName in p.allowLocal
        else if src == "upstream" then toolName in p.allowUpstream
        else false)
  }

  /** The name reads as a change: it holds one of these words. */
  ghost predicate NamesChange(name: string) {
    exists before: string, word, after: string ::
      && word in {"create_", "update_", "merge_", "delete_", "push_", "write", "create-or-update", "remove", "mutate",
                  "approve", "request_changes"}
      && name == before + word + after
  }

  lemma MutatingIff(name: string)
    ensures IsMutatingName(name) <==> NamesChange(name)
  {
    if IsMutatingName(name) {
      var i :| 0 <= i < |DENIED| && Contains(name, DENIED[i]);
      ContainsIff(name, DENIED[i]);
      var before: string, after: string :| name == before + DENIED[i] + after;
    }
    if NamesChange(name) {
      var before: string, word, after: string :|
        && word in {"create_", "update_", "merge_", "delete_", "push_", "write", "create-or-update", "remove", "mutate",
                    "approve", "request_changes"}
        && name == before + word + after;
      ContainsIff(name, word);
      assert word in DENIED;
    }
  }

  /** A tool may run exactly if its name does not read as a change, in either case of letters and
      whatever white space surrounds it, and it is on the list of its source as it stands. */
  lemma AllowedIff(p: Policy, source: string, toolName: string)
    ensures IsAllowed(p, source, toolName) <==>
              && TrimSpace(toolName) != "" && !NamesChange(ToLower(TrimSpace(toolName)))
              && var src := ToLower(TrimSpace(source));
                 (src == "local" && toolName in p.allowLocal) || (src == "upstream" && toolName in p.allowUpstream)
  {
    MutatingIff(ToLower(TrimSpace(toolName)));
  }

  /** What json.Unmarshal into a map makes of a step's raw arguments. The literal `null` decodes
      without an error to a nil map. */
  datatype Args = Malformed(text: string) | NullArgs | ObjectArgs(fields: map<string, Value>)

  datatype PlanStep = PlanStep(
    name: string, source: string, args: Args, reason: string, parallelGroup: string)

  datatype CatalogItem = CatalogItem(name: string, schema: string)

  /** The schema a name is validated against: the last catalogue item of that name. */
  function SchemaOf(catalog: seq<CatalogItem>, name: string): Option<string> {
    if catalog == [] then None
    else if catalog[|catalog| - 1].name == name then Some(catalog[|catalog| - 1].schema)
    else SchemaOf(catalog[..|catalog| - 1], name)
  }

  /** What a valid step is, with JSON Schema validation left abstract. */
  predicate StepOk(p: Policy, catalog: seq<CatalogItem>, conforms: (string, string, Args) -> bool, s: PlanStep) {
    && s.name != "" && s.name != "query" && s.name != "router"
    && s.source in {"local", "upstream"}
    && SchemaOf(catalog, s.name).Some?
    && IsAllowed(p, s.source, s.name)
    && !s.args.Malformed?
    && conforms(s.name, SchemaOf(catalog, s.name).value, s.args)
  }

  /** The last item of the catalogue that has this name. */
  predicate LastOf(catalog: seq<CatalogItem>, name: string, j: nat) {
    && j < |catalog| && catalog[j].name == name
    && forall k :: j < k < |catalog| ==> catalog[k].name != name
  }

  lemma {:induction false} SchemaIsLast(catalog: seq<CatalogItem>, name: string)
    ensures SchemaOf(catalog, name).None? <==> forall k :: 0 <= k < |catalog| ==> catalog[k].name != name
    ensures SchemaOf(catalog, name).Some? ==>
              exists j: nat :: LastOf(catalog, name, j) && SchemaOf(catalog, name).value == catalog[j].schema
  {
    if catalog != [] {
      var n := |catalog| - 1;
      if catalog[n].name == name {
        assert LastOf(catalog, name, n);
      } else {
        SchemaIsLast(catalog[..n], name);
        if SchemaOf(catalog, name).Some? {
          var j: nat :| LastOf(catalog[..n], name, j) && SchemaOf(catalog, name).value == catalog[..n][j].schema;
          assert LastOf(catalog, name, j);
        }
      }
    }
  }

  /** What validation asks of a step, against the policy and the last catalogue item of its name. */
  lemma StepOkIff(p: Policy, catalog: seq<CatalogItem>, conforms: (string, string, Args) -> bool, s: PlanStep)
    ensures StepOk(p, catalog, conforms, s) <==>
              && s.name !in {"", "query", "router"} && TrimSpace(s.name) != ""
              && !NamesChange(ToLower(TrimSpace(s.name)))
              && (|| (s.source == "local" && s.name in p.allowLocal)
                  || (s.source == "upstream" && s.name in p.allowUpstream))
              && !s.args.Malformed?
              && exists j: nat :: LastOf(catalog, s.name, j) && conforms(s.name, catalog[j].schema, s.args)
  {
    AllowedIff(p, s.source, s.name);
    SourceIs(s.source);
    SchemaIsLast(catalog, s.name);
    forall i: nat, j: nat | LastOf(catalog, s.name, i) && LastOf(catalog, s.name, j) ensures i == j {
    }
  }

  lemma SourceIs(source: string)
    ensures source == "local" || source == "upstream" ==> ToLower(TrimSpace(source)) == source
  {
    assert ToLower("local") == "local" && ToLower("upstream") == "upstream";
    TrimSpaceOfTrimmed("local");
    TrimSpaceOfTrimmed("upstream");
  }

  datatype PlanError =
    | NoSteps | TooManySteps
    | NameRequired | Reserved(name: string) | BadSource(source: string) | UnknownTool(name: string)
    | Blocked(name: string) | ArgsNotObject(name: string) | SchemaMismatch(name: string)

  /** What each error says about the step it is reported for. */
  predicate Explains(p: Policy, catalog: seq<CatalogItem>, conforms: (string, string, Args) -> bool,
                     s: PlanStep, e: PlanError) {
    match e
    case NoSteps => false
    case TooManySteps => false
    case NameRequired => s.name == ""
    case Reserved(n) => n == s.name && n in {"query", "router"}
    case BadSource(src) => src == s.source && src !in {"local", "upstream"}
    case UnknownTool(n) => n == s.name && SchemaOf(catalog, n).None?
    case Blocked(n) => n == s.name && !IsAllowed(p, s.source, n)
    case ArgsNotObject(n) => n == s.name && s.args.Malformed?
    case SchemaMismatch(n) =>
      n == s.name && SchemaOf(catalog, n).Some? && !conforms(n, SchemaOf(catalog, n).value, s.args)
  }

  /** The place of the check that finds an error. */
  function Rank(e: PlanError): nat {
    match e
    case NoSteps => 0
    case TooManySteps => 1
    case NameRequired => 2
    case Reserved(_) => 3
    case BadSource(_) => 4
    case UnknownTool(_) => 5
    case Blocked(_) => 6
    case ArgsNotObject(_) => 7
    case SchemaMismatch(_) => 8
  }

  /** Of all that is wrong with the step, this is found first. */
  ghost predicate FirstOf(p: Policy, catalog: seq<CatalogItem>, conforms: (string, string, Args) -> bool, s: PlanStep,
                          e: PlanError) {
    && Explains(p, catalog, conforms, s, e)
    && forall f :: Explains(p, catalog, conforms, s, f) ==> Rank(e) <= Rank(f)
  }

  /** The error is about step k, the first that is not valid. */
  ghost predicate FirstFault(p: Policy, catalog: seq<CatalogItem>, conforms: (string, string, Args) -> bool,
                             steps: seq<PlanStep>, k: nat, e: PlanError) {
    && k < |steps| && FirstOf(p, catalog, conforms, steps[k], e)
    && !StepOk(p, catalog, conforms, steps[k])
    && forall j :: 0 <= j < k ==> StepOk(p, catalog, conforms, steps[j])
  }

  /** The index agrees with the catalogue. */
  ghost predicate Indexes(catalog: seq<CatalogItem>, known: set<string>, schemas: map<string, string>) {
    known == schemas.Keys && forall n :: SchemaOf(catalog, n) == if n in known then Some(schemas[n]) else None
  }

  /** The names the catalogue knows, each with the schema of its last item. */
  method IndexCatalog(catalog: seq<CatalogItem>) returns (known: set<string>, schemas: map<string, string>)
    ensures Indexes(catalog, known, schemas)
  {
    known, schemas := {}, map[];
    for i := 0 to |catalog|
      invariant Indexes(catalog[..i], known, schemas)
    {
      assert catalog[..i + 1][..i] == catalog[..i];
      known := known + {catalog[i].name};
      schemas := schemas[catalog[i].name := catalog[i].schema];
    }
    assert catalog[..|catalog|] == catalog;
  }

  method CheckStep(s: PlanStep, p: Policy, catalog: seq<CatalogItem>, known: set<string>, schemas: map<string, string>,
                   conforms: (string, string, Args) -> bool)
    returns (err: Option<PlanError>)
    requires Indexes(catalog, known, schemas)
    ensures err.None? <==> StepOk(p, catalog, conforms, s)
    ensures err.Some? ==> FirstOf(p, catalog, conforms, s, err.value)
  {
    if s.name == "" { return Some(NameRequired); }
    if s.name == "query" || s.name == "router" { return Some(Reserved(s.name)); }
    if s.source != "local" && s.source != "upstream" { return Some(BadSource(s.source)); }
    if s.name !in known { return Some(UnknownTool(s.name)); }
    if !IsAllowed(p, s.source, s.name) { return Some(Blocked(s.name)); }
    if s.args.Malformed? { return Some(ArgsNotObject(s.name)); }
    if !conforms(s.name, schemas[s.name], s.args) { return Some(SchemaMismatch(s.name)); }
    return None;
  }

  method CheckSteps(steps: seq<PlanStep>, p: Policy, catalog: seq<CatalogItem>, known: set<string>,
                    schemas: map<string, string>, conforms: (string, string, Args) -> bool)
    returns (err: Option<PlanError>)
    requires Indexes(catalog, known, schemas)
    ensures err.None? <==> forall k :: 0 <= k < |steps| ==> StepOk(p, catalog, conforms, steps[k])
    ensures err.Some? ==> exists k: nat :: FirstFault(p, catalog, conforms, steps, k, err.value)
  {
    for i := 0 to |steps|
      invariant forall j :: 0 <= j < i ==> StepOk(p, catalog, conforms, steps[j])
    {
      err := CheckStep(steps[i], p, catalog, known, schemas, conforms);
      if err.Some? {
        assert FirstFault(p, catalog, conforms, steps, i, err.value);
        return;
      }
    }
    return None;
  }

  /** ValidatePlan accepts exactly the non-empty plans within the step limit whose steps are all
      valid; otherwise it reports what is wrong with the first invalid step. */
  method ValidatePlan(steps: seq<PlanStep>, p: Policy, catalog: seq<CatalogItem>,
                      conforms: (string, string, Args) -> bool, maxSteps: int)
    returns (err: Option<PlanError>)
    ensures err.None? <==>
              0 < |steps| <= maxSteps && forall k :: 0 <= k < |steps| ==> StepOk(p, catalog, conforms, steps[k])
    ensures err == Some(NoSteps) <==> steps == []
    ensures err == Some(TooManySteps) <==> steps != [] && |steps| > maxSteps
    ensures err.Some? && 0 < |steps| <= maxSteps ==>
              exists k: nat :: FirstFault(p, catalog, conforms, steps, k, err.value)
  {
    if |steps| == 0 { return Some(NoSteps); }
    if |steps| > maxSteps { return Some(TooManySteps); }

    var known, schemas := IndexCatalog(catalog);
    err := CheckSteps(steps, p, catalog, known, schemas, conforms);
  }
}
