/** The whole output-shaping pipeline and what survives it. */
module ShapingPipeline {
  import opened Text
  import opened Json
  import opened Paths
  import opened Shaping

  datatype Options = Options(
    view: string, includeFields: seq<string>, excludeFields: seq<string>,
    maxItems: int, maxDepth: int, redact: seq<string>)

  const ERROR_KEYS := ["ok", "status", "error", "errors", "message"]
  const METADATA := ["id", "uid", "key", "name", "title", "url", "html_url", "web_url", "number", "repo"]
  const SUMMARY := [
    "id", "uid", "key", "name", "title", "summary", "description",
    "url", "html_url", "web_url", "state", "status", "created", "updated"]
  const DASHBOARD_SUMMARY := [
    "meta.slug", "dashboard.uid", "dashboard.title", "dashboard.tags", "dashboard.time", "dashboard.templating.list"]
  const DASHBOARD_METADATA := ["dashboard.uid", "dashboard.title", "meta.slug"]

  function ErrorsOnly(v: Value): Value
    decreases v
  {
    match v
    case Obj(m) => Obj(map k | k in m && k in ERROR_KEYS :: m[k])
    case Arr(a) => Arr(seq(|a|, i requires 0 <= i < |a| => ErrorsOnly(a[i])))
    case _ => v
  }

  /** A preset that cannot be applied leaves the value as it is. */
  function Preset(v: Value, paths: seq<string>): Value {
    match Include(v, paths) case None => v case Some(out) => out
  }

  function View(toolName: string, v: Value, view: string): Value {
    var dashboard := ToLower(TrimSpace(toolName)) == "grafana_get_dashboard";
    if view == "errors_only" then ErrorsOnly(v)
    else if view == "metadata" then Preset(v, if dashboard then DASHBOARD_METADATA else METADATA)
    else if view == "summary" then Preset(v, if dashboard then DASHBOARD_SUMMARY else SUMMARY)
    else v
  }

  function RemoveAll(v: Value, paths: seq<string>): Option<Value>
    decreases |paths|
  {
    if paths == [] then Some(v)
    else
      match Parse(paths[0])
      case None => None
      case Some(path) => RemoveAll(Remove(v, path), paths[1..])
  }

  function RedactAll(v: Value, paths: seq<string>): Option<Value>
    decreases |paths|
  {
    if paths == [] then Some(v)
    else
      match Parse(paths[0])
      case None => None
      case Some(path) => RedactAll(Set(v, path, REDACTED), paths[1..])
  }

  function Selected(toolName: string, v: Value, opts: Options): Option<Value> {
    var viewed := View(toolName, v, ToLower(TrimSpace(opts.view)));
    if opts.includeFields == [] then Some(viewed) else Include(viewed, opts.includeFields)
  }

  function Truncated(v: Value, opts: Options): Value {
    TruncateItems(TruncateDepth(v, 0, opts.maxDepth), opts.maxItems)
  }

  function Then(v: Option<Value>, f: Value -> Option<Value>): Option<Value> {
    if v.None? then None else f(v.value)
  }

  /** The value that the truncations are given. */
  function Redacted(toolName: string, v: Value, opts: Options): Option<Value> {
    Then(Then(Selected(toolName, v, opts), u => RemoveAll(u, opts.excludeFields)), u => RedactAll(u, opts.redact))
  }

  function Shape(toolName: string, v: Value, opts: Options): Option<Value> {
    Then(Redacted(toolName, v, opts), u => Some(Truncated(u, opts)))
  }

  /** The pipeline; no options leave the value as it is. */
  method ApplyOutputShaping(toolName: string, v: Value, options: Option<Options>) returns (r: Option<Value>)
    ensures r == match options case None => Some(v) case Some(opts) => Shape(toolName, v, opts)
  {
    if options.None? { return Some(v); }
    var opts := options.value;
    var out := View(toolName, v, ToLower(TrimSpace(opts.view)));
    if |opts.includeFields| > 0 {
      var included := ApplyInclude(out, opts.includeFields);
      if included.None? { return None; }
      out := included.value;
    }
    var excluded := RemovePaths(out, opts.excludeFields);
    if excluded.None? { return None; }
    var redacted := RedactPaths(excluded.value, opts.redact);
    if redacted.None? { return None; }
    r := Some(Truncated(redacted.value, opts));
  }

  method RemovePaths(v: Value, paths: seq<string>) returns (r: Option<Value>)
    ensures r == RemoveAll(v, paths)
  {
    var out := v;
    for k := 0 to |paths|
      invariant RemoveAll(v, paths) == RemoveAll(out, paths[k..])
    {
      assert paths[k..][1..] == paths[k + 1..];
      var path := ParsePath(paths[k]);
      if path.None? { return None; }
      out := Remove(out, path.value);
    }
    r := Some(out);
  }

  method RedactPaths(v: Value, paths: seq<string>) returns (r: Option<Value>)
    ensures r == RedactAll(v, paths)
  {
    var out := v;
    for k := 0 to |paths|
      invariant RedactAll(v, paths) == RedactAll(out, paths[k..])
    {
      assert paths[k..][1..] == paths[k + 1..];
      var path := ParsePath(paths[k]);
      if path.None? { return None; }
      out := Set(out, path.value, REDACTED);
    }
    r := Some(out);
  }

  // ----- what survives

  lemma {:induction false} RedactAllKeepsHidden(v: Value, paths: seq<string>, p: Path)
    requires Hidden(v, p) && RedactAll(v, paths).Some?
    ensures Hidden(RedactAll(v, paths).value, p)
    decreases |paths|
  {
    if paths != [] {
      RedactKeepsHidden(v, Parse(paths[0]).value, p);
      RedactAllKeepsHidden(Set(v, Parse(paths[0]).value, REDACTED), paths[1..], p);
    }
  }

  lemma {:induction false} RedactAllHides(v: Value, paths: seq<string>, p: string)
    requires p in paths && RedactAll(v, paths).Some? && Parse(p) != Some([])
    ensures Parse(p).Some? && Hidden(RedactAll(v, paths).value, Parse(p).value)
    decreases |paths|
  {
    var path := Parse(paths[0]).value;
    if p == paths[0] {
      RedactHides(v, path);
      RedactAllKeepsHidden(Set(v, path, REDACTED), paths[1..], path);
    } else {
      RedactAllHides(Set(v, path, REDACTED), paths[1..], p);
    }
  }

  lemma TruncatedKeepsGone(v: Value, opts: Options, p: Path)
    ensures Hidden(v, p) ==> Hidden(Truncated(v, opts), p)
    ensures Gone(v, p) ==> Gone(Truncated(v, opts), p)
  {
    DepthCoarsens(v, 0, opts.maxDepth, p);
    ItemsCoarsen(TruncateDepth(v, 0, opts.maxDepth), opts.maxItems, p);
  }

  /** Whatever overlapping paths, views and truncations ran: when the pipeline succeeds, every redacted
      path with a segment reads as absent or as the redaction mark. */
  lemma RedactionSurvives(toolName: string, v: Value, opts: Options, p: string)
    requires p in opts.redact
    ensures match Shape(toolName, v, opts)
            case None => true
            case Some(out) => Parse(p) != Some([]) ==> Parse(p).Some? && Hidden(out, Parse(p).value)
  {
    if Shape(toolName, v, opts).Some? && Parse(p) != Some([]) {
      var kept := RemoveAll(Selected(toolName, v, opts).value, opts.excludeFields).value;
      RedactAllHides(kept, opts.redact, p);
      TruncatedKeepsGone(RedactAll(kept, opts.redact).value, opts, Parse(p).value);
    }
  }

  lemma {:induction false} RemoveAllKeepsGone(v: Value, paths: seq<string>, p: Path)
    requires Gone(v, p) && RemoveAll(v, paths).Some?
    ensures Gone(RemoveAll(v, paths).value, p)
    decreases |paths|
  {
    if paths != [] {
      var path := Parse(paths[0]).value;
      if path != [] { RemoveKeepsGone(v, path, p); }
      RemoveAllKeepsGone(Remove(v, path), paths[1..], p);
    }
  }

  lemma {:induction false} RemoveAllRemoves(v: Value, paths: seq<string>, p: string)
    requires p in paths && RemoveAll(v, paths).Some? && Parse(p) != Some([])
    ensures Parse(p).Some? && Gone(RemoveAll(v, paths).value, Parse(p).value)
    decreases |paths|
  {
    var path := Parse(paths[0]).value;
    if p == paths[0] {
      RemoveKeepsGone(v, path, path);
      RemoveAllKeepsGone(Remove(v, path), paths[1..], path);
    } else {
      RemoveAllRemoves(Remove(v, path), paths[1..], p);
    }
  }

  lemma {:induction false} RedactAllKeepsGone(v: Value, paths: seq<string>, p: Path)
    requires Gone(v, p) && RedactAll(v, paths).Some?
    ensures Gone(RedactAll(v, paths).value, p)
    decreases |paths|
  {
    if paths != [] {
      RedactKeepsGone(v, Parse(paths[0]).value, p);
      RedactAllKeepsGone(Set(v, Parse(paths[0]).value, REDACTED), paths[1..], p);
    }
  }

  /** An excluded path shows nothing of the tool's data in the end: absent, the redaction mark, or
      null for an array element. */
  lemma ExclusionSurvives(toolName: string, v: Value, opts: Options, p: string)
    requires p in opts.excludeFields
    ensures match Shape(toolName, v, opts)
            case None => true
            case Some(out) => Parse(p) != Some([]) ==> Parse(p).Some? && Gone(out, Parse(p).value)
  {
    if Shape(toolName, v, opts).Some? && Parse(p) != Some([]) {
      var selected := Selected(toolName, v, opts).value;
      var kept := RemoveAll(selected, opts.excludeFields).value;
      RemoveAllRemoves(selected, opts.excludeFields, p);
      RedactAllKeepsGone(kept, opts.redact, Parse(p).value);
      TruncatedKeepsGone(RedactAll(kept, opts.redact).value, opts, Parse(p).value);
    }
  }

  // ----- what truncation promises

  lemma {:induction false} NothingBelowDepth(v: Value, depth: nat, maxDepth: int, p: Path)
    requires 0 < maxDepth && |p| > maxDepth - depth && p != []
    ensures Get(TruncateDepth(v, depth, maxDepth), p) == None
    decreases |p|
  {
    if depth < maxDepth {
      match p[0] {
        case Index(i) => if v.Arr? && 0 <= i < |v.items| { NothingBelowDepth(v.items[i], depth + 1, maxDepth, p[1..]); }
        case Field(f) => if v.Obj? && f in v.fields { NothingBelowDepth(v.fields[f], depth + 1, maxDepth, p[1..]); }
      }
    }
  }

  lemma {:induction false} ArraysUnderObjectsAreCut(v: Value, maxItems: int, p: Path)
    requires 0 < maxItems && AllFields(p)
    ensures var r := Get(TruncateItems(v, maxItems), p); r.Some? && r.value.Arr? ==> |r.value.items| <= maxItems
    decreases |p|
  {
    if p != [] {
      assert p[0] in p && AllFields(p[1..]);
      if v.Obj? && p[0].name in v.fields { ArraysUnderObjectsAreCut(v.fields[p[0].name], maxItems, p[1..]); }
    }
  }

  /** The limits hold of the shaped value: nothing is nested deeper than the maximal depth, and every
      array reached through objects has at most the maximal number of items. */
  lemma LimitsHold(toolName: string, v: Value, opts: Options, p: Path)
    ensures match Shape(toolName, v, opts)
            case None => true
            case Some(out) =>
              && (0 < opts.maxDepth < |p| ==> Get(out, p) == None)
              && (0 < opts.maxItems && AllFields(p) && Get(out, p).Some? && Get(out, p).value.Arr? ==>
                    |Get(out, p).value.items| <= opts.maxItems)
  {
    if Shape(toolName, v, opts).None? { return; }
    var kept := RemoveAll(Selected(toolName, v, opts).value, opts.excludeFields).value;
    var redacted := RedactAll(kept, opts.redact).value;
    var cut := TruncateDepth(redacted, 0, opts.maxDepth);
    ItemsCoarsen(cut, opts.maxItems, p);
    if 0 < opts.maxDepth < |p| { NothingBelowDepth(redacted, 0, opts.maxDepth, p); }
    if 0 < opts.maxItems && AllFields(p) { ArraysUnderObjectsAreCut(cut, opts.maxItems, p); }
  }

  /** Every array in the value, at any depth, has at most max items. */
  predicate AllFit(v: Value, max: int)
    decreases v
  {
    match v
    case Arr(items) => |items| <= max && forall i :: 0 <= i < |items| ==> AllFit(items[i], max)
    case Obj(fields) => forall k :: k in fields ==> AllFit(fields[k], max)
    case _ => true
  }

  /** In every array that is reached through objects only, the first max items are values in which every
      array fits. */
  predicate ItemsFit(v: Value, max: int)
    decreases v
  {
    match v
    case Arr(items) => forall i :: 0 <= i < |items| && i < max ==> AllFit(items[i], max)
    case Obj(fields) => forall k :: k in fields ==> ItemsFit(fields[k], max)
    case _ => true
  }

  lemma {:induction false} CutFitsIff(v: Value, max: int)
    requires max > 0
    ensures AllFit(TruncateItems(v, max), max) <==> ItemsFit(v, max)
    decreases v
  {
    match v {
      case Obj(fields) =>
        forall k | k in fields ensures AllFit(TruncateItems(fields[k], max), max) <==> ItemsFit(fields[k], max) {
          CutFitsIff(fields[k], max);
        }
        var cut := TruncateItems(v, max);
        assert cut.fields.Keys == fields.Keys;
        assert forall k :: k in fields ==> cut.fields[k] == TruncateItems(fields[k], max);
      case Arr(items) =>
        if |items| > max {
          assert forall i :: 0 <= i < max ==> TruncateItems(v, max).items[i] == items[i];
        }
      case _ =>
    }
  }

  /** Exactly when the item limit holds of every array in the shaped value. */
  lemma ShapedFitsIff(toolName: string, v: Value, opts: Options)
    requires opts.maxItems > 0
    ensures match Shape(toolName, v, opts)
            case None => true
            case Some(out) =>
              AllFit(out, opts.maxItems) <==>
              ItemsFit(TruncateDepth(Redacted(toolName, v, opts).value, 0, opts.maxDepth), opts.maxItems)
  {
    if Shape(toolName, v, opts).Some? {
      CutFitsIff(TruncateDepth(Redacted(toolName, v, opts).value, 0, opts.maxDepth), opts.maxItems);
    }
  }

  /** [[null, null]] stays as it is under a limit of one item. */
  lemma NestedArrayEscapes(toolName: string)
    ensures var v, opts := Arr([Arr([Null, Null])]), Options("", [], [], 1, 0, []);
            Shape(toolName, v, opts) == Some(v) && !AllFit(v, 1)
  {
    var v := Arr([Arr([Null, Null])]);
    assert ToLower(TrimSpace("")) == "";
    assert !AllFit(v.items[0], 1);
  }
}
