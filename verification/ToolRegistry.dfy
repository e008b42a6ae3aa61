/** The versioned tool registry: two tables, an active flag, append-only versions, and a cache in
    front. Functions on the tables are the cache-free registry; the class is proved against them. */
module ToolRegistry {
  import opened Text
  import opened Json
  import opened ToolCaching

  // ----- definitions a caller may register

  predicate ValidNameChar(i: nat, c: char) {
    'a' <= c <= 'z' || '0' <= c <= '9' || c == '_' || (i == 0 && 'A' <= c <= 'Z')
  }

  const FORBIDDEN: seq<string> := ["create_", "update_", "delete_", "remove_", "destroy_"]

  predicate ValidTool(d: Definition) {
    && TrimSpace(d.name) != "" && TrimSpace(d.content.description) != ""
    && TrimSpace(d.content.language) != "" && TrimSpace(d.content.code) != ""
    && d.content.inputSchema != Null
    && d.name != "" && (forall i :: 0 <= i < |d.name| ==> ValidNameChar(i, d.name[i]))
    && forall i :: 0 <= i < |FORBIDDEN| ==> !HasPrefix(d.name, FORBIDDEN[i])
  }

  // ----- the tables

  datatype Row = Row(id: string, content: Content, version: int, status: string, createdAt: int, updatedAt: int)
  datatype VersionRow = VersionRow(content: Content, createdAt: int)

  type Versions = map<int, VersionRow>

  /** `tools` by its UNIQUE name; `tool_versions` by tool_id and then version, which are UNIQUE together. */
  datatype Tables = Tables(tools: map<string, Row>, versions: map<string, Versions>)

  datatype Error = Invalid | NotFound(name: string) | VersionNotFound(version: int) | Database
  datatype Result<T> = Ok(value: T) | Err(error: Error)

  function AsDefinition(name: string, r: Row): Definition {
    Definition(r.id, name, r.content, r.version, r.status, r.createdAt, r.updatedAt)
  }

  predicate Active(t: Tables, name: string) {
    name in t.tools && t.tools[name].status == "active"
  }

  /** What a registry without a cache answers. */
  function Lookup(t: Tables, name: string): Result<Definition> {
    if Active(t, name) then Ok(AsDefinition(name, t.tools[name])) else Err(NotFound(name))
  }

  function VersionsOf(t: Tables, id: string): Versions {
    if id in t.versions then t.versions[id] else map[]
  }

  predicate IdTaken(t: Tables, id: string) {
    exists n :: n in t.tools && t.tools[n].id == id
  }

  function Registered(d: Definition, newId: string, now: int): Definition {
    d.(id := if d.id == "" then newId else d.id, version := 1, status := "active", createdAt := now, updatedAt := now)
  }

  /** The INSERTs of one transaction, refused by a UNIQUE or PRIMARY KEY constraint. */
  function Insert(t: Tables, d: Definition): Option<Tables> {
    if d.name in t.tools || IdTaken(t, d.id) || d.version in VersionsOf(t, d.id) then None
    else Some(Tables(
                t.tools[d.name := Row(d.id, d.content, d.version, d.status, d.createdAt, d.updatedAt)],
                t.versions[d.id := VersionsOf(t, d.id)[d.version := VersionRow(d.content, d.createdAt)]]))
  }

  /** The UPDATE and INSERT of one transaction on an existing row. */
  function AddVersion(t: Tables, name: string, content: Content, now: int): Option<Tables>
    requires name in t.tools
  {
    var r := t.tools[name];
    var v := r.version + 1;
    if v in VersionsOf(t, r.id) then None
    else Some(Tables(
                t.tools[name := r.(content := content, version := v, updatedAt := now)],
                t.versions[r.id := VersionsOf(t, r.id)[v := VersionRow(content, now)]]))
  }

  function Disable(t: Tables, name: string, now: int): Tables {
    if name in t.tools then t.(tools := t.tools[name := t.tools[name].(status := "disabled", updatedAt := now)]) else t
  }

  function Restore(t: Tables, name: string, version: int, now: int): Result<Tables> {
    if name !in t.tools then Err(NotFound(name))
    else
      var r := t.tools[name];
      if version !in VersionsOf(t, r.id) then Err(VersionNotFound(version))
      else Ok(t.(tools := t.tools[name := r.(content := VersionsOf(t, r.id)[version].content, updatedAt := now)]))
  }

  function MaxOf(s: set<int>): (m: int)
    requires s != {}
    ensures m in s && forall x :: x in s ==> x <= m
  {
    assert exists m :: m in s && forall x :: x in s ==> x <= m by { var m := SomeMax(s); }
    var m :| m in s && forall x :: x in s ==> x <= m;
    m
  }

  lemma SomeMember<T>(s: set<T>) returns (x: T)
    requires s != {}
    ensures x in s
  {
    x :| x in s;
  }

  lemma {:induction false} SomeMax(s: set<int>) returns (m: int)
    requires s != {}
    ensures m in s && forall x :: x in s ==> x <= m
    decreases |s|
  {
    var x := SomeMember(s);
    m := x;
    var rest := s - {x};
    if rest != {} {
      var k := SomeMax(rest);
      if k > x { m := k; }
    }
    assert forall y :: y in s ==> y == x || y in rest;
  }

  function Descending(s: set<int>): seq<int> {
    if s == {} then [] else [MaxOf(s)] + Descending(s - {MaxOf(s)})
  }

  // ----- the registry

  /** How the calls to the database went. They succeed or change nothing, except that counting the
      affected rows may fail after the row of a deleted tool was changed. */
  datatype Db = Works | Fails | CountFails

  /** Every cached definition is the active row of its name. */
  ghost predicate Coherent(c: Entries, t: Tables) {
    forall n :: n in c ==> Active(t, n) && c[n].tool == AsDefinition(n, t.tools[n])
  }

  /** Storing a definition that equals its active row, while the other rows stay. */
  lemma StoreKeepsCoherent(c: Entries, t: Tables, name: string, e: Cached, c': Entries, t': Tables)
    requires Coherent(c, t) && Stores(c, name, e, c')
    requires Active(t', name) && e.tool == AsDefinition(name, t'.tools[name])
    requires forall n :: n in t.tools && n != name ==> n in t'.tools && t'.tools[n] == t.tools[n]
    ensures Coherent(c', t')
  {
    forall n | n in c' ensures Active(t', n) && c'[n].tool == AsDefinition(n, t'.tools[n]) {
      if n != name { assert n in c' - {name}; }
    }
  }

  /** Expiry, eviction and clean-up only drop entries, so they keep the agreement. */
  lemma LossKeepsCoherent(c: Entries, c': Entries, t: Tables)
    requires Coherent(c, t) && SubMap(c', c)
    ensures Coherent(c', t)
  {
  }

  class SQLiteRegistry {
    const cache: ToolCache
    var tools: map<string, Row>
    var versions: map<string, Versions>

    ghost function Contents(): Tables
      reads this
    {
      Tables(tools, versions)
    }

    ghost predicate Valid()
      reads this, cache
    {
      Coherent(cache.tools, Contents())
    }

    /** Opens a registry on existing tables and loads the active tools into the cache. */
    constructor (tables: Tables, cache: ToolCache, now: int)
      requires cache.tools == map[]
      modifies cache
      ensures Valid() && Contents() == tables && this.cache == cache
    {
      this.cache := cache;
      tools, versions := tables.tools, tables.versions;
      new;
      var left := tools.Keys;
      while left != {}
        invariant Coherent(cache.tools, tables) && Contents() == tables
        decreases left
      {
        var name :| name in left;
        left := left - {name};
        if tools[name].status == "active" {
          cache.Set(name, AsDefinition(name, tools[name]), now);
        }
      }
    }

    method Register(d: Definition, newId: string, now: int, db: bool) returns (r: Result<Definition>)
      requires Valid()
      modifies this, cache
      ensures Valid()
      ensures r == var row := Registered(d, newId, now);
                   if !ValidTool(d) then Err(Invalid)
                   else if !db || Insert(old(Contents()), row).None? then Err(Database)
                   else Ok(row)
      ensures Contents() == if r.Ok? then Insert(old(Contents()), r.value).value else old(Contents())
    {
      if !ValidTool(d) { return Err(Invalid); }
      var tool := Registered(d, newId, now);
      var after := Insert(Tables(tools, versions), tool);
      if !db || after.None? { return Err(Database); }
      ghost var t, c := Contents(), cache.tools;
      tools, versions := after.value.tools, after.value.versions;
      cache.Set(tool.name, tool, now);
      StoreKeepsCoherent(c, t, tool.name, Cached(tool, now + cache.ttl), cache.tools, Contents());
      r := Ok(tool);
    }

    method Get(name: string, now: int, db: bool) returns (r: Result<Definition>)
      requires Valid()
      modifies cache
      ensures Valid()
      ensures r == Lookup(Contents(), name) || (!db && r == Err(Database))
    {
      var hit := cache.Get(name, now);
      if hit.Some? { return Ok(hit.value); }
      if !db { return Err(Database); }
      r := Lookup(Tables(tools, versions), name);
      if r.Ok? { cache.Set(name, r.value, now); }
    }

    method Update(name: string, d: Definition, now: int, db: bool) returns (r: Result<int>)
      requires Valid()
      modifies this, cache
      ensures Valid()
      ensures r == if !db then Err(Database)
                   else if !Active(old(Contents()), name) then Err(NotFound(name))
                   else if !ValidTool(d) then Err(Invalid)
                   else if AddVersion(old(Contents()), name, d.content, now).None? then Err(Database)
                   else Ok(old(tools)[name].version + 1)
      ensures Contents() == if r.Ok? then AddVersion(old(Contents()), name, d.content, now).value else old(Contents())
    {
      if !db { return Err(Database); }
      var t := Tables(tools, versions);
      if !Active(t, name) { return Err(NotFound(name)); }
      if !ValidTool(d) { return Err(Invalid); }
      var after := AddVersion(t, name, d.content, now);
      if after.None? { return Err(Database); }
      tools, versions := after.value.tools, after.value.versions;
      cache.Delete(name);
      r := Ok(t.tools[name].version + 1);
    }

    /** The cache is not invalidated when counting the affected rows fails. */
    method Delete(name: string, now: int, db: Db) returns (r: Result<()>)
      requires Valid()
      modifies this, cache
      ensures Valid() <==> !(db == CountFails && name in old(cache.tools))
      ensures Contents() == if db == Fails then old(Contents()) else Disable(old(Contents()), name, now)
      ensures cache.tools == if r.Ok? then old(cache.tools) - {name} else old(cache.tools)
      ensures r == if db != Works then Err(Database)
                   else if name !in old(tools) then Err(NotFound(name)) else Ok(())
    {
      if db == Fails { return Err(Database); }
      var after := Disable(Tables(tools, versions), name, now);
      var rows := if name in tools then 1 else 0;
      tools, versions := after.tools, after.versions;
      if db == CountFails { return Err(Database); }
      if rows == 0 { return Err(NotFound(name)); }
      cache.Delete(name);
      r := Ok(());
    }

    method Rollback(name: string, version: int, now: int, db: bool) returns (r: Result<()>)
      requires Valid()
      modifies this, cache
      ensures Valid()
      ensures r == if !db then Err(Database)
                   else match Restore(old(Contents()), name, version, now) case Err(e) => Err(e) case Ok(_) => Ok(())
      ensures Contents() == if r.Ok? then Restore(old(Contents()), name, version, now).value else old(Contents())
    {
      if !db { return Err(Database); }
      var after := Restore(Tables(tools, versions), name, version, now);
      if after.Err? { return Err(after.error); }
      tools, versions := after.value.tools, after.value.versions;
      cache.Delete(name);
      r := Ok(());
    }

    /** Every stored version of a tool, the newest first. */
    method GetVersions(name: string, db: bool) returns (r: Result<seq<(int, VersionRow)>>)
      ensures r == if !db then Err(Database)
                   else if name !in tools then Err(NotFound(name))
                   else Ok(VersionList(VersionsOf(Contents(), tools[name].id)))
    {
      if !db { return Err(Database); }
      if name !in tools { return Err(NotFound(name)); }
      r := Ok(VersionList(VersionsOf(Tables(tools, versions), tools[name].id)));
    }
  }

  function VersionList(vs: Versions): seq<(int, VersionRow)> {
    RowsOf(vs, Descending(vs.Keys))
  }

  function RowsOf(vs: Versions, numbers: seq<int>): seq<(int, VersionRow)> {
    if numbers == [] then []
    else (if numbers[0] in vs then [(numbers[0], vs[numbers[0]])] else []) + RowsOf(vs, numbers[1..])
  }

  // ----- version history

  /** The stored versions of a tool are 1..n, n is the row's version, and the row's content is that of
      one of them. */
  ghost predicate RowHistory(r: Row, vs: Versions) {
    && r.version >= 1
    && (forall v :: v in vs <==> 1 <= v <= r.version)
    && exists v :: v in vs && vs[v].content == r.content
  }

  ghost predicate History(t: Tables) {
    && (forall m, n :: m in t.tools && n in t.tools && t.tools[m].id == t.tools[n].id ==> m == n)
    && (forall n :: n in t.tools ==> RowHistory(t.tools[n], VersionsOf(t, t.tools[n].id)))
    && forall id :: id in t.versions ==> IdTaken(t, id)
  }

  /** Stored versions never change, and a name keeps its id. */
  ghost predicate Extends(a: Tables, b: Tables) {
    && (forall id, v :: v in VersionsOf(a, id) ==>
          v in VersionsOf(b, id) && VersionsOf(b, id)[v] == VersionsOf(a, id)[v])
    && forall n :: n in a.tools ==> n in b.tools && b.tools[n].id == a.tools[n].id
  }

  lemma ExtendsTransitive(a: Tables, b: Tables, c: Tables)
    requires Extends(a, b) && Extends(b, c)
    ensures Extends(a, c)
  {
  }

  /** A new tool starts at version 1; the INSERT is refused exactly for a taken name or id. */
  lemma InsertStartsHistory(t: Tables, d: Definition)
    requires History(t) && d.version == 1
    ensures Insert(t, d).None? <==> d.name in t.tools || IdTaken(t, d.id)
    ensures Insert(t, d).Some? ==> History(Insert(t, d).value) && Extends(t, Insert(t, d).value)
  {
    assert d.id in t.versions ==> IdTaken(t, d.id);
    if d.name !in t.tools && !IdTaken(t, d.id) {
      var r := Row(d.id, d.content, d.version, d.status, d.createdAt, d.updatedAt);
      var vs: Versions := map[1 := VersionRow(d.content, d.createdAt)];
      assert VersionsOf(t, d.id)[1 := VersionRow(d.content, d.createdAt)] == vs;
      assert vs[1].content == r.content;
      AddKeepsHistory(t, d.name, r, vs);
    }
  }

  lemma AddKeepsHistory(t: Tables, name: string, r: Row, vs: Versions)
    requires History(t) && name !in t.tools && !IdTaken(t, r.id) && RowHistory(r, vs)
    ensures var b := Tables(t.tools[name := r], t.versions[r.id := vs]); History(b) && Extends(t, b)
  {
    var b := Tables(t.tools[name := r], t.versions[r.id := vs]);
    assert r.id !in t.versions;
    forall n | n in b.tools ensures RowHistory(b.tools[n], VersionsOf(b, b.tools[n].id)) {
      if n != name { assert t.tools[n].id != r.id; }
    }
    forall m, n | m in b.tools && n in b.tools && b.tools[m].id == b.tools[n].id ensures m == n {
      if m != name && n != name { assert t.tools[m].id == t.tools[n].id; }
    }
    assert b.tools[name].id == r.id;
    forall id | id in b.versions ensures IdTaken(b, id) {
      if id != r.id { TakenIn(t, b, id); }
    }
  }

  lemma TakenIn(t: Tables, b: Tables, id: string)
    requires IdTaken(t, id) && forall n :: n in t.tools ==> n in b.tools && b.tools[n].id == t.tools[n].id
    ensures IdTaken(b, id)
  {
    var n :| n in t.tools && t.tools[n].id == id;
    assert b.tools[n].id == id;
  }

  /** Replacing the row and the versions of one tool by a row and versions that fit keeps the history. */
  lemma ReplaceKeepsHistory(t: Tables, name: string, r: Row, vs: Versions)
    requires History(t) && name in t.tools && r.id == t.tools[name].id && RowHistory(r, vs)
    requires forall v :: v in VersionsOf(t, r.id) ==> v in vs && vs[v] == VersionsOf(t, r.id)[v]
    ensures var b := Tables(t.tools[name := r], t.versions[r.id := vs]); History(b) && Extends(t, b)
  {
    var b := Tables(t.tools[name := r], t.versions[r.id := vs]);
    forall n | n in b.tools ensures RowHistory(b.tools[n], VersionsOf(b, b.tools[n].id)) {
      if n != name { assert b.tools[n].id != r.id; }
    }
    assert b.tools[name].id == r.id;
    forall id | id in b.versions ensures IdTaken(b, id) {
      if id != r.id { TakenIn(t, b, id); }
    }
  }

  /** Replacing only the row of a tool, by one of the same id and version. */
  lemma RowKeepsHistory(t: Tables, name: string, r: Row)
    requires History(t) && name in t.tools && r.id == t.tools[name].id && RowHistory(r, VersionsOf(t, r.id))
    ensures var b := t.(tools := t.tools[name := r]); History(b) && Extends(t, b)
  {
    var vs := VersionsOf(t, r.id);
    assert 1 in vs;
    assert t.versions[r.id := vs] == t.versions;
    ReplaceKeepsHistory(t, name, r, vs);
  }

  /** Update after any rollbacks adds version n + 1: the UNIQUE constraint is never hit. */
  lemma AddVersionExtendsHistory(t: Tables, name: string, content: Content, now: int)
    requires History(t) && name in t.tools
    ensures AddVersion(t, name, content, now).Some?
    ensures var b, r := AddVersion(t, name, content, now).value, t.tools[name];
            && History(b) && Extends(t, b)
            && b.tools[name].version == r.version + 1 && b.tools[name].content == content
            && b.tools[name].status == r.status
            && VersionsOf(b, r.id) == VersionsOf(t, r.id)[r.version + 1 := VersionRow(content, now)]
  {
    var r := t.tools[name];
    var n := r.version + 1;
    var vs := VersionsOf(t, r.id)[n := VersionRow(content, now)];
    var r' := r.(content := content, version := n, updatedAt := now);
    assert n !in VersionsOf(t, r.id);
    assert vs[n].content == r'.content;
    assert RowHistory(r', vs);
    ReplaceKeepsHistory(t, name, r', vs);
  }

  lemma DisableKeepsHistory(t: Tables, name: string, now: int)
    requires History(t)
    ensures var b := Disable(t, name, now); History(b) && Extends(t, b) && b.versions == t.versions && !Active(b, name)
  {
    if name in t.tools {
      var r := t.tools[name].(status := "disabled", updatedAt := now);
      assert RowHistory(r, VersionsOf(t, r.id));
      RowKeepsHistory(t, name, r);
    }
  }

  /** Rollback(v) succeeds exactly for the versions 1..n; it restores the content of version v and
      leaves the number of versions and every stored version alone. */
  lemma RestoreKeepsHistory(t: Tables, name: string, v: int, now: int)
    requires History(t) && name in t.tools
    ensures Restore(t, name, v, now).Ok? <==> 1 <= v <= t.tools[name].version
    ensures Restore(t, name, v, now).Ok? ==>
              var b, r := Restore(t, name, v, now).value, t.tools[name];
              && History(b) && Extends(t, b) && b.versions == t.versions
              && b.tools[name].content == VersionsOf(t, r.id)[v].content
              && b.tools[name].version == r.version && b.tools[name].status == r.status
  {
    if Restore(t, name, v, now).Ok? {
      var vs := VersionsOf(t, t.tools[name].id);
      var r := t.tools[name].(content := vs[v].content, updatedAt := now);
      assert RowHistory(r, vs);
      RowKeepsHistory(t, name, r);
    }
  }

  // ----- runs

  datatype Op =
    | Register(d: Definition, newId: string, now: int)
    | Update(name: string, d: Definition, now: int)
    | Delete(name: string, now: int)
    | Rollback(name: string, version: int, now: int)

  /** The tables after an operation whose database calls succeed; a refused one changes nothing. */
  function Apply(t: Tables, op: Op): Tables {
    match op
    case Register(d, newId, now) =>
      var inserted := Insert(t, Registered(d, newId, now));
      if ValidTool(d) && inserted.Some? then inserted.value else t
    case Update(name, d, now) =>
      if Active(t, name) && ValidTool(d) && AddVersion(t, name, d.content, now).Some?
      then AddVersion(t, name, d.content, now).value else t
    case Delete(name, now) => Disable(t, name, now)
    case Rollback(name, version, now) =>
      if Restore(t, name, version, now).Ok? then Restore(t, name, version, now).value else t
  }

  function Run(ops: seq<Op>): Tables {
    if ops == [] then Tables(map[], map[]) else Apply(Run(ops[..|ops| - 1]), ops[|ops| - 1])
  }

  lemma ApplyKeepsHistory(t: Tables, op: Op)
    requires History(t)
    ensures History(Apply(t, op)) && Extends(t, Apply(t, op))
  {
    match op {
      case Register(d, newId, now) => InsertStartsHistory(t, Registered(d, newId, now));
      case Update(name, d, now) =>
        if Active(t, name) { AddVersionExtendsHistory(t, name, d.content, now); }
      case Delete(name, now) => DisableKeepsHistory(t, name, now);
      case Rollback(name, version, now) =>
        if name in t.tools { RestoreKeepsHistory(t, name, version, now); }
    }
  }

  /** In every reachable state of the tables. */
  lemma {:induction false} EveryRunKeepsHistory(ops: seq<Op>)
    ensures History(Run(ops))
  {
    if ops != [] {
      EveryRunKeepsHistory(ops[..|ops| - 1]);
      ApplyKeepsHistory(Run(ops[..|ops| - 1]), ops[|ops| - 1]);
    }
  }

  /** No operation stores a tool without a name. */
  lemma {:induction false} EveryRunIsNamed(ops: seq<Op>)
    ensures "" !in Run(ops).tools
  {
    if ops != [] { EveryRunIsNamed(ops[..|ops| - 1]); }
  }

  /** So a cache that agrees with the tables always loses an entry that expires first. */
  lemma OldestIsEvicted(ops: seq<Op>, c: Entries, order: seq<string>)
    requires Coherent(c, Run(ops)) && Visits(c, order) && c != map[]
    ensures var v := Victim(c, order);
            && v in c && Evicted(c, order) == c - {v}
            && forall k :: k in c ==> c[v].expiresAt <= c[k].expiresAt
  {
    EveryRunIsNamed(ops);
    OldestGoes(c, order);
  }

  lemma LastStepExtends(ops: seq<Op>)
    requires ops != []
    ensures Extends(Run(ops[..|ops| - 1]), Run(ops))
  {
    EveryRunKeepsHistory(ops[..|ops| - 1]);
    ApplyKeepsHistory(Run(ops[..|ops| - 1]), ops[|ops| - 1]);
  }

  /** A stored version is never rewritten later on. */
  lemma {:induction false} VersionsAreAppendOnly(ops: seq<Op>, k: nat)
    requires k <= |ops|
    ensures Extends(Run(ops[..k]), Run(ops))
  {
    if k < |ops| {
      VersionsAreAppendOnly(ops[..|ops| - 1], k);
      LastStepExtends(ops);
      ExtendsFurther(ops, k);
    } else {
      assert ops[..k] == ops;
    }
  }

  lemma ExtendsFurther(ops: seq<Op>, k: nat)
    requires k < |ops| && Extends(Run(ops[..|ops| - 1][..k]), Run(ops[..|ops| - 1]))
    requires Extends(Run(ops[..|ops| - 1]), Run(ops))
    ensures Extends(Run(ops[..k]), Run(ops))
  {
    assert ops[..|ops| - 1][..k] == ops[..k];
    ExtendsTransitive(Run(ops[..k]), Run(ops[..|ops| - 1]), Run(ops));
  }

  // ----- the list of versions

  function CountDown(vs: Versions, n: nat): seq<(int, VersionRow)>
    requires forall v :: 1 <= v <= n ==> v in vs
  {
    if n == 0 then [] else [(n, vs[n])] + CountDown(vs, n - 1)
  }

  lemma {:induction false} RowsCountDown(vs: Versions, s: set<int>, n: nat)
    requires forall v :: v in s <==> 1 <= v <= n
    requires forall v :: 1 <= v <= n ==> v in vs
    ensures RowsOf(vs, Descending(s)) == CountDown(vs, n)
  {
    if n > 0 {
      assert n in s && MaxOf(s) == n;
      assert Descending(s)[1..] == Descending(s - {n});
      RowsCountDown(vs, s - {n}, n - 1);
    } else {
      assert forall v :: v !in s;
    }
  }

  /** GetVersions lists exactly the versions n, n - 1, ..., 1. */
  lemma VersionListCountsDown(t: Tables, name: string)
    requires History(t) && name in t.tools
    ensures var r := t.tools[name];
            var vs := VersionsOf(t, r.id);
            (forall v :: 1 <= v <= r.version ==> v in vs) && VersionList(vs) == CountDown(vs, r.version)
  {
    var r := t.tools[name];
    assert RowHistory(r, VersionsOf(t, r.id));
    RowsCountDown(VersionsOf(t, r.id), VersionsOf(t, r.id).Keys, r.version);
  }

  // ----- what the operations show

  /** Nothing of the other names changes. */
  ghost predicate OnlyTouches(a: Tables, b: Tables, name: string) {
    forall n :: n != name ==> (n in a.tools <==> n in b.tools) && (n in a.tools ==> a.tools[n] == b.tools[n])
  }

  /** A definition is accepted exactly if it is complete, its name is made of small letters, digits and
      underscores behind a first letter of any case, and does not begin as a change. */
  lemma ValidToolIff(d: Definition)
    ensures ValidTool(d) <==>
              && TrimSpace(d.content.description) != "" && TrimSpace(d.content.language) != ""
              && TrimSpace(d.content.code) != "" && d.content.inputSchema != Null && TrimSpace(d.name) != ""
              && (forall c :: c in d.name[1..] ==> 'a' <= c <= 'z' || '0' <= c <= '9' || c == '_')
              && ('A' <= d.name[0] <= 'Z' || 'a' <= d.name[0] <= 'z' || '0' <= d.name[0] <= '9' || d.name[0] == '_')
              && !("create_" <= d.name) && !("update_" <= d.name) && !("delete_" <= d.name)
              && !("remove_" <= d.name) && !("destroy_" <= d.name)
  {
    if d.name != "" {
      NameCharsIff(d.name);
      assert (forall i :: 0 <= i < |FORBIDDEN| ==> !HasPrefix(d.name, FORBIDDEN[i])) ==>
          !HasPrefix(d.name, FORBIDDEN[0]) && !HasPrefix(d.name, FORBIDDEN[1]) && !HasPrefix(d.name, FORBIDDEN[2])
          && !HasPrefix(d.name, FORBIDDEN[3]) && !HasPrefix(d.name, FORBIDDEN[4]);
    }
  }

  lemma NameCharsIff(name: string)
    requires name != ""
    ensures (forall i :: 0 <= i < |name| ==> ValidNameChar(i, name[i])) <==>
              && (forall c :: c in name[1..] ==> 'a' <= c <= 'z' || '0' <= c <= '9' || c == '_')
              && ('A' <= name[0] <= 'Z' || 'a' <= name[0] <= 'z' || '0' <= name[0] <= '9' || name[0] == '_')
  {
    if forall i :: 0 <= i < |name| ==> ValidNameChar(i, name[i]) {
      assert ValidNameChar(0, name[0]);
      forall c | c in name[1..] ensures 'a' <= c <= 'z' || '0' <= c <= '9' || c == '_' {
        var i :| 0 <= i < |name[1..]| && name[1..][i] == c;
        assert ValidNameChar(i + 1, name[i + 1]);
      }
    }
    if forall c :: c in name[1..] ==> 'a' <= c <= 'z' || '0' <= c <= '9' || c == '_' {
      forall i | 1 <= i < |name| ensures ValidNameChar(i, name[i]) { assert name[1..][i - 1] in name[1..]; }
    }
  }

  /** A registered tool is there as version 1, with the id it came with or the new one. */
  lemma RegisterShows(t: Tables, d: Definition, newId: string, now: int)
    requires History(t)
    ensures var b, id := Apply(t, Register(d, newId, now)), if d.id == "" then newId else d.id;
            if ValidTool(d) && d.name !in t.tools && !IdTaken(t, id) then
              && Lookup(b, d.name) == Ok(Definition(id, d.name, d.content, 1, "active", now, now))
              && VersionsOf(b, id) == map[1 := VersionRow(d.content, now)] && OnlyTouches(t, b, d.name)
            else b == t
  {
    InsertStartsHistory(t, Registered(d, newId, now));
  }

  /** The tool that an update makes of another one. */
  predicate IsUpdated(was: Definition, b: Tables, name: string, content: Content, now: int) {
    Lookup(b, name) == Ok(Definition(was.id, name, content, was.version + 1, "active", was.createdAt, now))
  }

  lemma UpdateOfFreeVersion(t: Tables, name: string, d: Definition, now: int)
    requires Active(t, name) ==> t.tools[name].version + 1 !in VersionsOf(t, t.tools[name].id)
    ensures var b := Apply(t, Update(name, d, now));
            if Active(t, name) && ValidTool(d) then
              IsUpdated(Lookup(t, name).value, b, name, d.content, now) && OnlyTouches(t, b, name)
            else b == t
  {
  }

  /** An updated tool is there as the next version with the new content, and is as old as it was. */
  lemma UpdateShows(t: Tables, name: string, d: Definition, now: int)
    requires History(t)
    ensures var b := Apply(t, Update(name, d, now));
            if Active(t, name) && ValidTool(d) then
              IsUpdated(Lookup(t, name).value, b, name, d.content, now) && OnlyTouches(t, b, name)
            else b == t
  {
    if Active(t, name) { assert RowHistory(t.tools[name], VersionsOf(t, t.tools[name].id)); }
    UpdateOfFreeVersion(t, name, d, now);
  }

  /** A deleted tool is not found any more; it is still stored with its versions, and neither an update
      nor a rollback brings it back. */
  lemma DeleteShows(t: Tables, name: string, now: int, next: Op)
    requires (next.Update? || next.Rollback?) && next.name == name
    ensures var b := Apply(t, Delete(name, now));
            && Lookup(b, name) == Err(NotFound(name)) && Lookup(Apply(b, next), name) == Err(NotFound(name))
            && OnlyTouches(t, b, name) && b.versions == t.versions && b.tools.Keys == t.tools.Keys
            && (name in t.tools ==> b.tools[name] == t.tools[name].(status := "disabled", updatedAt := now))
  {
    assert Apply(t, Delete(name, now)).tools.Keys == t.tools.Keys;
  }

  /** The tool that a rollback makes of another one. */
  predicate IsRestored(was: Definition, b: Tables, name: string, v: int, now: int) {
    && v in VersionsOf(b, was.id)
    && Lookup(b, name) ==
       Ok(Definition(was.id, name, VersionsOf(b, was.id)[v].content, was.version, "active", was.createdAt, now))
  }

  lemma RollbackOfVersion(t: Tables, name: string, v: int, now: int)
    ensures var b := Apply(t, Rollback(name, v, now));
            if name in t.tools && v in VersionsOf(t, t.tools[name].id) then
              && b.versions == t.versions && OnlyTouches(t, b, name)
              && (Active(t, name) ==> IsRestored(Lookup(t, name).value, b, name, v, now))
            else b == t
  {
  }

  /** A tool that is rolled back shows the content of that version under its latest number. */
  lemma RollbackShows(t: Tables, name: string, v: int, now: int)
    requires History(t)
    ensures var b := Apply(t, Rollback(name, v, now));
            if name in t.tools && 1 <= v <= t.tools[name].version then
              && b.versions == t.versions && OnlyTouches(t, b, name)
              && (Active(t, name) ==> IsRestored(Lookup(t, name).value, b, name, v, now))
            else b == t
  {
    if name in t.tools { assert RowHistory(t.tools[name], VersionsOf(t, t.tools[name].id)); }
    RollbackOfVersion(t, name, v, now);
  }

  /** An entry that was stored is found up to its expiry, while it is not evicted. */
  lemma StoredUntilExpiry(before: Entries, name: string, tool: Definition, now: int, ttl: int, after: Entries,
                          later: int)
    requires Stores(before, name, Cached(tool, now + ttl), after)
    ensures Find(after, name, later) == if later <= now + ttl then Some(tool) else None
  {
  }
}
