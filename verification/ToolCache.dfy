/** The in-memory cache of tool definitions: expiring, of bounded size, evicting the entry that
    expires first. */
module ToolCaching {
  import opened Text
  import opened Json

  datatype Content = Content(description: string, language: string, code: string, inputSchema: Value)

  datatype Definition = Definition(
    id: string, name: string, content: Content, version: int, status: string, createdAt: int, updatedAt: int)

  datatype Cached = Cached(tool: Definition, expiresAt: int)

  type Entries = map<string, Cached>

  /** a holds nothing that b does not hold. */
  ghost predicate SubMap(a: Entries, b: Entries) {
    forall k :: k in a ==> k in b && a[k] == b[k]
  }

  /** What storing an entry may do: the entry is there, and of the others some may be gone. */
  ghost predicate Stores(before: Entries, name: string, e: Cached, after: Entries) {
    name in after && after[name] == e && SubMap(after - {name}, before)
  }

  /** The entry a look-up at the given moment finds: an entry is gone after its expiry. */
  function Find(c: Entries, name: string, now: int): Option<Definition> {
    if name in c && now <= c[name].expiresAt then Some(c[name].tool) else None
  }

  // ----- eviction

  /** An order in which the runtime may visit the entries. */
  ghost predicate Visits(c: Entries, order: seq<string>) {
    && (forall k :: k in order <==> k in c)
    && forall i, j :: 0 <= i < j < |order| ==> order[i] != order[j]
  }

  /** The name the search ends with. The empty name stands for "none yet". */
  function Victim(c: Entries, order: seq<string>): (v: string)
    requires forall k :: k in order ==> k in c
    ensures v in order || (order == [] && v == "")
  {
    if order == [] then ""
    else
      var name, oldest := order[|order| - 1], Victim(c, order[..|order| - 1]);
      if oldest == "" || c[name].expiresAt < c[oldest].expiresAt then name else oldest
  }

  function Evicted(c: Entries, order: seq<string>): Entries
    requires forall k :: k in order ==> k in c
  {
    var v := Victim(c, order);
    if v == "" then c else c - {v}
  }

  /** Without the empty name, an entry goes that expires first. */
  lemma {:induction false} OldestGoes(c: Entries, order: seq<string>)
    requires (forall k :: k in order ==> k in c) && order != [] && "" !in order
    ensures var v := Victim(c, order); v in order && forall k :: k in order ==> c[v].expiresAt <= c[k].expiresAt
  {
    var n := |order| - 1;
    if n > 0 { OldestGoes(c, order[..n]); }
    assert forall k :: k in order ==> k == order[n] || k in order[..n];
  }

  lemma VisitOne(order: seq<string>, name: string)
    ensures (order + [name])[..|order|] == order
    ensures forall k :: k in order + [name] <==> k == name || k in order
  {
  }

  lemma SmallerBy(c: Entries, order: seq<string>)
    requires Visits(c, order)
    ensures "" !in c && c != map[] ==> |Evicted(c, order)| == |c| - 1
  {
    var v := Victim(c, order);
    if "" !in c && c != map[] {
      assert Evicted(c, order).Keys == c.Keys - {v};
    }
  }

  /** Nothing goes exactly from an empty cache, or when the empty name is visited last and expires
      before all others. */
  lemma NothingGoesIff(c: Entries, order: seq<string>)
    requires Visits(c, order)
    ensures Evicted(c, order) == c <==>
              || c == map[]
              || (order[|order| - 1] == "" && forall k :: k in c && k != "" ==> c[""].expiresAt < c[k].expiresAt)
  {
    if order != [] {
      var n := |order| - 1;
      var front := order[..n];
      assert forall k :: k in order <==> k == order[n] || k in front;
      assert order[n] !in front;
      if n > 0 && "" == order[n] { OldestGoes(c, front); }
    }
  }

  class ToolCache {
    var tools: Entries
    const ttl: int
    const maxSize: int

    constructor (ttl: int, maxSize: int)
      ensures tools == map[] && this.ttl == ttl && this.maxSize == maxSize
    {
      tools := map[];
      this.ttl, this.maxSize := ttl, maxSize;
    }

    method Get(name: string, now: int) returns (tool: Option<Definition>)
      ensures tool == Find(tools, name, now)
    {
      if name !in tools { return None; }
      if now > tools[name].expiresAt { return None; }
      tool := Some(tools[name].tool);
    }

    /** Only a full cache loses an entry, and only one. */
    method Set(name: string, tool: Definition, now: int)
      modifies this
      ensures var e := Cached(tool, now + ttl);
              if |old(tools)| < maxSize then tools == old(tools)[name := e]
              else exists order :: Visits(old(tools), order) && tools == Evicted(old(tools), order)[name := e]
      ensures Stores(old(tools), name, Cached(tool, now + ttl), tools)
      ensures "" !in old(tools) && |old(tools)| <= maxSize && maxSize > 0 ==> |tools| <= maxSize
    {
      if |tools| >= maxSize {
        ghost var order := EvictOldest();
        SmallerBy(old(tools), order);
      }
      var kept := tools;
      tools := tools[name := Cached(tool, now + ttl)];
      assert tools.Keys == kept.Keys + {name};
    }

    method Delete(name: string)
      modifies this
      ensures tools == old(tools) - {name}
    {
      tools := tools - {name};
    }

    /** Visits the entries in an order of the runtime's choice. */
    method EvictOldest() returns (ghost order: seq<string>)
      modifies this
      ensures Visits(old(tools), order) && tools == Evicted(old(tools), order)
    {
      var oldestName, oldestTime := "", 0;
      var left := tools.Keys;
      order := [];
      while left != {}
        invariant left <= tools.Keys && tools == old(tools)
        invariant forall k :: k in order <==> k in tools && k !in left
        invariant forall i, j :: 0 <= i < j < |order| ==> order[i] != order[j]
        invariant oldestName == Victim(tools, order)
        invariant oldestName != "" ==> tools[oldestName].expiresAt == oldestTime
        decreases left
      {
        var name :| name in left;
        left := left - {name};
        VisitOne(order, name);
        order := order + [name];
        if oldestName == "" || tools[name].expiresAt < oldestTime {
          oldestName, oldestTime := name, tools[name].expiresAt;
        }
      }
      if oldestName != "" {
        tools := tools - {oldestName};
      }
    }

    /** The periodic clean-up removes exactly the expired entries. */
    method Cleanup(now: int)
      modifies this
      ensures tools == map k | k in old(tools) && now <= old(tools)[k].expiresAt :: old(tools)[k]
    {
      var left := tools.Keys;
      while left != {}
        invariant left <= old(tools).Keys && SubMap(tools, old(tools))
        invariant forall k :: k in old(tools) ==> (k in tools <==> k in left || now <= old(tools)[k].expiresAt)
        decreases left
      {
        var name :| name in left;
        left := left - {name};
        if now > tools[name].expiresAt {
          tools := tools - {name};
        }
      }
    }
  }
}
