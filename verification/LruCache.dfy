/** The response cache: a map of entries and a recency list, changed in place. The functions give
    the meaning of each operation on the pair; the class is proved against them. */
module LruCache {
  import opened Text

  type Header = map<string, string>

  function ETagOf(h: Header): string {
    if "Etag" in h then TrimSpace(h["Etag"]) else ""
  }

  datatype Entry = Entry(status: int, header: Header, body: string, storedAt: int) {
    function ETag(): string { ETagOf(header) }
  }

  /** The keys in front of the recency list are the most recent ones. */
  datatype State = State(entries: map<string, Entry>, lru: seq<string>)

  function Without(s: seq<string>, k: string): seq<string> {
    if s == [] then [] else (if s[0] == k then [] else [s[0]]) + Without(s[1..], k)
  }

  function ToFront(s: seq<string>, k: string): seq<string> {
    [k] + Without(s, k)
  }

  function Take<T>(s: seq<T>, n: nat): seq<T> {
    if |s| <= n then s else s[..n]
  }

  function AfterGet(c: State, k: string): State {
    if k in c.entries then c.(lru := ToFront(c.lru, k)) else c
  }

  function AfterTouch(c: State, k: string, storedAt: int): State {
    if k in c.entries then State(c.entries[k := c.entries[k].(storedAt := storedAt)], ToFront(c.lru, k)) else c
  }

  function Shorter(c: State): State
    requires c.lru != []
  {
    State(c.entries - {c.lru[|c.lru| - 1]}, c.lru[..|c.lru| - 1])
  }

  function Evict(c: State, max: nat): State
    decreases |c.lru|
  {
    if |c.lru| <= max then c else Evict(Shorter(c), max)
  }

  lemma EvictOne(c: State, last: string, max: nat, entries: map<string, Entry>, lru: seq<string>)
    requires |c.lru| > max && last == c.lru[|c.lru| - 1]
    requires entries == c.entries - {last} && lru == c.lru[..|c.lru| - 1]
    ensures Evict(State(entries, lru), max) == Evict(c, max)
  {
  }

  function AfterPut(c: State, k: string, e: Entry, max: nat): State {
    if k in c.entries then State(c.entries[k := e], ToFront(c.lru, k))
    else Evict(State(c.entries[k := e], [k] + c.lru), max)
  }

  predicate Distinct(s: seq<string>) {
    forall i, j :: 0 <= i < j < |s| ==> s[i] != s[j]
  }

  /** Map and list hold the same keys, without duplicates, and no more than the limit. */
  ghost predicate Consistent(c: State, max: nat) {
    Distinct(c.lru) && (forall k :: k in c.lru <==> k in c.entries) && |c.lru| <= max
  }

  lemma DistinctCons(a: string, t: seq<string>)
    ensures Distinct([a] + t) <==> a !in t && Distinct(t)
  {
    var s := [a] + t;
    assert forall i :: 0 <= i < |t| ==> t[i] == s[i + 1];
    if Distinct(s) {
      assert forall i :: 0 <= i < |t| ==> t[i] != s[0];
      forall i, j | 0 <= i < j < |t| ensures t[i] != t[j] { assert s[i + 1] != s[j + 1]; }
    }
  }

  lemma {:induction false} WithoutFacts(s: seq<string>, k: string)
    ensures forall x :: x in Without(s, k) <==> x in s && x != k
    ensures Distinct(s) ==> Distinct(Without(s, k)) && |Without(s, k)| == |s| - if k in s then 1 else 0
    ensures k !in s ==> Without(s, k) == s
  {
    if s != [] {
      WithoutFacts(s[1..], k);
      assert s == [s[0]] + s[1..];
      DistinctCons(s[0], s[1..]);
      DistinctCons(s[0], Without(s[1..], k));
    }
  }

  lemma ToFrontFacts(s: seq<string>, k: string)
    requires Distinct(s)
    ensures Distinct(ToFront(s, k)) && |ToFront(s, k)| == |s| + if k in s then 0 else 1
    ensures forall x :: x in ToFront(s, k) <==> x == k || x in s
  {
    WithoutFacts(s, k);
    DistinctCons(k, Without(s, k));
  }

  /** Storing a new key evicts at most one entry, the least recent. */
  lemma PutNew(c: State, k: string, e: Entry, max: nat)
    requires Consistent(c, max) && max > 0 && k !in c.entries
    ensures var full := [k] + c.lru;
            AfterPut(c, k, e, max) ==
            if |c.lru| < max then State(c.entries[k := e], full)
            else State(c.entries[k := e] - {full[max]}, full[..max])
    ensures Consistent(AfterPut(c, k, e, max), max)
  {
    DistinctCons(k, c.lru);
    var full := [k] + c.lru;
    if |c.lru| == max {
      var a := State(c.entries[k := e] - {full[max]}, full[..max]);
      assert Evict(a, max) == a;
      assert full == full[..max] + [full[max]];
      assert forall x :: x in full[..max] <==> x in full && x != full[max];
    }
  }

  /** The new key stands in front with its entry, and the other entries are old ones. */
  ghost predicate PutInFront(c: State, k: string, e: Entry, max: nat, after: State) {
    && after.lru == Take(ToFront(c.lru, k), max)
    && k in after.entries && after.entries[k] == e
    && forall x :: x in after.entries && x != k ==> x in c.entries && after.entries[x] == c.entries[x]
  }

  lemma PutNewInFront(c: State, k: string, e: Entry, max: nat)
    requires Consistent(c, max) && max > 0 && k !in c.entries
    ensures PutInFront(c, k, e, max, AfterPut(c, k, e, max))
  {
    WithoutFacts(c.lru, k);
    PutNew(c, k, e, max);
  }

  lemma OperationsKeepValid(c: State, k: string, e: Entry, t: int, max: nat)
    requires Consistent(c, max) && max > 0
    ensures Consistent(AfterGet(c, k), max)
    ensures Consistent(AfterTouch(c, k, t), max)
    ensures Consistent(AfterPut(c, k, e, max), max)
    ensures PutInFront(c, k, e, max, AfterPut(c, k, e, max))
  {
    ToFrontFacts(c.lru, k);
    if k !in c.entries {
      PutNew(c, k, e, max);
      PutNewInFront(c, k, e, max);
    }
  }

  class Cache {
    const ttl: nat
    const maxEntries: nat
    var entries: map<string, Entry>
    var lru: seq<string>

    ghost function Contents(): State
      reads this
    {
      State(entries, lru)
    }

    ghost predicate Ok()
      reads this
    {
      maxEntries > 0 && Consistent(Contents(), maxEntries)
    }

    constructor (ttl: int, maxEntries: int)
      ensures Ok() && Contents() == State(map[], [])
      ensures this.maxEntries == if maxEntries <= 0 then 512 else maxEntries
      ensures this.ttl == if ttl < 0 then 0 else ttl
    {
      this.maxEntries := if maxEntries <= 0 then 512 else maxEntries;
      this.ttl := if ttl < 0 then 0 else ttl;
      entries, lru := map[], [];
    }

    method Get(key: string) returns (e: Option<Entry>)
      requires Ok()
      modifies this
      ensures Ok() && Contents() == AfterGet(old(Contents()), key)
      ensures e == if key in old(entries) then Some(old(entries)[key]) else None
    {
      OperationsKeepValid(Contents(), key, Entry(0, map[], "", 0), 0, maxEntries);
      if key !in entries { return None; }
      lru := ToFront(lru, key);
      e := Some(entries[key]);
    }

    method Put(key: string, status: int, header: Header, body: string, storedAt: int) returns (e: Entry)
      requires Ok()
      modifies this
      ensures e == Entry(status, header, body, storedAt)
      ensures Ok() && Contents() == AfterPut(old(Contents()), key, e, maxEntries)
    {
      e := Entry(status, header, body, storedAt);
      ghost var before := Contents();
      ghost var stored := AfterPut(before, key, e, maxEntries);
      if key in entries {
        entries := entries[key := e];
        lru := ToFront(lru, key);
        OperationsKeepValid(before, key, e, 0, maxEntries);
        return;
      }
      entries := entries[key := e];
      lru := [key] + lru;
      while |lru| > maxEntries
        invariant Evict(Contents(), maxEntries) == stored
        decreases |lru|
      {
        ghost var c := Contents();
        var last := lru[|lru| - 1];
        entries := entries - {last};
        lru := lru[..|lru| - 1];
        EvictOne(c, last, maxEntries, entries, lru);
      }
      OperationsKeepValid(before, key, e, 0, maxEntries);
    }

    method Touch(key: string, storedAt: int)
      requires Ok()
      modifies this
      ensures Ok() && Contents() == AfterTouch(old(Contents()), key, storedAt)
    {
      OperationsKeepValid(Contents(), key, Entry(0, map[], "", 0), storedAt, maxEntries);
      if key in entries {
        entries := entries[key := entries[key].(storedAt := storedAt)];
        lru := ToFront(lru, key);
      }
    }
  }

  // ----- histories

  datatype Op = Get(key: string) | Put(key: string, e: Entry) | Touch(key: string, storedAt: int)

  function Apply(c: State, op: Op, max: nat): State {
    match op
    case Get(k) => AfterGet(c, k)
    case Put(k, e) => AfterPut(c, k, e, max)
    case Touch(k, t) => AfterTouch(c, k, t)
  }

  /** An operation uses its key when it stores it or finds it. */
  function Uses(c: State, op: Op): seq<string> {
    if op.Put? || op.key in c.entries then [op.key] else []
  }

  function After(ops: seq<Op>, max: nat): State {
    if ops == [] then State(map[], []) else Apply(After(ops[..|ops| - 1], max), ops[|ops| - 1], max)
  }

  function Used(ops: seq<Op>, max: nat): seq<string> {
    if ops == [] then []
    else Used(ops[..|ops| - 1], max) + Uses(After(ops[..|ops| - 1], max), ops[|ops| - 1])
  }

  /** The distinct keys of a use sequence, the one used last in front. */
  function Recency(used: seq<string>): seq<string> {
    if used == [] then [] else ToFront(Recency(used[..|used| - 1]), used[|used| - 1])
  }

  /** The keys used after the last use of k. */
  function UsedSince(used: seq<string>, k: string): set<string> {
    if used == [] || used[|used| - 1] == k then {}
    else UsedSince(used[..|used| - 1], k) + {used[|used| - 1]}
  }

  function Last(s: seq<Op>): Op
    requires s != []
  {
    s[|s| - 1]
  }

  /** The entry the operations on k leave, were nothing ever evicted: its last Put, at the time of
      the last Put or Touch. */
  function Stored(ops: seq<Op>, k: string): Option<Entry> {
    if ops == [] then None
    else
      var before := Stored(ops[..|ops| - 1], k);
      if Last(ops).key != k then before
      else
        match Last(ops)
        case Get(_) => before
        case Put(_, e) => Some(e)
        case Touch(_, t) => if before.None? then None else Some(before.value.(storedAt := t))
  }

  lemma {:induction false} RecencyFacts(used: seq<string>)
    ensures Distinct(Recency(used)) && forall k :: k in Recency(used) <==> k in used
  {
    if used != [] {
      var n := |used| - 1;
      RecencyFacts(used[..n]);
      WithoutFacts(Recency(used[..n]), used[n]);
      assert used == used[..n] + [used[n]];
    }
  }

  lemma {:induction false} WithoutPrefix(s: seq<string>, k: string, n: nat)
    requires Distinct(s) && n < |s| && k !in s[..n]
    ensures Take(Without(s, k), n) == s[..n]
  {
    if n > 0 {
      WithoutPrefix(s[1..], k, n - 1);
      assert s[0] == s[..n][0] && s[1..][..n - 1] == s[..n][1..];
    } else {
      assert Take(Without(s, k), 0) == [];
    }
  }

  lemma {:induction false} WithoutSplits(a: seq<string>, b: seq<string>, k: string)
    ensures Without(a + b, k) == Without(a, k) + Without(b, k)
  {
    if a == [] {
      assert a + b == b;
    } else {
      assert (a + b)[1..] == a[1..] + b;
      WithoutSplits(a[1..], b, k);
      AppendAssociates(if a[0] == k then [] else [a[0]], Without(a[1..], k), Without(b, k));
    }
  }

  lemma WithoutOfTaken(s: seq<string>, k: string, n: nat)
    requires Distinct(s) && k in Take(s, n)
    ensures ToFront(Take(s, n), k) == Take(ToFront(s, k), n)
  {
    if |s| > n {
      var i :| 0 <= i < n && s[i] == k;
      assert s == s[..n] + s[n..] && k !in s[n..];
      WithoutSplits(s[..n], s[n..], k);
      WithoutFacts(s[..n], k);
      WithoutFacts(s[n..], k);
      AppendAssociates([k], Without(s[..n], k), s[n..]);
      assert ToFront(s, k) == ToFront(s[..n], k) + s[n..];
    } else {
      ToFrontFacts(s, k);
    }
  }

  /** Putting a key that is not among the first n keys leaves the first n - 1 of them behind it. */
  lemma PutIntoTaken(s: seq<string>, k: string, n: nat)
    requires Distinct(s) && k !in Take(s, n) && n > 0
    ensures Take(ToFront(Take(s, n), k), n) == Take(ToFront(s, k), n)
  {
    WithoutFacts(Take(s, n), k);
    if |s| > n {
      assert k !in s[..n - 1] by { assert s[..n - 1] == s[..n][..n - 1]; }
      WithoutPrefix(s, k, n - 1);
      assert Take(ToFront(s, k), n) == [k] + s[..n - 1];
      assert Take(ToFront(s[..n], k), n) == [k] + s[..n - 1];
    }
  }

  lemma {:induction false} AfterIsValid(ops: seq<Op>, max: nat)
    requires max > 0
    ensures Consistent(After(ops, max), max)
  {
    if ops != [] {
      AfterIsValid(ops[..|ops| - 1], max);
      var op := Last(ops);
      OperationsKeepValid(After(ops[..|ops| - 1], max), op.key, if op.Put? then op.e else Entry(0, map[], "", 0),
        if op.Touch? then op.storedAt else 0, max);
    }
  }

  /** After any history the list holds the most recently used distinct keys, up to the limit. */
  lemma {:induction false} ListIsMostRecent(ops: seq<Op>, max: nat)
    requires max > 0
    ensures After(ops, max).lru == Take(Recency(Used(ops, max)), max)
  {
    if ops != [] {
      var n := |ops| - 1;
      var c, op, used := After(ops[..n], max), Last(ops), Used(ops[..n], max);
      ListIsMostRecent(ops[..n], max);
      AfterIsValid(ops[..n], max);
      RecencyFacts(used);
      if op.Put? {
        OperationsKeepValid(c, op.key, op.e, 0, max);
      }
      if op.Put? || op.key in c.entries {
        assert Used(ops, max)[..|used|] == used;
        if op.key in c.entries {
          WithoutOfTaken(Recency(used), op.key, max);
          ToFrontFacts(c.lru, op.key);
        } else {
          PutIntoTaken(Recency(used), op.key, max);
        }
      } else {
        assert Used(ops, max) == used;
      }
    }
  }

  /** Removing a key keeps the others in order. */
  lemma WithoutAt(s: seq<string>, k: string, i: nat)
    requires Distinct(s) && i < |s| && s[i] != k
    ensures var w, before := Without(s, k), Without(s[..i], k);
            |before| < |w| && w[..|before|] == before && w[|before|] == s[i]
  {
    assert s == s[..i] + ([s[i]] + s[i + 1..]);
    WithoutSplits(s[..i], [s[i]] + s[i + 1..], k);
    WithoutSplits([s[i]], s[i + 1..], k);
    assert Without([s[i]], k) == [s[i]];
  }

  /** k stands in the list right behind exactly the given keys. */
  ghost predicate Behind(r: seq<string>, k: string, ahead: set<string>) {
    && |ahead| < |r| && r[|ahead|] == k
    && forall x :: x in r[..|ahead|] <==> x in ahead
  }

  lemma BehindFront(w: seq<string>, before: seq<string>, k: string, ahead: set<string>, j: string)
    requires |before| < |w| && w[..|before|] == before && w[|before|] == k && |ahead| == |before| + 1
    requires forall x :: x in ahead <==> x == j || x in before
    ensures Behind([j] + w, k, ahead)
  {
    assert ([j] + w)[..|before| + 1] == [j] + before;
  }

  lemma SizeOfMore(ahead: set<string>, j: string)
    ensures |ahead + {j}| == |ahead| + if j in ahead then 0 else 1
  {
    if j in ahead { assert ahead + {j} == ahead; }
  }

  lemma BehindOneMore(r: seq<string>, k: string, ahead: set<string>, j: string)
    requires Distinct(r) && Behind(r, k, ahead) && j != k
    ensures Behind(ToFront(r, j), k, ahead + {j})
  {
    var front := r[..|ahead|];
    WithoutAt(r, j, |ahead|);
    WithoutFacts(front, j);
    SizeOfMore(ahead, j);
    BehindFront(Without(r, j), Without(front, j), k, ahead + {j}, j);
  }

  /** A key stands in the recency list behind exactly the keys used since its last use. */
  lemma {:induction false} RankIsUsedSince(used: seq<string>, k: string)
    requires k in used
    ensures Behind(Recency(used), k, UsedSince(used, k))
  {
    var n := |used| - 1;
    if used[n] != k {
      assert used == used[..n] + [used[n]];
      RankIsUsedSince(used[..n], k);
      RecencyFacts(used[..n]);
      BehindOneMore(Recency(used[..n]), k, UsedSince(used[..n], k), used[n]);
    }
  }

  /** After any history a key is resident exactly when it was used and fewer than the limit of other
      keys were used since. */
  lemma ResidentIff(ops: seq<Op>, max: nat, k: string)
    requires max > 0
    ensures k in After(ops, max).entries <==>
            k in Used(ops, max) && |UsedSince(Used(ops, max), k)| < max
  {
    var used := Used(ops, max);
    AfterIsValid(ops, max);
    ListIsMostRecent(ops, max);
    RecencyFacts(used);
    if k in used {
      RankIsUsedSince(used, k);
      var i, r := |UsedSince(used, k)|, Recency(used);
      if i < max {
        assert Take(r, max)[i] == k;
      } else {
        assert k !in Take(r, max);
      }
    }
  }

  /** A resident key holds its last Put, at the time of its latest Put or Touch. */
  lemma {:induction false} ResidentHoldsLastPut(ops: seq<Op>, max: nat, k: string)
    requires max > 0 && k in After(ops, max).entries
    ensures Stored(ops, k) == Some(After(ops, max).entries[k])
  {
    var before, op := After(ops[..|ops| - 1], max), Last(ops);
    AfterIsValid(ops[..|ops| - 1], max);
    if op.Put? { OperationsKeepValid(before, op.key, op.e, 0, max); }
    if k in before.entries {
      ResidentHoldsLastPut(ops[..|ops| - 1], max, k);
    }
  }
}
