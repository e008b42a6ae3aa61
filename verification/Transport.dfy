/** The caching HTTP transport: fresh hits, conditional revalidation and misses, over the LRU
    cache. A round trip happens at one clock reading. */
module Transport {
  import opened Text
  import opened LruCache

  const OK := 200
  const NOT_MODIFIED := 304

  datatype Request = Request(verb: string, url: string, header: Header)
  datatype Response = Response(status: int, header: Header, body: string)
  datatype Reply = Failure(msg: string) | Success(response: Response)

  /** What the wrapped transport answers at the moment of a call, given the If-None-Match header
      added to the request, if any. */
  type Upstream = Option<string> -> Reply

  function CachedResponse(e: Entry): Response {
    Response(if e.status == 0 then OK else e.status, e.header, e.body)
  }

  function EntryOf(r: Response, storedAt: int): Entry {
    Entry(r.status, r.header, r.body, storedAt)
  }

  predicate IsGet(req: Request) {
    EqualFold(req.verb, "GET")
  }

  // ----- keys

  /** The headers that tell requests apart, by canonical name, sorted. */
  const KEY_HEADERS: seq<string> := [
    "Accept", "Authorization", "Cf-Access-Client-Id", "Cf-Access-Client-Secret", "Cookie", "X-Grafana-Org-Id"]

  function HeaderOf(h: Header, name: string): string {
    if name in h then TrimSpace(h[name]) else ""
  }

  /** The names and values that are digested, one behind the other. */
  function Pairs(names: seq<string>, h: Header): seq<string> {
    if names == [] then []
    else (if HeaderOf(h, names[0]) == "" then [] else [names[0], HeaderOf(h, names[0])]) + Pairs(names[1..], h)
  }

  function Terminated(texts: seq<string>): string {
    if texts == [] then "" else texts[0] + "\0" + Terminated(texts[1..])
  }

  type Digest = string -> string

  function Digested(req: Request): string {
    Terminated(Pairs(KEY_HEADERS, req.header))
  }

  function KeyOf(digest: Digest, req: Request): string {
    req.verb + " " + req.url + " " + digest(Digested(req))
  }

  predicate Fresh(e: Entry, ttl: nat, now: int) {
    ttl > 0 && now - e.storedAt < ttl
  }

  /** The meaning of a GET for a key. */
  function Fetch(c: State, max: nat, key: string, now: int, upstream: Upstream): (State, Reply) {
    match upstream(None)
    case Failure(msg) => (c, Failure(msg))
    case Success(r) => (AfterPut(c, key, EntryOf(r, now), max), Success(r))
  }

  function Revalidate(c: State, max: nat, key: string, e: Entry, now: int, upstream: Upstream): (State, Reply) {
    match upstream(Some(e.ETag()))
    case Failure(msg) => (c, Failure(msg))
    case Success(r) =>
      if r.status == NOT_MODIFIED then (AfterTouch(c, key, now), Success(CachedResponse(e)))
      else (AfterPut(c, key, EntryOf(r, now), max), Success(r))
  }

  function Serve(c: State, ttl: nat, max: nat, key: string, now: int, upstream: Upstream): (State, Reply) {
    var found := AfterGet(c, key);
    if key !in c.entries then Fetch(found, max, key, now, upstream)
    else
      var e := c.entries[key];
      if Fresh(e, ttl, now) then (found, Success(CachedResponse(e)))
      else if e.ETag() != "" then Revalidate(found, max, key, e, now, upstream)
      else Fetch(found, max, key, now, upstream)
  }

  lemma TextJoins(text: string, name: string, value: string, rest: string)
    ensures text + (name + "\0" + (value + "\0" + rest)) == (text + (name + "\0" + (value + "\0"))) + rest
  {
  }

  lemma PairTerminated(name: string, value: string, rest: seq<string>)
    ensures Terminated([name, value] + rest) == name + "\0" + (value + "\0" + Terminated(rest))
  {
    assert ([name, value] + rest)[1..] == [value] + rest && ([value] + rest)[1..] == rest;
  }

  lemma PairsStep(names: seq<string>, k: nat, h: Header, text: string)
    requires k < |names|
    ensures text + Terminated(Pairs(names[k..], h)) ==
            (if HeaderOf(h, names[k]) == "" then text else text + (names[k] + "\0" + (HeaderOf(h, names[k]) + "\0")))
            + Terminated(Pairs(names[k + 1..], h))
  {
    var name, value, rest := names[k], HeaderOf(h, names[k]), Pairs(names[k + 1..], h);
    assert names[k..][1..] == names[k + 1..];
    if value == "" {
      assert [] + rest == rest;
    } else {
      PairTerminated(name, value, rest);
      TextJoins(text, name, value, Terminated(rest));
    }
  }

  /** The meaning of a round trip; only a GET is cached. */
  function Handle(c: State, ttl: nat, max: nat, digest: Digest, req: Request, now: int, upstream: Upstream)
    : (State, Reply)
  {
    if IsGet(req) then Serve(c, ttl, max, KeyOf(digest, req), now, upstream) else (c, upstream(None))
  }

  class CachingTransport {
    const c: Cache
    const digest: Digest

    constructor (ttl: int, maxEntries: int, digest: Digest)
      ensures c.Ok() && c.Contents() == State(map[], []) && fresh(c)
      ensures c.ttl == (if ttl < 0 then 0 else ttl) && this.digest == digest
      ensures c.maxEntries == if maxEntries <= 0 then 512 else maxEntries
    {
      c := new Cache(ttl, maxEntries);
      this.digest := digest;
    }

    /** The loop over the headers that tell requests apart. */
    method Key(req: Request) returns (key: string)
      ensures key == KeyOf(digest, req)
    {
      var text := "";
      for k := 0 to |KEY_HEADERS|
        invariant Terminated(Pairs(KEY_HEADERS, req.header)) == text + Terminated(Pairs(KEY_HEADERS[k..], req.header))
      {
        var name := KEY_HEADERS[k];
        var value := HeaderOf(req.header, name);
        PairsStep(KEY_HEADERS, k, req.header, text);
        if value != "" { text := text + (name + "\0" + (value + "\0")); }
      }
      assert text + "" == text;
      key := req.verb + " " + req.url + " " + digest(text);
    }

    /** A response goes into the cache and, with the stored headers, to the caller. */
    method Store(key: string, r: Response, now: int) returns (reply: Reply)
      requires c.Ok()
      modifies c
      ensures c.Ok() && c.Contents() == AfterPut(old(c.Contents()), key, EntryOf(r, now), c.maxEntries)
      ensures reply == Success(r)
    {
      var e := c.Put(key, r.status, r.header, r.body, now);
      reply := Success(r.(header := e.header));
    }

    method RoundTrip(req: Request, now: int, upstream: Upstream) returns (reply: Reply)
      requires c.Ok()
      modifies c
      ensures c.Ok()
      ensures (c.Contents(), reply) == Handle(old(c.Contents()), c.ttl, c.maxEntries, digest, req, now, upstream)
    {
      if !IsGet(req) { return upstream(None); }
      var key := Key(req);
      reply := Answer(key, now, upstream);
    }

    method Answer(key: string, now: int, upstream: Upstream) returns (reply: Reply)
      requires c.Ok()
      modifies c
      ensures c.Ok()
      ensures (c.Contents(), reply) == Serve(old(c.Contents()), c.ttl, c.maxEntries, key, now, upstream)
    {
      var hit := c.Get(key);
      if hit.Some? {
        var e := hit.value;
        if c.ttl > 0 && now - e.storedAt < c.ttl { return Success(CachedResponse(e)); }
        if e.ETag() != "" {
          reply := Confirm(key, e, now, upstream);
          return;
        }
      }
      var resp := upstream(None);
      if resp.Failure? { return resp; }
      reply := Store(key, resp.response, now);
    }

    method Confirm(key: string, e: Entry, now: int, upstream: Upstream) returns (reply: Reply)
      requires c.Ok()
      modifies c
      ensures c.Ok()
      ensures (c.Contents(), reply) == Revalidate(old(c.Contents()), c.maxEntries, key, e, now, upstream)
    {
      var resp := upstream(Some(e.ETag()));
      if resp.Failure? { return resp; }
      if resp.response.status == NOT_MODIFIED {
        c.Touch(key, now);
        return Success(CachedResponse(e));
      }
      reply := Store(key, resp.response, now);
    }
  }

  // ----- agreement with the origin

  /** The plain origin: what it answers for a key at a time. */
  type Origin = (string, int) -> Response

  predicate SameContent(a: Response, b: Response) {
    a.status == b.status && a.body == b.body
  }

  /** Section 8.8.1 of RFC 9110: an unchanged validator means an unchanged representation. */
  ghost predicate Validates(origin: Origin) {
    && (forall k, t :: origin(k, t).status != 0 && origin(k, t).status != NOT_MODIFIED)
    && forall k, t, u :: ETagOf(origin(k, t).header) == ETagOf(origin(k, u).header) != "" ==>
         SameContent(origin(k, t), origin(k, u))
  }

  /** The wrapped transport answers as the origin does: it may fail, and it answers 304 only to a
      conditional request whose tag is current. */
  ghost predicate Honest(origin: Origin, key: string, now: int, upstream: Upstream) {
    forall tag :: upstream(tag).Success? ==>
      var r := upstream(tag).response;
      if r.status == NOT_MODIFIED then tag == Some(ETagOf(origin(key, now).header))
      else r == origin(key, now)
  }

  /** Every entry was the origin's answer when it was stored, or confirmed. */
  ghost predicate WasTrue(c: State, origin: Origin, now: int) {
    forall k :: k in c.entries ==>
      var e := c.entries[k];
      && e.storedAt <= now
      && e.status == origin(k, e.storedAt).status && e.body == origin(k, e.storedAt).body
      && e.ETag() == ETagOf(origin(k, e.storedAt).header)
  }

  /** The reply is the origin's answer now, or at a time less than the TTL ago. */
  ghost predicate Current(origin: Origin, key: string, now: int, ttl: nat, r: Response) {
    exists t :: t <= now && (t == now || now - t < ttl) && SameContent(r, origin(key, t))
  }

  lemma ServeIsCurrent(c: State, ttl: nat, max: nat, key: string, now: int, upstream: Upstream, origin: Origin)
    requires Consistent(c, max) && max > 0 && Validates(origin)
    requires WasTrue(c, origin, now) && Honest(origin, key, now, upstream)
    ensures var (c', reply) := Serve(c, ttl, max, key, now, upstream);
            && Consistent(c', max) && WasTrue(c', origin, now)
            && (reply.Success? ==> Current(origin, key, now, ttl, reply.response))
  {
    var found := AfterGet(c, key);
    var (c', reply) := Serve(c, ttl, max, key, now, upstream);
    OperationsKeepValid(c, key, Entry(0, map[], "", 0), now, max);
    OperationsKeepValid(found, key, Entry(0, map[], "", 0), now, max);
    if key in c.entries && Fresh(c.entries[key], ttl, now) {
      assert SameContent(reply.response, origin(key, c.entries[key].storedAt));
    } else if key in c.entries && c.entries[key].ETag() != "" {
      RevalidateIsCurrent(found, max, key, now, upstream, origin);
    } else {
      FetchIsCurrent(found, max, key, now, upstream, origin);
    }
  }

  lemma PutKeepsTrue(c: State, max: nat, key: string, r: Response, now: int, origin: Origin)
    requires Consistent(c, max) && max > 0 && WasTrue(c, origin, now) && r == origin(key, now)
    ensures Consistent(AfterPut(c, key, EntryOf(r, now), max), max)
    ensures WasTrue(AfterPut(c, key, EntryOf(r, now), max), origin, now)
  {
    OperationsKeepValid(c, key, EntryOf(r, now), 0, max);
  }

  lemma FetchIsCurrent(c: State, max: nat, key: string, now: int, upstream: Upstream, origin: Origin)
    requires Consistent(c, max) && max > 0 && Validates(origin)
    requires WasTrue(c, origin, now) && Honest(origin, key, now, upstream)
    ensures var (c', reply) := Fetch(c, max, key, now, upstream);
            && Consistent(c', max) && WasTrue(c', origin, now)
            && (reply.Success? ==> SameContent(reply.response, origin(key, now)))
  {
    if upstream(None).Success? { PutKeepsTrue(c, max, key, upstream(None).response, now, origin); }
  }

  /** A confirmed entry is the origin's answer now. */
  lemma TouchKeepsTrue(c: State, max: nat, key: string, now: int, origin: Origin)
    requires Consistent(c, max) && max > 0 && Validates(origin) && WasTrue(c, origin, now)
    requires key in c.entries && c.entries[key].ETag() == ETagOf(origin(key, now).header) != ""
    ensures Consistent(AfterTouch(c, key, now), max) && WasTrue(AfterTouch(c, key, now), origin, now)
    ensures SameContent(CachedResponse(c.entries[key]), origin(key, now))
  {
    var e, a := c.entries[key], AfterTouch(c, key, now);
    OperationsKeepValid(c, key, e, now, max);
    assert SameContent(origin(key, e.storedAt), origin(key, now));
    assert a.entries[key] == e.(storedAt := now);
    assert forall k :: k in a.entries && k != key ==> k in c.entries && a.entries[k] == c.entries[k];
  }

  lemma RevalidateIsCurrent(c: State, max: nat, key: string, now: int, upstream: Upstream, origin: Origin)
    requires Consistent(c, max) && max > 0 && Validates(origin)
    requires WasTrue(c, origin, now) && Honest(origin, key, now, upstream)
    requires key in c.entries && c.entries[key].ETag() != ""
    ensures var (c', reply) := Revalidate(c, max, key, c.entries[key], now, upstream);
            && Consistent(c', max) && WasTrue(c', origin, now)
            && (reply.Success? ==> SameContent(reply.response, origin(key, now)))
  {
    var e := c.entries[key];
    var reply := upstream(Some(e.ETag()));
    if reply.Success? {
      if reply.response.status == NOT_MODIFIED {
        TouchKeepsTrue(c, max, key, now, origin);
      } else {
        PutKeepsTrue(c, max, key, reply.response, now, origin);
      }
    }
  }

  // ----- keys tell requests apart

  /** Verb and URL without spaces, header values without NUL. */
  predicate Proper(req: Request) {
    && ' ' !in req.verb && ' ' !in req.url
    && forall n :: n in KEY_HEADERS ==> '\0' !in HeaderOf(req.header, n)
  }

  /** The origin may not tell the requests apart. */
  predicate SameRequest(a: Request, b: Request) {
    && a.verb == b.verb && a.url == b.url
    && HeaderOf(a.header, "Authorization") == HeaderOf(b.header, "Authorization")
    && HeaderOf(a.header, "Cookie") == HeaderOf(b.header, "Cookie")
    && HeaderOf(a.header, "X-Grafana-Org-Id") == HeaderOf(b.header, "X-Grafana-Org-Id")
    && HeaderOf(a.header, "Cf-Access-Client-Id") == HeaderOf(b.header, "Cf-Access-Client-Id")
    && HeaderOf(a.header, "Cf-Access-Client-Secret") == HeaderOf(b.header, "Cf-Access-Client-Secret")
    && HeaderOf(a.header, "Accept") == HeaderOf(b.header, "Accept")
  }

  /** The digest does not mistake one request's headers for the other's. */
  predicate Apart(digest: Digest, a: Request, b: Request) {
    digest(Digested(a)) == digest(Digested(b)) ==> Digested(a) == Digested(b)
  }

  lemma FirstSep(a: string, s: string, sep: char)
    requires sep !in a
    ensures (a + [sep] + s)[|a|] == sep && forall k :: 0 <= k < |a| ==> (a + [sep] + s)[k] != sep
  {
    forall k | 0 <= k < |a| ensures (a + [sep] + s)[k] != sep { assert (a + [sep] + s)[k] == a[k] && a[k] in a; }
  }

  lemma FirstSplit(a: string, s: string, b: string, t: string, sep: char)
    requires sep !in a && sep !in b && a + [sep] + s == b + [sep] + t
    ensures a == b && s == t
  {
    var l := a + [sep] + s;
    FirstSep(a, s, sep);
    FirstSep(b, t, sep);
    assert a == l[..|a|] && s == l[|a| + 1..];
    assert b == (b + [sep] + t)[..|b|] && t == (b + [sep] + t)[|b| + 1..];
  }

  lemma {:induction false} TerminatedReadsBack(a: seq<string>, b: seq<string>)
    requires (forall x :: x in a ==> '\0' !in x) && forall x :: x in b ==> '\0' !in x
    requires Terminated(a) == Terminated(b)
    ensures a == b
  {
    if a != [] && b != [] {
      FirstSplit(a[0], Terminated(a[1..]), b[0], Terminated(b[1..]), '\0');
      TerminatedReadsBack(a[1..], b[1..]);
      assert a == [a[0]] + a[1..] && b == [b[0]] + b[1..];
    }
  }

  predicate Different(names: seq<string>) {
    forall i, j :: 0 <= i < j < |names| ==> names[i] != names[j]
  }

  lemma {:induction false} PairsStart(names: seq<string>, h: Header)
    ensures Pairs(names, h) == [] || Pairs(names, h)[0] in names
  {
    if names != [] { PairsStart(names[1..], h); }
  }

  lemma PairsParts(names: seq<string>, h: Header)
    requires names != []
    ensures var value, rest := HeaderOf(h, names[0]), Pairs(names[1..], h);
            if value == "" then Pairs(names, h) == rest
            else |Pairs(names, h)| >= 2 && Pairs(names, h)[0] == names[0] && Pairs(names, h)[1] == value
                 && Pairs(names, h)[2..] == rest
  {
  }

  lemma {:induction false} PairsReadBack(names: seq<string>, g: Header, h: Header)
    requires Different(names) && Pairs(names, g) == Pairs(names, h)
    ensures forall n :: n in names ==> HeaderOf(g, n) == HeaderOf(h, n)
  {
    if names != [] {
      var rest := names[1..];
      PairsStart(rest, g);
      PairsStart(rest, h);
      PairsParts(names, g);
      PairsParts(names, h);
      assert names[0] !in rest;
      PairsReadBack(rest, g, h);
    }
  }

  lemma {:induction false} PairsAreProper(names: seq<string>, h: Header)
    requires forall n :: n in names ==> '\0' !in n && '\0' !in HeaderOf(h, n)
    ensures forall x :: x in Pairs(names, h) ==> '\0' !in x
  {
    if names != [] { PairsAreProper(names[1..], h); }
  }

  lemma SameHeaders(a: Request, b: Request)
    ensures SameRequest(a, b) <==>
              a.verb == b.verb && a.url == b.url
              && forall n :: n in KEY_HEADERS ==> HeaderOf(a.header, n) == HeaderOf(b.header, n)
  {
    forall n | n in KEY_HEADERS
      ensures n in {"Accept", "Authorization", "Cf-Access-Client-Id", "Cf-Access-Client-Secret", "Cookie",
                    "X-Grafana-Org-Id"}
    {
    }
    assert forall k :: 0 <= k < |KEY_HEADERS| ==> KEY_HEADERS[k] in KEY_HEADERS;
    assert KEY_HEADERS[0] == "Accept" && KEY_HEADERS[1] == "Authorization" && KEY_HEADERS[2] == "Cf-Access-Client-Id";
    assert KEY_HEADERS[3] == "Cf-Access-Client-Secret" && KEY_HEADERS[4] == "Cookie";
    assert KEY_HEADERS[5] == "X-Grafana-Org-Id";
  }

  /** Two proper requests share a key exactly if no origin may tell them apart. */
  lemma KeysAgreeIff(digest: Digest, a: Request, b: Request)
    requires Apart(digest, a, b) && Proper(a) && Proper(b)
    ensures KeyOf(digest, a) == KeyOf(digest, b) <==> SameRequest(a, b)
  {
    SameHeaders(a, b);
    if KeyOf(digest, a) == KeyOf(digest, b) { KeysSeparate(digest, a, b); }
    if SameRequest(a, b) { PairsAlike(KEY_HEADERS, a.header, b.header); }
  }

  lemma KeysSeparate(digest: Digest, a: Request, b: Request)
    requires Apart(digest, a, b) && Proper(a) && Proper(b) && KeyOf(digest, a) == KeyOf(digest, b)
    ensures a.verb == b.verb && a.url == b.url
    ensures forall n :: n in KEY_HEADERS ==> HeaderOf(a.header, n) == HeaderOf(b.header, n)
  {
    NamesAreProper();
    KeyParts(digest, a, b);
    PairsAreProper(KEY_HEADERS, a.header);
    PairsAreProper(KEY_HEADERS, b.header);
    TerminatedReadsBack(Pairs(KEY_HEADERS, a.header), Pairs(KEY_HEADERS, b.header));
    PairsReadBack(KEY_HEADERS, a.header, b.header);
  }

  lemma NamesAreProper()
    ensures Different(KEY_HEADERS) && forall n :: n in KEY_HEADERS ==> '\0' !in n
  {
  }

  lemma {:induction false} PairsAlike(names: seq<string>, g: Header, h: Header)
    requires forall n :: n in names ==> HeaderOf(g, n) == HeaderOf(h, n)
    ensures Pairs(names, g) == Pairs(names, h)
  {
    if names != [] { PairsAlike(names[1..], g, h); }
  }

  lemma KeyShape(digest: Digest, a: Request)
    ensures KeyOf(digest, a) == a.verb + [' '] + (a.url + [' '] + digest(Digested(a)))
  {
    AppendAssociates(a.verb + " ", a.url, " ");
    AppendAssociates(a.verb + " ", a.url + " ", digest(Digested(a)));
  }

  lemma KeyParts(digest: Digest, a: Request, b: Request)
    requires Apart(digest, a, b) && Proper(a) && Proper(b) && KeyOf(digest, a) == KeyOf(digest, b)
    ensures a.verb == b.verb && a.url == b.url
    ensures Digested(a) == Digested(b)
  {
    var f, g := digest(Digested(a)), digest(Digested(b));
    KeyShape(digest, a);
    KeyShape(digest, b);
    FirstSplit(a.verb, a.url + [' '] + f, b.verb, b.url + [' '] + g, ' ');
    FirstSplit(a.url, f, b.url, g, ' ');
  }

  // ----- histories of requests

  /** What the origin answers to a request at a time. */
  type Server = (Request, int) -> Response

  /** The origin tells requests apart by verb, URL and the headers above only, and an unchanged validator
      means an unchanged representation. */
  ghost predicate Consistently(server: Server) {
    && (forall a, b, t :: SameRequest(a, b) ==> server(a, t) == server(b, t))
    && (forall a, t :: server(a, t).status != 0 && server(a, t).status != NOT_MODIFIED)
    && forall a, t, u :: ETagOf(server(a, t).header) == ETagOf(server(a, u).header) != "" ==>
         SameContent(server(a, t), server(a, u))
  }

  /** The wrapped transport may fail, and otherwise answers as the server does, with 304 only for a tag that is
      current. */
  ghost predicate Relays(server: Server, req: Request, now: int, upstream: Upstream) {
    forall tag :: upstream(tag).Success? ==>
      var r := upstream(tag).response;
      if r.status == NOT_MODIFIED then tag == Some(ETagOf(server(req, now).header)) else r == server(req, now)
  }

  datatype Call = Call(req: Request, now: int, upstream: Upstream)

  /** The cache before the i-th call of a history that starts with an empty cache. */
  function Before(calls: seq<Call>, i: nat, ttl: nat, max: nat, digest: Digest): State
    requires i <= |calls|
  {
    if i == 0 then State(map[], [])
    else
      var v := calls[i - 1];
      Handle(Before(calls, i - 1, ttl, max, digest), ttl, max, digest, v.req, v.now, v.upstream).0
  }

  function ReplyTo(calls: seq<Call>, i: nat, ttl: nat, max: nat, digest: Digest): Reply
    requires i < |calls|
  {
    Handle(Before(calls, i, ttl, max, digest), ttl, max, digest, calls[i].req, calls[i].now, calls[i].upstream).1
  }

  ghost predicate Plausible(calls: seq<Call>, server: Server) {
    && Consistently(server)
    && (forall i, j :: 0 <= i < j < |calls| ==> calls[i].now <= calls[j].now)
    && forall i :: 0 <= i < |calls| ==>
         Proper(calls[i].req) && Relays(server, calls[i].req, calls[i].now, calls[i].upstream)
  }

  ghost predicate NoCollisions(digest: Digest, calls: seq<Call>) {
    forall i, j :: 0 <= i < |calls| && 0 <= j < |calls| ==> Apart(digest, calls[i].req, calls[j].req)
  }

  predicate HasKey(calls: seq<Call>, digest: Digest, i: nat, key: string) {
    i < |calls| && KeyOf(digest, calls[i].req) == key
  }

  /** The server as an origin for the keys of a history. */
  ghost function ByKey(server: Server, digest: Digest, calls: seq<Call>, key: string, t: int): Response {
    if i: nat :| HasKey(calls, digest, i, key) then server(calls[i].req, t) else Response(OK, map[], "")
  }

  ghost function OriginOf(server: Server, digest: Digest, calls: seq<Call>): Origin {
    (key, t) => ByKey(server, digest, calls, key, t)
  }

  lemma ByKeyIs(server: Server, digest: Digest, calls: seq<Call>, i: nat, t: int)
    requires Plausible(calls, server) && NoCollisions(digest, calls) && i < |calls|
    ensures ByKey(server, digest, calls, KeyOf(digest, calls[i].req), t) == server(calls[i].req, t)
  {
    var key := KeyOf(digest, calls[i].req);
    assert HasKey(calls, digest, i, key);
    var j: nat :| HasKey(calls, digest, j, key) && ByKey(server, digest, calls, key, t) == server(calls[j].req, t);
    assert HasKey(calls, digest, j, key) && j < |calls|;
    assert Apart(digest, calls[j].req, calls[i].req);
    assert Proper(calls[i].req) && Proper(calls[j].req);
    KeysAgreeIff(digest, calls[j].req, calls[i].req);
  }

  lemma OriginValidates(server: Server, digest: Digest, calls: seq<Call>)
    requires Plausible(calls, server) && NoCollisions(digest, calls)
    ensures Validates(OriginOf(server, digest, calls))
  {
    var origin := OriginOf(server, digest, calls);
    forall key, t, u
      ensures origin(key, t).status != 0 && origin(key, t).status != NOT_MODIFIED
      ensures ETagOf(origin(key, t).header) == ETagOf(origin(key, u).header) != "" ==>
                SameContent(origin(key, t), origin(key, u))
    {
      if i: nat :| HasKey(calls, digest, i, key) {
        ByKeyIs(server, digest, calls, i, t);
        ByKeyIs(server, digest, calls, i, u);
      }
    }
  }

  lemma RelaysHonestly(server: Server, digest: Digest, calls: seq<Call>, i: nat)
    requires Plausible(calls, server) && NoCollisions(digest, calls) && i < |calls|
    ensures Honest(OriginOf(server, digest, calls), KeyOf(digest, calls[i].req), calls[i].now, calls[i].upstream)
  {
    ByKeyIs(server, digest, calls, i, calls[i].now);
    assert Relays(server, calls[i].req, calls[i].now, calls[i].upstream);
  }

  lemma {:induction false} CacheWasTrue(calls: seq<Call>, i: nat, ttl: nat, max: nat, digest: Digest, server: Server,
                                        now: int)
    requires Plausible(calls, server) && NoCollisions(digest, calls) && i <= |calls| && max > 0
    requires i > 0 ==> calls[i - 1].now <= now
    ensures Consistent(Before(calls, i, ttl, max, digest), max)
    ensures WasTrue(Before(calls, i, ttl, max, digest), OriginOf(server, digest, calls), now)
  {
    if i > 0 {
      CacheWasTrue(calls, i - 1, ttl, max, digest, server, calls[i - 1].now);
      CallIsCurrent(Before(calls, i - 1, ttl, max, digest), ttl, max, digest, server, calls, i - 1);
    }
  }

  lemma CallIsCurrent(c: State, ttl: nat, max: nat, digest: Digest, server: Server, calls: seq<Call>, i: nat)
    requires Plausible(calls, server) && NoCollisions(digest, calls) && i < |calls|
    requires Consistent(c, max) && max > 0 && WasTrue(c, OriginOf(server, digest, calls), calls[i].now)
    ensures var v := calls[i];
            var (c', reply) := Handle(c, ttl, max, digest, v.req, v.now, v.upstream);
            && Consistent(c', max) && WasTrue(c', OriginOf(server, digest, calls), v.now)
            && (IsGet(v.req) && reply.Success? ==> IsCurrent(server, v.req, v.now, ttl, reply.response))
  {
    var v := calls[i];
    if IsGet(v.req) {
      var origin, key := OriginOf(server, digest, calls), KeyOf(digest, v.req);
      OriginValidates(server, digest, calls);
      RelaysHonestly(server, digest, calls, i);
      ServeIsCurrent(c, ttl, max, key, v.now, v.upstream, origin);
      var reply := Serve(c, ttl, max, key, v.now, v.upstream).1;
      if reply.Success? {
        var t :| t <= v.now && (t == v.now || v.now - t < ttl) && SameContent(reply.response, origin(key, t));
        ByKeyIs(server, digest, calls, i, t);
      }
    }
  }

  /** The reply is what the server answers to this very request, now or less than the lifetime ago. */
  ghost predicate IsCurrent(server: Server, req: Request, now: int, ttl: nat, r: Response) {
    exists t :: t <= now && (t == now || now - t < ttl) && SameContent(r, server(req, t))
  }

  /** Over every history of requests, any cache size and any evictions: a GET is answered with what the server
      answers to this very request, now or less than the lifetime ago; anything else goes to the server. */
  lemma RepliesAreCurrent(calls: seq<Call>, i: nat, ttl: nat, max: nat, digest: Digest, server: Server)
    requires Plausible(calls, server) && NoCollisions(digest, calls) && i < |calls| && max > 0
    ensures var v, answer := calls[i], ReplyTo(calls, i, ttl, max, digest);
            && (IsGet(v.req) && answer.Success? ==> IsCurrent(server, v.req, v.now, ttl, answer.response))
            && (!IsGet(v.req) ==> answer == v.upstream(None))
  {
    CacheWasTrue(calls, i, ttl, max, digest, server, calls[i].now);
    CallIsCurrent(Before(calls, i, ttl, max, digest), ttl, max, digest, server, calls, i);
  }

  /** Transparency: without a lifetime every GET is answered with what the server would answer directly. */
  lemma ZeroTtlIsTransparent(calls: seq<Call>, i: nat, max: nat, digest: Digest, server: Server)
    requires Plausible(calls, server) && NoCollisions(digest, calls) && i < |calls| && max > 0 && IsGet(calls[i].req)
    requires ReplyTo(calls, i, 0, max, digest).Success?
    ensures SameContent(ReplyTo(calls, i, 0, max, digest).response, server(calls[i].req, calls[i].now))
  {
    RepliesAreCurrent(calls, i, 0, max, digest, server);
  }

  // ----- what the server is spared

  /** A fresh entry is served whatever the server would say, or even if it would fail. */
  lemma FreshIsServedLocally(c: State, ttl: nat, max: nat, key: string, now: int, upstream: Upstream)
    requires key in c.entries && ttl > 0 && now - c.entries[key].storedAt < ttl && c.entries[key].status != 0
    ensures var (c', reply) := Serve(c, ttl, max, key, now, upstream);
            && reply == Success(Response(c.entries[key].status, c.entries[key].header, c.entries[key].body))
            && c'.entries == c.entries
  {
  }

  /** A stale entry with a tag is asked for with its tag only, and not fetched when it is confirmed. */
  lemma StaleIsRevalidated(c: State, ttl: nat, max: nat, key: string, now: int, upstream: Upstream, other: Upstream)
    requires key in c.entries && !(ttl > 0 && now - c.entries[key].storedAt < ttl) && c.entries[key].ETag() != ""
    requires upstream(Some(c.entries[key].ETag())) == other(Some(c.entries[key].ETag()))
    ensures Serve(c, ttl, max, key, now, upstream) == Serve(c, ttl, max, key, now, other)
    ensures var answer := upstream(Some(c.entries[key].ETag()));
            var (c', reply) := Serve(c, ttl, max, key, now, upstream);
            answer.Success? && answer.response.status == 304 && c.entries[key].status != 0 ==>
              && reply == Success(Response(c.entries[key].status, c.entries[key].header, c.entries[key].body))
              && key in c'.entries && c'.entries[key] == c.entries[key].(storedAt := now)
  {
  }

  /** What was fetched is served locally for its lifetime: a GET for it right afterwards does not reach the
      server. */
  lemma RepeatIsServedLocally(c: State, ttl: nat, max: nat, digest: Digest, a: Call, b: Call)
    requires Consistent(c, max) && max > 0 && IsGet(a.req) && IsGet(b.req) && SameRequest(a.req, b.req)
    requires KeyOf(digest, a.req) !in c.entries && a.upstream(None).Success? && 0 <= b.now - a.now < ttl
    requires a.upstream(None).response.status != 0
    ensures var (c', first) := Handle(c, ttl, max, digest, a.req, a.now, a.upstream);
            first == a.upstream(None) && Handle(c', ttl, max, digest, b.req, b.now, b.upstream).1 == first
  {
    var r, key := a.upstream(None).response, KeyOf(digest, a.req);
    SameHeaders(a.req, b.req);
    PairsAlike(KEY_HEADERS, a.req.header, b.req.header);
    OperationsKeepValid(c, key, EntryOf(r, a.now), 0, max);
    FreshIsServedLocally(AfterPut(c, key, EntryOf(r, a.now), max), ttl, max, key, b.now, b.upstream);
  }
}
