/** The tar reader of the launcher, on the decompressed bytes: listing the names and extracting a file
    walk the same 512-byte headers. */
module Tar {
  import opened Text
  import opened ByteBuffer

  const BLOCK := 512

  /** Buffer.toString("utf8"). */
  type Decode = Bytes -> string

  predicate JsSpace(c: char) {
    c == '\U{FEFF}' || (IsSpace(c) && c != '\U{85}')
  }

  predicate LineEnd(c: char) {
    c == '\n' || c == '\r' || c == '\U{2028}' || c == '\U{2029}'
  }

  function JsTrimLeft(s: string): string {
    if s != "" && JsSpace(s[0]) then JsTrimLeft(s[1..]) else s
  }

  function JsTrimRight(s: string): string {
    if s != "" && JsSpace(s[|s| - 1]) then JsTrimRight(s[..|s| - 1]) else s
  }

  function JsTrim(s: string): string {
    JsTrimRight(JsTrimLeft(s))
  }

  /** replace(/\0.*$/, ""): the dot does not cross a line end. */
  function CutNul(s: string): string {
    if s == "" then ""
    else if s[0] == '\0' && (forall i :: 1 <= i < |s| ==> !LineEnd(s[i])) then ""
    else [s[0]] + CutNul(s[1..])
  }

  predicate OctalDigit(c: char) {
    '0' <= c <= '7'
  }

  function DigitValue(c: char): int {
    if OctalDigit(c) then (c - '0') as int else 0
  }

  function OctalPrefix(s: string, n: int): int {
    if s != "" && OctalDigit(s[0]) then OctalPrefix(s[1..], n * 8 + (s[0] - '0') as int) else n
  }

  /** parseInt(s, 8) || 0 */
  function ParseOctal(s: string): int {
    var t := JsTrimLeft(s);
    if t != "" && t[0] == '-' then -OctalPrefix(t[1..], 0)
    else if t != "" && t[0] == '+' then OctalPrefix(t[1..], 0)
    else OctalPrefix(t, 0)
  }

  function Field(decode: Decode, b: Bytes): string {
    JsTrim(CutNul(decode(b)))
  }

  /** The 512 bytes of a header. In front of the buffer the bounds count from its end, and there may be
      fewer bytes or none. */
  function Header(d: Bytes, at: int): Bytes {
    SubArray(d, at, at + BLOCK)
  }

  predicate HeaderAt(d: Bytes, at: int) {
    at + BLOCK <= |d| && exists i :: 0 <= i < |Header(d, at)| && Header(d, at)[i] != 0
  }

  function NameAt(decode: Decode, d: Bytes, at: int): string {
    Field(decode, SubArray(Header(d, at), 0, 100))
  }

  function SizeAt(decode: Decode, d: Bytes, at: int): int {
    ParseOctal(Field(decode, SubArray(Header(d, at), 124, 136)))
  }

  function DataAt(d: Bytes, at: int, size: int): Bytes {
    SubArray(d, at + BLOCK, at + BLOCK + size)
  }

  /** Math.ceil(size / 512) */
  function Blocks(size: int): int {
    -((-size) / BLOCK)
  }

  function NextHeader(at: int, size: int): int {
    at + BLOCK + Blocks(size) * BLOCK
  }

  /** The walk moves forward exactly past entries whose size is above -512; a size field can be
      negative when it starts with a minus sign. */
  lemma ForwardIff(at: int, size: int)
    ensures NextHeader(at, size) > at <==> size > -BLOCK
    ensures NextHeader(at, size) == at <==> -2 * BLOCK < size <= -BLOCK
    ensures size > -BLOCK ==> NextHeader(at, size) >= at + BLOCK
  {
  }

  datatype Entry = Entry(name: string, size: int)

  /** The decompressed archive as the two loops see it: its length, the header at a place unless it is a
      zero block or behind the end, and the data behind a header. */
  datatype Tape = Tape(len: nat, header: int -> Option<Entry>, data: (int, int) -> Bytes)

  function TapeOf(decode: Decode, d: Bytes): Tape {
    Tape(|d|,
         at => if HeaderAt(d, at) then Some(Entry(NameAt(decode, d, at), SizeAt(decode, d, at))) else None,
         (at, size) => DataAt(d, at, size))
  }

  /** Unfinished when the walk has not ended within the given number of turns. */
  datatype Listing = Listed(names: seq<string>) | Unfinished

  datatype Extraction = Found(data: Bytes) | NotFound | Searching

  // ----- the meaning of the two walks

  function Then(names: seq<string>, rest: Listing): Listing {
    match rest case Listed(more) => Listed(names + more) case Unfinished => Unfinished
  }

  function Names(name: string): seq<string> {
    if name != "" then [name] else []
  }

  /** Where the walk goes from a header, if it goes on. */
  function Step(t: Tape, at: int): Option<int> {
    match t.header(at)
    case None => None
    case Some(e) => if at + BLOCK + e.size > t.len then None else Some(NextHeader(at, e.size))
  }

  function List(t: Tape, at: int, turns: nat): Listing
    decreases turns
  {
    if turns == 0 then Unfinished
    else if t.header(at).None? then Listed([])
    else
      match Step(t, at)
      case None => Listed(Names(t.header(at).value.name))
      case Some(next) => Then(Names(t.header(at).value.name), List(t, next, turns - 1))
  }

  function Extract(t: Tape, name: string, at: int, turns: nat): Extraction
    decreases turns
  {
    if turns == 0 then Searching
    else if t.header(at).None? then NotFound
    else if t.header(at).value.name == name then Found(t.data(at, t.header(at).value.size))
    else
      match Step(t, at)
      case None => NotFound
      case Some(next) => Extract(t, name, next, turns - 1)
  }

  // ----- the two loops

  /** Enough turns for every walk that ends. */
  function Turns(len: nat): nat {
    2 * len + 1
  }

  method ListTape(t: Tape) returns (r: Listing)
    ensures r == List(t, 0, Turns(t.len))
  {
    var files: seq<string>, offset := [], 0;
    for turn := 0 to Turns(t.len)
      invariant List(t, 0, Turns(t.len)) == Then(files, List(t, offset, Turns(t.len) - turn))
    {
      if t.header(offset).None? {
        assert files + [] == files;
        return Listed(files);
      }
      var e := t.header(offset).value;
      ThenAssociates(files, Names(e.name), List(t, NextHeader(offset, e.size), Turns(t.len) - turn - 1));
      if e.name != "" { files := files + [e.name]; } else { assert files + [] == files; }
      var dataEnd := offset + BLOCK + e.size;
      offset := NextHeader(offset, e.size);
      if dataEnd > t.len { return Listed(files); }
    }
    r := Unfinished;
  }

  lemma ThenAssociates(a: seq<string>, b: seq<string>, rest: Listing)
    ensures Then(a, Then(b, rest)) == Then(a + b, rest)
  {
    if rest.Listed? { AppendAssociates(a, b, rest.names); }
  }

  method ExtractFromTape(t: Tape, name: string) returns (r: Extraction)
    ensures r == Extract(t, name, 0, Turns(t.len))
  {
    var offset := 0;
    for turn := 0 to Turns(t.len)
      invariant Extract(t, name, 0, Turns(t.len)) == Extract(t, name, offset, Turns(t.len) - turn)
    {
      if t.header(offset).None? { return NotFound; }
      var e := t.header(offset).value;
      if e.name == name { return Found(t.data(offset, e.size)); }
      var dataEnd := offset + BLOCK + e.size;
      offset := NextHeader(offset, e.size);
      if dataEnd > t.len { return NotFound; }
    }
    r := Searching;
  }

  method ListFiles(decode: Decode, d: Bytes) returns (r: Listing)
    ensures r == List(TapeOf(decode, d), 0, Turns(|d|))
  {
    r := ListTape(TapeOf(decode, d));
  }

  method ExtractFile(decode: Decode, d: Bytes, name: string) returns (r: Extraction)
    ensures r == Extract(TapeOf(decode, d), name, 0, Turns(|d|))
  {
    r := ExtractFromTape(TapeOf(decode, d), name);
  }

  // ----- walks that go on for ever

  type Walk = int -> Option<int>

  predicate Goes(walk: Walk, at: int, turns: nat)
    decreases turns
  {
    turns == 0 || (walk(at).Some? && Goes(walk, walk(at).value, turns - 1))
  }

  /** Where the walk stands after the turns it makes. */
  function Place(walk: Walk, at: int, turns: nat): int
    decreases turns
  {
    if turns == 0 || walk(at).None? then at else Place(walk, walk(at).value, turns - 1)
  }

  lemma {:induction false} GoesSplits(walk: Walk, at: int, a: nat, b: nat)
    ensures Goes(walk, at, a + b) <==> Goes(walk, at, a) && Goes(walk, Place(walk, at, a), b)
    decreases a
  {
    if a > 0 && walk(at).Some? { GoesSplits(walk, walk(at).value, a - 1, b); }
  }

  lemma {:induction false} PlaceSplits(walk: Walk, at: int, a: nat, b: nat)
    requires Goes(walk, at, a)
    ensures Place(walk, at, a + b) == Place(walk, Place(walk, at, a), b)
    decreases a
  {
    if a > 0 { PlaceSplits(walk, walk(at).value, a - 1, b); }
  }

  /** A walk that comes back to a place never ends. */
  lemma {:induction false} CyclesGoOn(walk: Walk, at: int, period: nat, turns: nat)
    requires period > 0 && Goes(walk, at, period) && Place(walk, at, period) == at
    ensures Goes(walk, at, turns)
    decreases turns
  {
    if turns > period {
      CyclesGoOn(walk, at, period, turns - period);
      GoesSplits(walk, at, period, turns - period);
    } else {
      GoesSplits(walk, at, turns, period - turns);
    }
  }

  lemma {:induction false} RangeSize(lo: int, n: nat, s: set<int>)
    requires forall x :: x in s ==> lo <= x < lo + n
    ensures |s| <= n
    decreases n
  {
    if n > 0 {
      RangeSize(lo, n - 1, s - {lo + n - 1});
    } else {
      assert forall x :: x in s <==> x in {};
    }
  }

  /** The places of the first n turns. */
  function Places(walk: Walk, at: int, n: nat): seq<int> {
    seq(n, k requires 0 <= k < n => Place(walk, at, k))
  }

  lemma {:induction false} DistinctCount(s: seq<int>)
    requires forall i, j :: 0 <= i < j < |s| ==> s[i] != s[j]
    ensures |set x | x in s| == |s|
  {
    if s != [] {
      var p, c := s[..|s| - 1], s[|s| - 1];
      DistinctCount(p);
      assert s == p + [c] && c !in p;
      assert (set x | x in s) == (set x | x in p) + {c};
    }
  }

  lemma {:induction false} PlaceIsLive(walk: Walk, at: int, turns: nat, k: nat)
    requires Goes(walk, at, turns) && k < turns
    ensures walk(Place(walk, at, k)).Some?
    decreases k
  {
    if k > 0 { PlaceIsLive(walk, walk(at).value, turns - 1, k - 1); }
  }

  /** The walk comes back to the place of turn i at turn j. */
  predicate Returns(walk: Walk, at: int, i: nat, j: nat) {
    i < j && Goes(walk, at, j) && Place(walk, at, i) == Place(walk, at, j)
  }

  /** A walk over n possible places that makes n + 1 turns visits one of them twice. */
  lemma LongWalkReturns(walk: Walk, lo: int, n: nat, at: int)
    requires forall a :: walk(a).Some? ==> lo <= a < lo + n
    requires Goes(walk, at, n + 1)
    ensures exists i, j :: Returns(walk, at, i, j)
  {
    var ps := Places(walk, at, n + 1);
    forall k | 0 <= k <= n ensures lo <= ps[k] < lo + n { PlaceIsLive(walk, at, n + 1, k); }
    if forall i, j :: 0 <= i < j < |ps| ==> ps[i] != ps[j] {
      DistinctCount(ps);
      RangeSize(lo, n, set x | x in ps);
      assert false;
    }
    var i, j :| 0 <= i < j < |ps| && ps[i] == ps[j];
    GoesSplits(walk, at, j, n + 1 - j);
    assert Returns(walk, at, i, j);
  }

  lemma ReturnGoesOn(walk: Walk, at: int, i: nat, j: nat, turns: nat)
    requires Returns(walk, at, i, j)
    ensures Goes(walk, at, turns)
  {
    GoesSplits(walk, at, i, j - i);
    PlaceSplits(walk, at, i, j - i);
    CyclesGoOn(walk, Place(walk, at, i), j - i, turns);
    GoesSplits(walk, at, i, turns);
    GoesSplits(walk, at, turns, i);
  }

  // ----- when the two walks end

  function ListWalk(t: Tape): Walk {
    at => Step(t, at)
  }

  function ExtractWalk(t: Tape, name: string): Walk {
    at => if t.header(at).Some? && t.header(at).value.name == name then None else Step(t, at)
  }

  lemma {:induction false} UnfinishedIff(t: Tape, at: int, turns: nat)
    ensures List(t, at, turns).Unfinished? <==> Goes(ListWalk(t), at, turns)
    decreases turns
  {
    if turns > 0 && Step(t, at).Some? { UnfinishedIff(t, Step(t, at).value, turns - 1); }
  }

  lemma {:induction false} SearchingIff(t: Tape, name: string, at: int, turns: nat)
    ensures Extract(t, name, at, turns).Searching? <==> Goes(ExtractWalk(t, name), at, turns)
    decreases turns
  {
    var walk := ExtractWalk(t, name);
    if turns > 0 && walk(at).Some? { SearchingIff(t, name, walk(at).value, turns - 1); }
  }

  /** Headers are read only at places from behind -len - 512 up to len - 512. */
  ghost predicate Bounded(t: Tape) {
    forall at :: t.header(at).Some? ==> 0 - t.len - BLOCK < at <= t.len - BLOCK
  }

  lemma BuffersAreBounded(decode: Decode, d: Bytes)
    ensures Bounded(TapeOf(decode, d))
  {
    forall at | HeaderAt(d, at) ensures -|d| - BLOCK < at <= |d| - BLOCK {
    }
  }

  /** The listing of any bytes ends in the number of turns of the model, or never. */
  lemma ListingIsDecided(decode: Decode, d: Bytes, turns: nat)
    requires List(TapeOf(decode, d), 0, Turns(|d|)).Unfinished?
    ensures List(TapeOf(decode, d), 0, turns).Unfinished?
  {
    var t := TapeOf(decode, d);
    BuffersAreBounded(decode, d);
    UnfinishedIff(t, 0, Turns(|d|));
    BoundedWalkGoesOn(t, ListWalk(t), turns);
    UnfinishedIff(t, 0, turns);
  }

  /** The listing ends exactly if it never comes back to a place. */
  lemma ListingEndsIff(decode: Decode, d: Bytes)
    ensures List(TapeOf(decode, d), 0, Turns(|d|)).Listed? <==>
            forall i, j :: !Returns(ListWalk(TapeOf(decode, d)), 0, i, j)
  {
    BuffersAreBounded(decode, d);
    EndsIffNoReturn(TapeOf(decode, d));
  }

  lemma EndsIffNoReturn(t: Tape)
    requires Bounded(t)
    ensures List(t, 0, Turns(t.len)).Listed? <==> forall i, j :: !Returns(ListWalk(t), 0, i, j)
  {
    var walk := ListWalk(t);
    UnfinishedIff(t, 0, Turns(t.len));
    if Goes(walk, 0, Turns(t.len)) {
      LongWalkReturns(walk, 1 - t.len - BLOCK, 2 * t.len, 0);
    } else {
      forall i, j ensures !Returns(walk, 0, i, j) {
        if Returns(walk, 0, i, j) { ReturnGoesOn(walk, 0, i, j, Turns(t.len)); }
      }
    }
  }

  lemma ExtractionIsDecided(decode: Decode, d: Bytes, name: string, turns: nat)
    requires Extract(TapeOf(decode, d), name, 0, Turns(|d|)).Searching?
    ensures Extract(TapeOf(decode, d), name, 0, turns).Searching?
  {
    var t := TapeOf(decode, d);
    BuffersAreBounded(decode, d);
    SearchingIff(t, name, 0, Turns(|d|));
    BoundedWalkGoesOn(t, ExtractWalk(t, name), turns);
    SearchingIff(t, name, 0, turns);
  }

  lemma BoundedWalkGoesOn(t: Tape, walk: Walk, turns: nat)
    requires Bounded(t) && forall at :: walk(at).Some? ==> t.header(at).Some?
    requires Goes(walk, 0, Turns(t.len))
    ensures Goes(walk, 0, turns)
  {
    LongWalkReturns(walk, 1 - t.len - BLOCK, 2 * t.len, 0);
    var i, j :| Returns(walk, 0, i, j);
    ReturnGoesOn(walk, 0, i, j, turns);
  }

  /** More turns do not change an answer. */
  lemma {:induction false} AnswersStay(t: Tape, name: string, at: int, turns: nat, more: nat)
    requires turns <= more
    ensures List(t, at, turns).Listed? ==> List(t, at, more) == List(t, at, turns)
    ensures !Extract(t, name, at, turns).Searching? ==> Extract(t, name, at, more) == Extract(t, name, at, turns)
    decreases turns
  {
    if turns > 0 && Step(t, at).Some? { AnswersStay(t, name, Step(t, at).value, turns - 1, more - 1); }
  }

  /** The listing meets no size of -512 or less. */
  ghost predicate SizesForward(t: Tape) {
    forall k: nat :: ForwardAt(t, k)
  }

  /** If the listing makes k turns, the header it then stands at has no such size. */
  predicate ForwardAt(t: Tape, k: nat) {
    var e := t.header(Place(ListWalk(t), 0, k));
    Goes(ListWalk(t), 0, k) && e.Some? ==> e.value.size > -BLOCK
  }

  lemma {:induction false} ForwardPlaces(t: Tape, k: nat)
    requires SizesForward(t) && Goes(ListWalk(t), 0, k)
    ensures Place(ListWalk(t), 0, k) >= BLOCK * k
  {
    if k > 0 {
      var walk := ListWalk(t);
      GoesSplits(walk, 0, k - 1, 1);
      PlaceSplits(walk, 0, k - 1, 1);
      ForwardPlaces(t, k - 1);
      var at := Place(walk, 0, k - 1);
      assert ForwardAt(t, k - 1) && walk(at).Some?;
      assert Place(walk, at, 1) == NextHeader(at, t.header(at).value.size);
      ForwardIff(at, t.header(at).value.size);
    }
  }

  /** When the listing ends, every search does. */
  lemma {:induction false} ListedEndsSearch(t: Tape, name: string, at: int, turns: nat)
    requires List(t, at, turns).Listed?
    ensures !Extract(t, name, at, turns).Searching?
    decreases turns
  {
    if Step(t, at).Some? { ListedEndsSearch(t, name, Step(t, at).value, turns - 1); }
  }

  /** If the listing meets no size of -512 or less, both walks end, after at most one turn for each block. */
  lemma WalksEnd(decode: Decode, d: Bytes, name: string)
    requires SizesForward(TapeOf(decode, d))
    ensures List(TapeOf(decode, d), 0, |d| / BLOCK + 1).Listed?
    ensures !Extract(TapeOf(decode, d), name, 0, |d| / BLOCK + 1).Searching?
  {
    BuffersAreBounded(decode, d);
    ForwardWalksEnd(TapeOf(decode, d), name);
  }

  lemma ForwardWalksEnd(t: Tape, name: string)
    requires SizesForward(t) && Bounded(t)
    ensures List(t, 0, t.len / BLOCK + 1).Listed?
    ensures !Extract(t, name, 0, t.len / BLOCK + 1).Searching?
  {
    var walk, n := ListWalk(t), t.len / BLOCK;
    UnfinishedIff(t, 0, n + 1);
    GoesSplits(walk, 0, n, 1);
    if Goes(walk, 0, n) { ForwardPlaces(t, n); }
    assert t.header(Place(walk, 0, n)).Some? ==> Place(walk, 0, n) <= t.len - BLOCK;
    ListedEndsSearch(t, name, 0, n + 1);
  }

  /** A size from -1023 to -512 keeps the walk where it is. */
  lemma {:induction false} StandsStill(t: Tape, at: int, turns: nat)
    requires t.header(at).Some? && -2 * BLOCK < t.header(at).value.size <= -BLOCK && at <= t.len
    ensures List(t, at, turns).Unfinished?
    ensures forall name :: name != t.header(at).value.name ==> Extract(t, name, at, turns).Searching?
    decreases turns
  {
    ForwardIff(at, t.header(at).value.size);
    if turns > 0 { StandsStill(t, at, turns - 1); }
  }

  /** From the start, a size from -1535 to -1024 leads in front of the buffer, where no header is read: the
      walk ends, and the name is listed. */
  lemma StepsInFront(decode: Decode, d: Bytes, turns: nat)
    requires HeaderAt(d, 0) && -3 * BLOCK < SizeAt(decode, d, 0) <= -2 * BLOCK && turns >= 2
    ensures List(TapeOf(decode, d), 0, turns) == Listed(Names(NameAt(decode, d, 0)))
  {
    var t := TapeOf(decode, d);
    assert !HeaderAt(d, -BLOCK) by { assert Header(d, -BLOCK) == []; }
    EndsInFront(t, NameAt(decode, d, 0), SizeAt(decode, d, 0), turns);
  }

  lemma EndsInFront(t: Tape, name: string, size: int, turns: nat)
    requires t.header(0) == Some(Entry(name, size)) && t.header(-BLOCK).None?
    requires -3 * BLOCK < size <= -2 * BLOCK && turns >= 2
    ensures List(t, 0, turns) == Listed(Names(name))
  {
    assert NextHeader(0, size) == -BLOCK;
    assert Names(name) + [] == Names(name);
  }

  /** A listed name never fails to extract, and no other name but the empty one extracts. */
  lemma {:induction false} ListedIffExtracts(t: Tape, name: string, at: int, turns: nat)
    requires List(t, at, turns).Listed? && name != ""
    ensures name in List(t, at, turns).names <==> Extract(t, name, at, turns).Found?
    ensures !Extract(t, name, at, turns).Searching?
    decreases turns
  {
    if Step(t, at).Some? { ListedIffExtracts(t, name, Step(t, at).value, turns - 1); }
  }

  /** An entry without a name is passed over. */
  lemma {:induction false} EmptyNamesAreNotListed(t: Tape, at: int, turns: nat)
    requires List(t, at, turns).Listed?
    ensures "" !in List(t, at, turns).names
    decreases turns
  {
    if Step(t, at).Some? { EmptyNamesAreNotListed(t, Step(t, at).value, turns - 1); }
  }

  /** A size may have a sign. */
  lemma SignReads(s: string)
    requires s != "" && OctalDigit(s[0])
    ensures ParseOctal("+" + s) == ParseOctal(s) && ParseOctal("-" + s) == -ParseOctal(s)
  {
    assert ("+" + s)[1..] == s && ("-" + s)[1..] == s;
    assert JsTrimLeft("+" + s) == "+" + s && JsTrimLeft("-" + s) == "-" + s && JsTrimLeft(s) == s;
  }

  // ----- archives

  datatype Member = Member(name: string, data: Bytes)

  predicate Ascii(b: Bytes) {
    forall i :: 0 <= i < |b| ==> b[i] < 128
  }

  function Chars(b: Bytes): string
    requires Ascii(b)
  {
    seq(|b|, i requires 0 <= i < |b| => b[i] as char)
  }

  /** ASCII bytes decode to themselves. */
  ghost predicate Transparent(decode: Decode) {
    forall b: Bytes :: Ascii(b) ==> decode(b) == Chars(b)
  }

  /** A name the reader gives back: not empty, no NUL, no white space at its ends. */
  predicate PlainName(s: string) {
    s != "" && '\0' !in s && !JsSpace(s[0]) && !JsSpace(s[|s| - 1])
  }

  predicate NameField(b: Bytes, name: string) {
    && |name| <= |b| && Ascii(b) && PlainName(name)
    && Chars(b)[..|name|] == name && forall i :: |name| <= i < |b| ==> b[i] == 0
  }

  function OctalValue(s: string): int {
    if s == "" then 0 else OctalValue(s[..|s| - 1]) * 8 + DigitValue(s[|s| - 1])
  }

  /** Octal digits, and then nothing or anything that starts with a NUL or a space. */
  predicate SizeField(b: Bytes, size: nat) {
    Ascii(b) &&
    exists n :: 0 < n <= |b| && OctalField(Chars(b), n, size)
  }

  predicate OctalField(s: string, n: nat, size: nat)
    requires n <= |s|
  {
    && (forall i :: 0 <= i < n ==> OctalDigit(s[i])) && OctalValue(s[..n]) == size
    && (n < |s| ==> s[n] == '\0' || s[n] == ' ')
  }

  /** A header of a member with its data behind it, whatever its other fields say. */
  predicate MemberAt(d: Bytes, m: Member, at: nat) {
    && CanRead(d, at, BLOCK)
    && NameField(d[at..at + 100], m.name) && SizeField(d[at + 124..at + 136], |m.data|)
    && Has(d, at + BLOCK, m.data)
  }

  predicate MemberStep(d: Bytes, members: seq<Member>, offsets: seq<nat>, k: nat)
    requires k < |members| && |offsets| == |members| + 1
  {
    MemberAt(d, members[k], offsets[k]) && offsets[k + 1] == NextHeader(offsets[k], |members[k].data|)
  }

  /** Members one behind the other from the start, ended by a zero block or the end of the bytes. */
  predicate Archive(d: Bytes, members: seq<Member>, offsets: seq<nat>) {
    && |offsets| == |members| + 1 && offsets[0] == 0
    && (forall k :: 0 <= k < |members| ==> MemberStep(d, members, offsets, k))
    && !HeaderAt(d, offsets[|members|])
  }

  lemma JsTrimOfPlain(s: string)
    requires s != "" && !JsSpace(s[0]) && !JsSpace(s[|s| - 1])
    ensures JsTrim(s) == s
  {
  }

  lemma {:induction false} CutNulAtPadding(s: string, n: nat)
    requires n <= |s| && '\0' !in s[..n] && forall i :: n <= i < |s| ==> s[i] == '\0'
    ensures CutNul(s) == s[..n]
    decreases n
  {
    if n > 0 {
      assert s[0] == s[..n][0];
      assert s[1..][..n - 1] == s[..n][1..];
      CutNulAtPadding(s[1..], n - 1);
      assert s[..n] == [s[0]] + s[..n][1..];
    } else if s != "" {
      assert s[0] == '\0';
    }
  }

  lemma NameReadsBack(decode: Decode, b: Bytes, name: string)
    requires Transparent(decode) && NameField(b, name)
    ensures Field(decode, b) == name
  {
    var s := Chars(b);
    assert forall i :: |name| <= i < |b| ==> s[i] == '\0';
    CutNulAtPadding(s, |name|);
    JsTrimOfPlain(name);
  }

  /** Cutting and trimming leave the digits alone. */
  lemma {:induction false} CutKeepsDigits(s: string, n: nat)
    requires n <= |s| && forall i :: 0 <= i < n ==> OctalDigit(s[i])
    ensures |CutNul(s)| >= n && CutNul(s)[..n] == s[..n] && CutNul(s) <= s
    decreases |s|
  {
    if s != "" {
      CutKeepsDigits(s[1..], if n > 0 then n - 1 else 0);
      if n > 0 {
        assert OctalDigit(s[0]);
        assert s[1..][..n - 1] == s[..n][1..];
        assert CutNul(s)[..n] == [s[0]] + CutNul(s[1..])[..n - 1];
        assert s[..n] == [s[0]] + s[..n][1..];
      }
      assert s == [s[0]] + s[1..];
    }
  }

  lemma {:induction false} TrimKeepsDigits(s: string, n: nat)
    requires 0 < n <= |s| && forall i :: 0 <= i < n ==> OctalDigit(s[i])
    ensures |JsTrim(s)| >= n && JsTrim(s) <= s
    decreases |s|
  {
    assert OctalDigit(s[0]) && JsTrimLeft(s) == s;
    TrimRightKeepsDigits(s, n);
  }

  lemma {:induction false} TrimRightKeepsDigits(s: string, n: nat)
    requires 0 < n <= |s| && forall i :: 0 <= i < n ==> OctalDigit(s[i])
    ensures |JsTrimRight(s)| >= n && JsTrimRight(s) <= s
    decreases |s|
  {
    assert forall i :: 0 <= i < n ==> OctalDigit(s[i]) && !JsSpace(s[i]);
    if JsSpace(s[|s| - 1]) {
      TrimRightKeepsDigits(s[..|s| - 1], n);
    }
  }

  lemma {:induction false} PrefixValue(s: string, n: nat, before: int)
    requires n <= |s| && (forall i :: 0 <= i < n ==> OctalDigit(s[i])) && (n < |s| ==> !OctalDigit(s[n]))
    ensures OctalPrefix(s, before) == OctalFrom(s[..n], before)
    decreases n
  {
    if n > 0 {
      assert s[..n][1..] == s[1..][..n - 1];
      PrefixValue(s[1..], n - 1, before * 8 + (s[0] - '0') as int);
    }
  }

  function OctalFrom(s: string, before: int): int {
    if s == "" then before
    else OctalFrom(s[1..], before * 8 + DigitValue(s[0]))
  }

  lemma {:induction false} OctalFromSnoc(s: string, c: char, before: int)
    ensures OctalFrom(s + [c], before) == OctalFrom(s, before) * 8 + DigitValue(c)
    decreases |s|
  {
    if s == "" {
      assert s + [c] == [c];
      assert OctalFrom("", before * 8 + DigitValue(c)) == before * 8 + DigitValue(c);
    } else {
      assert (s + [c])[1..] == s[1..] + [c];
      OctalFromSnoc(s[1..], c, before * 8 + DigitValue(s[0]));
    }
  }

  lemma {:induction false} OctalFromIsValue(s: string)
    ensures OctalFrom(s, 0) == OctalValue(s)
  {
    if s != "" {
      OctalFromIsValue(s[..|s| - 1]);
      OctalFromSnoc(s[..|s| - 1], s[|s| - 1], 0);
      assert s == s[..|s| - 1] + [s[|s| - 1]];
    }
  }

  lemma SizeReadsBack(decode: Decode, b: Bytes, size: nat)
    requires Transparent(decode) && SizeField(b, size)
    ensures ParseOctal(Field(decode, b)) == size
  {
    var s := Chars(b);
    var n :| 0 < n <= |b| && OctalField(s, n, size);
    CutKeepsDigits(s, n);
    var c := CutNul(s);
    assert forall i :: 0 <= i < n ==> c[i] == s[i];
    TrimKeepsDigits(c, n);
    var t := JsTrim(c);
    assert forall i :: 0 <= i < n ==> t[i] == s[i];
    assert OctalDigit(t[0]) && JsTrimLeft(t) == t;
    assert n < |t| ==> t[n] == s[n];
    PrefixValue(t, n, 0);
    assert t[..n] == s[..n];
    OctalFromIsValue(s[..n]);
  }

  /** A header in front of which nothing is missing is 512 bytes of the buffer. */
  lemma HeaderParts(d: Bytes, at: nat)
    requires CanRead(d, at, BLOCK)
    ensures SubArray(Header(d, at), 0, 100) == d[at..at + 100]
    ensures SubArray(Header(d, at), 124, 136) == d[at + 124..at + 136]
  {
    var h := d[at..at + BLOCK];
    assert Header(d, at) == h;
    assert SubArray(h, 0, 100) == h[0..100] == d[at..at + 100];
    assert SubArray(h, 124, 136) == h[124..136] == d[at + 124..at + 136];
  }

  lemma MemberReads(decode: Decode, d: Bytes, m: Member, at: nat)
    requires Transparent(decode) && MemberAt(d, m, at)
    ensures HeaderAt(d, at) && NameAt(decode, d, at) == m.name && SizeAt(decode, d, at) == |m.data|
    ensures DataAt(d, at, |m.data|) == m.data && at + BLOCK + |m.data| <= |d|
  {
    var b := d[at..at + 100];
    HeaderParts(d, at);
    NameReadsBack(decode, b, m.name);
    SizeReadsBack(decode, d[at + 124..at + 136], |m.data|);
    assert Chars(b)[0] == m.name[0] != '\0';
    assert b[0] == d[at] == Header(d, at)[0] != 0;
  }

  function NamesFrom(members: seq<Member>, k: nat): seq<string>
    decreases |members| - k
  {
    if k >= |members| then [] else [members[k].name] + NamesFrom(members, k + 1)
  }

  function FirstNamed(members: seq<Member>, name: string, k: nat): Extraction
    decreases |members| - k
  {
    if k >= |members| then NotFound
    else if members[k].name == name then Found(members[k].data)
    else FirstNamed(members, name, k + 1)
  }

  /** What the walks find from the place behind the first k members. */
  predicate WalksRead(t: Tape, members: seq<Member>, name: string, k: nat, at: nat, turns: nat) {
    && List(t, at, turns) == Listed(NamesFrom(members, k))
    && Extract(t, name, at, turns) == FirstNamed(members, name, k)
  }

  /** Member k is read at its offset, and the next one stands where the walk goes. */
  predicate Reads(t: Tape, members: seq<Member>, offsets: seq<nat>, k: nat)
    requires k < |members| && |offsets| == |members| + 1
  {
    var m, at := members[k], offsets[k];
    && t.header(at) == Some(Entry(m.name, |m.data|)) && m.name != "" && t.data(at, |m.data|) == m.data
    && at + BLOCK + |m.data| <= t.len && offsets[k + 1] == NextHeader(at, |m.data|)
  }

  predicate ReadsAll(t: Tape, members: seq<Member>, offsets: seq<nat>) {
    && |offsets| == |members| + 1 && t.header(offsets[|members|]).None?
    && forall k :: 0 <= k < |members| ==> Reads(t, members, offsets, k)
  }

  lemma ArchiveReads(decode: Decode, d: Bytes, members: seq<Member>, offsets: seq<nat>)
    requires Transparent(decode) && Archive(d, members, offsets)
    ensures ReadsAll(TapeOf(decode, d), members, offsets)
  {
    forall k | 0 <= k < |members| ensures Reads(TapeOf(decode, d), members, offsets, k) {
      assert MemberStep(d, members, offsets, k);
      MemberReads(decode, d, members[k], offsets[k]);
    }
  }

  lemma {:induction false} WalksReadMembers(t: Tape, members: seq<Member>, offsets: seq<nat>, name: string, k: nat)
    requires ReadsAll(t, members, offsets) && k <= |members|
    ensures WalksRead(t, members, name, k, offsets[k], |members| - k + 1)
    decreases |members| - k
  {
    if k < |members| {
      WalksReadMembers(t, members, offsets, name, k + 1);
      assert Reads(t, members, offsets, k);
    }
  }

  lemma {:induction false} OffsetsGrow(d: Bytes, members: seq<Member>, offsets: seq<nat>, k: nat)
    requires Archive(d, members, offsets) && k <= |members|
    ensures offsets[k] >= BLOCK * k && (k > 0 ==> BLOCK * k <= |d|)
  {
    if k > 0 {
      OffsetsGrow(d, members, offsets, k - 1);
      assert MemberStep(d, members, offsets, k - 1);
      ForwardIff(offsets[k - 1], |members[k - 1].data|);
    }
  }

  /** From every archive, listing yields the names in order and extraction yields the data of the first
      member with the name. */
  lemma ReadsArchive(decode: Decode, d: Bytes, members: seq<Member>, offsets: seq<nat>, name: string)
    requires Transparent(decode) && Archive(d, members, offsets)
    ensures List(TapeOf(decode, d), 0, Turns(|d|)) == Listed(NamesFrom(members, 0))
    ensures Extract(TapeOf(decode, d), name, 0, Turns(|d|)) == FirstNamed(members, name, 0)
  {
    ArchiveReads(decode, d, members, offsets);
    WalksReadMembers(TapeOf(decode, d), members, offsets, name, 0);
    OffsetsGrow(d, members, offsets, |members|);
    FirstNamedAnswers(members, name, 0);
    AnswersStay(TapeOf(decode, d), name, 0, |members| + 1, Turns(|d|));
  }

  lemma {:induction false} FirstNamedAnswers(members: seq<Member>, name: string, k: nat)
    ensures !FirstNamed(members, name, k).Searching?
    decreases |members| - k
  {
    if k < |members| { FirstNamedAnswers(members, name, k + 1); }
  }

  // ----- a header that is never left

  /** 512 bytes with the name a and the size -1000 in octal digits. */
  function StuckHeader(): Bytes {
    seq(BLOCK, i => if i == 0 then 97 else if i == 124 then 45 else if i == 125 then 49
                    else if 126 <= i <= 128 then 48 else 0)
  }

  /** Both loops turn on it for ever, whatever other name is looked for. */
  lemma StuckHeaderIsNeverLeft(decode: Decode, name: string, turns: nat)
    requires Transparent(decode) && name != "a"
    ensures List(TapeOf(decode, StuckHeader()), 0, turns).Unfinished?
    ensures Extract(TapeOf(decode, StuckHeader()), name, 0, turns).Searching?
  {
    var d := StuckHeader();
    HeaderParts(d, 0);
    assert Header(d, 0)[0] == 97;
    StuckName(d[0..100]);
    NameReadsBack(decode, d[0..100], "a");
    StuckSize(decode, d[124..136]);
    assert HeaderAt(d, 0) && NameAt(decode, d, 0) == "a" && SizeAt(decode, d, 0) == -512;
    StandsStill(TapeOf(decode, d), 0, turns);
  }

  lemma StuckName(b: Bytes)
    requires |b| == 100 && b[0] == 97 && forall i :: 1 <= i < 100 ==> b[i] == 0
    ensures NameField(b, "a")
  {
    assert b[..1] == [97];
    assert Chars([97]) == "a" && PlainName("a");
  }

  lemma StuckSize(decode: Decode, b: Bytes)
    requires Transparent(decode) && |b| == 12 && b[0] == 45 && b[1] == 49 && b[2] == b[3] == b[4] == 48
    requires forall i :: 5 <= i < 12 ==> b[i] == 0
    ensures ParseOctal(Field(decode, b)) == -512
  {
    var s := Chars(b);
    assert s[..5] == "-1000";
    CutNulAtPadding(s, 5);
    JsTrimOfPlain("-1000");
    assert "-1000"[1..] == "1000" && "1000"[1..] == "000" && "000"[1..] == "00" && "00"[1..] == "0" && "0"[1..] == "";
    assert JsTrimLeft("-1000") == "-1000";
    assert OctalPrefix("", 512) == 512;
    assert OctalPrefix("0", 64) == 512;
    assert OctalPrefix("00", 8) == 512;
    assert OctalPrefix("000", 1) == 512;
    assert OctalPrefix("1000", 0) == 512;
  }
}
