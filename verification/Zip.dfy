/** The ZIP reader of the launcher: it finds the end-of-central-directory record from the back, walks
    the central directory and returns the first entry of a name. */
module Zip {
  import opened Text
  import opened ByteBuffer

  const EOCD_SIG := 0x06054b50
  const CD_SIG := 0x02014b50
  const LFH_SIG := 0x04034b50
  const MAX_COMMENT := 0x10000
  const MIN_EOCD := 22

  datatype Error =
    | EocdNotFound | LocalHeaderNotFound | TruncatedData | CompressionMismatch
    | Unsupported(compression: nat) | Corrupt | SizeMismatch | FileNotFound | OutOfRange

  datatype Result = Ok(data: Bytes) | Err(error: Error)

  /** What the reader takes from its platform: UTF-8 decoding, and raw inflate, which fails on bytes that
      are not a deflate stream. */
  datatype Platform = Platform(decode: Bytes -> string, inflate: Bytes -> Option<Bytes>)

  // ----- the meaning of the reader

  /** Where the directory header after the one at the position stands. */
  function NextHeader(d: Bytes, at: nat): nat
    requires CanRead(d, at, 46)
  {
    at + 46 + U16(d, at + 28) + U16(d, at + 30) + U16(d, at + 32)
  }

  /** The last position, at or below i and not below start, where the record's signature stands. */
  function FindEocd(d: Bytes, i: int, start: nat): (e: int)
    requires i <= |d| - MIN_EOCD
    ensures e == -1 || (start <= e <= i && U32(d, e) == EOCD_SIG)
    decreases i + 1
  {
    if i < start then -1 else if U32(d, i) == EOCD_SIG then i else FindEocd(d, i - 1, start)
  }

  function SearchStart(d: Bytes): nat {
    if |d| < MIN_EOCD + MAX_COMMENT then 0 else |d| - MIN_EOCD - MAX_COMMENT
  }

  function ReadLocal(p: Platform, d: Bytes, at: nat, compression: nat, size: nat, fullSize: nat): Result {
    if !CanRead(d, at, 4) then Err(OutOfRange)
    else if U32(d, at) != LFH_SIG then Err(LocalHeaderNotFound)
    else if !CanRead(d, at, 30) then Err(OutOfRange)
    else
      var start := at + 30 + U16(d, at + 26) + U16(d, at + 28);
      if start + size > |d| then Err(TruncatedData)
      else if U16(d, at + 8) != compression then Err(CompressionMismatch)
      else if compression == 0 then Ok(d[start..start + size])
      else if compression == 8 then
        var full := p.inflate(d[start..start + size]);
        if full.None? then Err(Corrupt)
        else if fullSize != 0 && |full.value| != fullSize then Err(SizeMismatch)
        else Ok(full.value)
      else Err(Unsupported(compression))
  }

  function NameAt(p: Platform, d: Bytes, at: nat): string
    requires CanRead(d, at, 46)
  {
    p.decode(SubArray(d, at + 46, at + 46 + U16(d, at + 28)))
  }

  /** The walk over the central directory with `left` entries to go. */
  function Walk(p: Platform, d: Bytes, name: string, ptr: nat, end: nat, left: nat): Result
    decreases left
  {
    if left == 0 || ptr + 46 > end then Err(FileNotFound)
    else if !CanRead(d, ptr, 4) then Err(OutOfRange)
    else if U32(d, ptr) != CD_SIG then Err(FileNotFound)
    else if !CanRead(d, ptr, 46) then Err(OutOfRange)
    else
      if NameAt(p, d, ptr) == name then
        ReadLocal(p, d, U32(d, ptr + 42), U16(d, ptr + 10), U32(d, ptr + 20), U32(d, ptr + 24))
      else Walk(p, d, name, NextHeader(d, ptr), end, left - 1)
  }

  function Extract(p: Platform, d: Bytes, name: string): Result {
    var e := FindEocd(d, |d| - MIN_EOCD, SearchStart(d));
    if e < 0 then Err(EocdNotFound) else ExtractFrom(p, d, name, e)
  }

  /** The walk that the record at e asks for. */
  function ExtractFrom(p: Platform, d: Bytes, name: string, e: nat): Result
    requires CanRead(d, e, MIN_EOCD)
  {
    Walk(p, d, name, U32(d, e + 16), U32(d, e + 16) + U32(d, e + 12), U16(d, e + 10))
  }

  // ----- the reader

  method FindRecord(d: Bytes) returns (eocd: int)
    ensures eocd == FindEocd(d, |d| - MIN_EOCD, SearchStart(d))
  {
    var start := SearchStart(d);
    var i := |d| - MIN_EOCD;
    while i >= start
      invariant i <= |d| - MIN_EOCD
      invariant FindEocd(d, |d| - MIN_EOCD, start) == FindEocd(d, i, start)
      decreases i + 1
    {
      if U32(d, i) == EOCD_SIG { return i; }
      i := i - 1;
    }
    eocd := -1;
  }

  method SearchDirectory(p: Platform, d: Bytes, name: string, eocd: nat) returns (r: Result)
    requires CanRead(d, eocd, MIN_EOCD)
    ensures r == ExtractFrom(p, d, name, eocd)
  {
    var total, cdSize, cdOffset := U16(d, eocd + 10), U32(d, eocd + 12), U32(d, eocd + 16);
    var cdEnd := cdOffset + cdSize;
    var ptr: nat, entry: nat := cdOffset, 0;
    while entry < total && ptr + 46 <= cdEnd
      invariant entry <= total
      invariant ExtractFrom(p, d, name, eocd) == Walk(p, d, name, ptr, cdEnd, total - entry)
    {
      if !CanRead(d, ptr, 4) { return Err(OutOfRange); }
      if U32(d, ptr) != CD_SIG { break; }
      if !CanRead(d, ptr, 46) { return Err(OutOfRange); }
      var header := ptr;
      var entryName := NameAt(p, d, header);
      ptr := NextHeader(d, header);
      entry := entry + 1;
      if entryName != name { continue; }
      r := ReadLocal(p, d, U32(d, header + 42), U16(d, header + 10), U32(d, header + 20), U32(d, header + 24));
      return;
    }
    r := Err(FileNotFound);
  }

  method ExtractFileFromZip(p: Platform, d: Bytes, name: string) returns (r: Result)
    ensures r == Extract(p, d, name)
  {
    var eocd := FindRecord(d);
    if eocd < 0 { return Err(EocdNotFound); }
    r := SearchDirectory(p, d, name, eocd);
  }

  // ----- archives

  /** An entry: its raw name, its compression method, its raw data and the size stated for its data. */
  datatype File = File(name: Bytes, compression: nat, raw: Bytes, size: nat)

  /** Section 4.3.7 of the APPNOTE: a local header with the raw data behind it, whatever its version,
      flags, time, checksum, sizes, name and extra field say. */
  predicate LocalAt(d: Bytes, f: File, at: nat) {
    && CanRead(d, at, 30) && U32(d, at) == LFH_SIG && U16(d, at + 8) == f.compression
    && Has(d, at + 30 + U16(d, at + 26) + U16(d, at + 28), f.raw)
  }

  /** Section 4.3.12: a central directory header that names the file and points at its local header. */
  predicate CentralAt(d: Bytes, f: File, at: nat) {
    && CanRead(d, at, 46) && U32(d, at) == CD_SIG && U16(d, at + 10) == f.compression
    && U32(d, at + 20) == |f.raw| && U32(d, at + 24) == f.size
    && U16(d, at + 28) == |f.name| && Has(d, at + 46, f.name)
    && LocalAt(d, f, U32(d, at + 42))
  }

  /** Sections 4.4.5 and 4.4.9: the data of an entry that is stored, or deflated with its true size or none. */
  predicate Holds(p: Platform, f: File, data: Bytes) {
    || (f.compression == 0 && f.raw == data)
    || (f.compression == 8 && p.inflate(f.raw) == Some(data) && (f.size == 0 || f.size == |data|))
  }

  /** The header of the k-th file, and the next offset behind it. */
  predicate HeaderAt(d: Bytes, files: seq<File>, offsets: seq<nat>, k: nat)
    requires k < |files| && |offsets| == |files| + 1
  {
    CentralAt(d, files[k], offsets[k]) && offsets[k + 1] == NextHeader(d, offsets[k])
  }

  /** One header for each file, each behind the one before; the last offset is the end. */
  predicate DirectoryAt(d: Bytes, files: seq<File>, offsets: seq<nat>) {
    |offsets| == |files| + 1 && forall k :: 0 <= k < |files| ==> HeaderAt(d, files, offsets, k)
  }

  /** Section 4.3.16: the record at e, with a comment of at most 65535 bytes that ends the archive, and
      no later signature of the record. */
  predicate Archive(d: Bytes, files: seq<File>, offsets: seq<nat>, e: nat) {
    && CanRead(d, e, MIN_EOCD) && |d| < e + MIN_EOCD + MAX_COMMENT
    && U32(d, e) == EOCD_SIG && U16(d, e + 10) == |files|
    && DirectoryAt(d, files, offsets)
    && U32(d, e + 16) == offsets[0] && U32(d, e + 16) + U32(d, e + 12) == offsets[|files|]
    && forall i :: e < i <= |d| - MIN_EOCD ==> U32(d, i) != EOCD_SIG
  }

  /** The first file from the k-th on with the name. */
  function FirstNamed(p: Platform, files: seq<File>, name: string, k: nat): Option<File>
    decreases |files| - k
  {
    if k >= |files| then None
    else if p.decode(files[k].name) == name then Some(files[k])
    else FirstNamed(p, files, name, k + 1)
  }

  /** The answer for an entry, or for none: its data, and exactly the errors that it deserves. */
  ghost predicate Answers(p: Platform, f: Option<File>, r: Result) {
    match f
    case None => r == Err(FileNotFound)
    case Some(f) =>
      && (forall data :: r == Ok(data) <==> Holds(p, f, data))
      && (r == Err(Corrupt) <==> f.compression == 8 && p.inflate(f.raw) == None)
      && (r == Err(SizeMismatch) <==>
            f.compression == 8 && p.inflate(f.raw).Some? && f.size !in {0, |p.inflate(f.raw).value|})
      && (r == Err(Unsupported(f.compression)) <==> f.compression !in {0, 8})
      && (r.Err? ==> r.error in {Corrupt, SizeMismatch, Unsupported(f.compression)})
  }

  lemma {:induction false} DirectoryHasRoom(d: Bytes, files: seq<File>, offsets: seq<nat>, k: nat)
    requires DirectoryAt(d, files, offsets) && k <= |files|
    ensures offsets[k] + 46 * (|files| - k) <= offsets[|files|]
    decreases |files| - k
  {
    if k < |files| {
      assert HeaderAt(d, files, offsets, k);
      DirectoryHasRoom(d, files, offsets, k + 1);
    }
  }

  lemma LocalReads(p: Platform, d: Bytes, f: File, at: nat)
    requires LocalAt(d, f, at)
    ensures Answers(p, Some(f), ReadLocal(p, d, at, f.compression, |f.raw|, f.size))
  {
  }

  lemma WalkStep(p: Platform, d: Bytes, f: File, name: string, at: nat, end: nat, left: nat)
    requires CentralAt(d, f, at) && at + 46 <= end && left > 0
    ensures if p.decode(f.name) == name then Answers(p, Some(f), Walk(p, d, name, at, end, left))
            else Walk(p, d, name, at, end, left) == Walk(p, d, name, NextHeader(d, at), end, left - 1)
  {
    assert SubArray(d, at + 46, at + 46 + U16(d, at + 28)) == f.name;
    LocalReads(p, d, f, U32(d, at + 42));
  }

  lemma {:induction false} WalkFinds(p: Platform, d: Bytes, files: seq<File>, offsets: seq<nat>, name: string, k: nat)
    requires DirectoryAt(d, files, offsets) && k <= |files|
    ensures Answers(p, FirstNamed(p, files, name, k), Walk(p, d, name, offsets[k], offsets[|files|], |files| - k))
    decreases |files| - k
  {
    if k < |files| {
      var f, at, end, left := files[k], offsets[k], offsets[|files|], |files| - k;
      DirectoryHasRoom(d, files, offsets, k);
      assert HeaderAt(d, files, offsets, k);
      WalkStep(p, d, f, name, at, end, left);
      WalkFinds(p, d, files, offsets, name, k + 1);
    }
  }

  lemma {:induction false} FindsLast(d: Bytes, e: nat, i: int, start: nat)
    requires start <= e <= i <= |d| - MIN_EOCD && U32(d, e) == EOCD_SIG
    requires forall k :: e < k <= |d| - MIN_EOCD ==> U32(d, k) != EOCD_SIG
    ensures FindEocd(d, i, start) == e
    decreases i
  {
    if i > e { FindsLast(d, e, i - 1, start); }
  }

  lemma RecordIsFound(d: Bytes, files: seq<File>, offsets: seq<nat>, e: nat)
    requires Archive(d, files, offsets, e)
    ensures FindEocd(d, |d| - MIN_EOCD, SearchStart(d)) == e
  {
    FindsLast(d, e, |d| - MIN_EOCD, SearchStart(d));
  }

  lemma RecordIsFollowed(p: Platform, d: Bytes, files: seq<File>, offsets: seq<nat>, e: nat, name: string)
    requires Archive(d, files, offsets, e)
    ensures Answers(p, FirstNamed(p, files, name, 0), ExtractFrom(p, d, name, e))
  {
    WalkFinds(p, d, files, offsets, name, 0);
  }

  /** From every archive, extraction returns exactly the data of the first entry with the name if it is
      stored or deflated, refuses it for its stream, its size or its method alone, reports a missing name as
      such, and never reads out of bounds. */
  lemma ExtractReadsArchive(p: Platform, d: Bytes, files: seq<File>, offsets: seq<nat>, e: nat, name: string)
    requires Archive(d, files, offsets, e)
    ensures Answers(p, FirstNamed(p, files, name, 0), Extract(p, d, name))
  {
    RecordIsFound(d, files, offsets, e);
    RecordIsFollowed(p, d, files, offsets, e, name);
  }

  // ----- any bytes

  /** The first header with the name in the chain of headers from ptr on, within the directory. */
  function FirstHeader(p: Platform, d: Bytes, name: string, ptr: nat, end: nat, left: nat): (at: Option<nat>)
    ensures at.Some? ==> CanRead(d, at.value, 46)
    decreases left
  {
    if left == 0 || ptr + 46 > end || !CanRead(d, ptr, 46) || U32(d, ptr) != CD_SIG then None
    else if NameAt(p, d, ptr) == name then Some(ptr)
    else FirstHeader(p, d, name, NextHeader(d, ptr), end, left - 1)
  }

  /** The header leads to an entry that holds the data. */
  predicate Yields(p: Platform, d: Bytes, at: nat, data: Bytes)
    requires CanRead(d, at, 46)
  {
    var local, size := U32(d, at + 42), U32(d, at + 20);
    CanRead(d, local, 30) &&
    var start := local + 30 + U16(d, local + 26) + U16(d, local + 28);
    start + size <= |d| &&
    var f := File([], U16(d, at + 10), d[start..start + size], U32(d, at + 24));
    LocalAt(d, f, local) && Holds(p, f, data)
  }

  lemma EntryIsReadIff(p: Platform, d: Bytes, at: nat, data: Bytes)
    requires CanRead(d, at, 46)
    ensures ReadLocal(p, d, U32(d, at + 42), U16(d, at + 10), U32(d, at + 20), U32(d, at + 24)) == Ok(data) <==>
            Yields(p, d, at, data)
  {
  }

  /** On any bytes the walk returns data exactly if the first header with the name, in a chain of headers
      within the directory, leads to an entry that holds it. */
  lemma {:induction false} WalkReturnsIff(p: Platform, d: Bytes, name: string, ptr: nat, end: nat, left: nat,
                                          data: Bytes)
    ensures Walk(p, d, name, ptr, end, left) == Ok(data) <==>
            var at := FirstHeader(p, d, name, ptr, end, left); at.Some? && Yields(p, d, at.value, data)
    decreases left
  {
    if left > 0 && ptr + 46 <= end && CanRead(d, ptr, 46) && U32(d, ptr) == CD_SIG {
      if NameAt(p, d, ptr) == name {
        EntryIsReadIff(p, d, ptr, data);
      } else {
        WalkReturnsIff(p, d, name, NextHeader(d, ptr), end, left - 1, data);
      }
    }
  }

  // ----- writers

  predicate Small(f: File) {
    |f.name| < 0x10000 && f.compression < 0x10000 && |f.raw| < 0x1_0000_0000 && f.size < 0x1_0000_0000
  }

  /** A writer of local headers with their data, and of directory headers for a given offset. */
  datatype Writer = Writer(local: File -> Bytes, central: (File, nat) -> Bytes)

  /** The writer follows the layout, wherever its bytes stand. */
  ghost predicate Writes(w: Writer) {
    && (forall d: Bytes, f: File, at: nat :: Small(f) && Has(d, at, w.local(f)) ==> LocalAt(d, f, at))
    && forall d: Bytes, f: File, at: nat, local: nat ::
         local < 0x1_0000_0000 && Has(d, at, w.central(f, local)) && Small(f) && LocalAt(d, f, local) ==>
           CentralAt(d, f, at) && NextHeader(d, at) == at + |w.central(f, local)|
  }

  /** The local parts of the first k files, one behind the other. */
  function Locals(w: Writer, files: seq<File>, k: nat): Bytes
    requires k <= |files|
  {
    if k == 0 then [] else Locals(w, files, k - 1) + w.local(files[k - 1])
  }

  /** The directory headers of the first k files. */
  function Directory(w: Writer, files: seq<File>, k: nat): Bytes
    requires k <= |files|
  {
    if k == 0 then [] else Directory(w, files, k - 1) + w.central(files[k - 1], |Locals(w, files, k - 1)|)
  }

  function Record(count: nat, size: nat, at: nat, comment: Bytes): Bytes {
    LE32(EOCD_SIG) + LE32(0) + LE16(count) + LE16(count) + LE32(size) + LE32(at) + LE16(|comment|) + comment
  }

  function Pack(w: Writer, files: seq<File>, comment: Bytes): Bytes {
    var locals, directory := Locals(w, files, |files|), Directory(w, files, |files|);
    locals + directory + Record(|files|, |directory|, |locals|, comment)
  }

  function RecordAt(w: Writer, files: seq<File>): nat {
    |Locals(w, files, |files|)| + |Directory(w, files, |files|)|
  }

  /** The sizes fit their fields, and no signature of the record stands behind the record's own. */
  predicate Packable(w: Writer, files: seq<File>, comment: Bytes) {
    && (forall k :: 0 <= k < |files| ==> Small(files[k]))
    && |files| < 0x10000 && |comment| < 0x10000 && RecordAt(w, files) < 0x1_0000_0000
    && forall i :: RecordAt(w, files) < i <= |Pack(w, files, comment)| - MIN_EOCD ==>
         U32(Pack(w, files, comment), i) != EOCD_SIG
  }

  lemma {:induction false} LocalPart(w: Writer, files: seq<File>, k: nat, n: nat)
    requires k < n <= |files|
    ensures Has(Locals(w, files, n), |Locals(w, files, k)|, w.local(files[k]))
  {
    if k < n - 1 {
      LocalPart(w, files, k, n - 1);
      HasInFront(Locals(w, files, n - 1), w.local(files[n - 1]), |Locals(w, files, k)|, w.local(files[k]));
    } else {
      HasBehind(Locals(w, files, k), w.local(files[k]));
    }
  }

  lemma {:induction false} DirectoryPart(w: Writer, files: seq<File>, k: nat, n: nat)
    requires k < n <= |files|
    ensures Has(Directory(w, files, n), |Directory(w, files, k)|, w.central(files[k], |Locals(w, files, k)|))
  {
    var last := w.central(files[n - 1], |Locals(w, files, n - 1)|);
    if k < n - 1 {
      DirectoryPart(w, files, k, n - 1);
      HasInFront(Directory(w, files, n - 1), last, |Directory(w, files, k)|,
                 w.central(files[k], |Locals(w, files, k)|));
    } else {
      HasBehind(Directory(w, files, k), last);
    }
  }

  lemma HasInFront(a: Bytes, b: Bytes, at: nat, c: Bytes)
    requires Has(a, at, c)
    ensures Has(a + b, at, c)
  {
    assert (a + b)[at..at + |c|] == a[at..at + |c|];
  }

  lemma HasBehind(a: Bytes, b: Bytes)
    ensures Has(a + b, |a|, b)
  {
  }

  function Offsets(w: Writer, files: seq<File>): seq<nat> {
    seq(|files| + 1, k requires 0 <= k <= |files| => |Locals(w, files, |files|)| + |Directory(w, files, k)|)
  }

  lemma EntryIsWritten(w: Writer, d: Bytes, files: seq<File>, offsets: seq<nat>, k: nat, local: nat)
    requires Writes(w) && k < |files| && |offsets| == |files| + 1 && Small(files[k]) && local < 0x1_0000_0000
    requires Has(d, local, w.local(files[k])) && Has(d, offsets[k], w.central(files[k], local))
    requires offsets[k + 1] == offsets[k] + |w.central(files[k], local)|
    ensures HeaderAt(d, files, offsets, k)
  {
    assert LocalAt(d, files[k], local);
  }

  lemma HeaderIsWritten(w: Writer, d: Bytes, files: seq<File>, offsets: seq<nat>, k: nat, base: nat)
    requires Writes(w) && k < |files| && |offsets| == |files| + 1
    requires Small(files[k]) && |Locals(w, files, k)| < 0x1_0000_0000
    requires Has(d, 0, Locals(w, files, |files|)) && Has(d, base, Directory(w, files, |files|))
    requires offsets[k] == base + |Directory(w, files, k)| && offsets[k + 1] == base + |Directory(w, files, k + 1)|
    ensures HeaderAt(d, files, offsets, k)
  {
    var local := |Locals(w, files, k)|;
    LocalPart(w, files, k, |files|);
    DirectoryPart(w, files, k, |files|);
    HasPart(d, 0, Locals(w, files, |files|), local, w.local(files[k]));
    HasPart(d, base, Directory(w, files, |files|), |Directory(w, files, k)|, w.central(files[k], local));
    EntryIsWritten(w, d, files, offsets, k, local);
  }

  lemma DirectoryIsWritten(w: Writer, d: Bytes, files: seq<File>)
    requires Writes(w) && (forall k :: 0 <= k < |files| ==> Small(files[k])) && RecordAt(w, files) < 0x1_0000_0000
    requires Has(d, 0, Locals(w, files, |files|)) && Has(d, |Locals(w, files, |files|)|, Directory(w, files, |files|))
    ensures DirectoryAt(d, files, Offsets(w, files))
  {
    forall k | 0 <= k < |files| ensures HeaderAt(d, files, Offsets(w, files), k) {
      LocalPart(w, files, k, |files|);
      HeaderIsWritten(w, d, files, Offsets(w, files), k, |Locals(w, files, |files|)|);
    }
  }

  lemma RecordIsWritten(d: Bytes, e: nat, count: nat, size: nat, at: nat, comment: Bytes)
    requires count < 0x10000 && size < 0x1_0000_0000 && at < 0x1_0000_0000
    requires Has(d, e, Record(count, size, at, comment))
    ensures CanRead(d, e, MIN_EOCD) && U32(d, e) == EOCD_SIG
    ensures U16(d, e + 10) == count && U32(d, e + 12) == size && U32(d, e + 16) == at
  {
    var c := Record(count, size, at, comment);
    assert Has(c, 0, LE32(EOCD_SIG)) && Has(c, 10, LE16(count)) && Has(c, 12, LE32(size)) && Has(c, 16, LE32(at));
    HasPart(d, e, c, 0, LE32(EOCD_SIG));
    HasPart(d, e, c, 10, LE16(count));
    HasPart(d, e, c, 12, LE32(size));
    HasPart(d, e, c, 16, LE32(at));
    Read32(d, e, EOCD_SIG);
    Read16(d, e + 10, count);
    Read32(d, e + 12, size);
    Read32(d, e + 16, at);
  }

  lemma PackParts(a: Bytes, b: Bytes, c: Bytes)
    ensures var d := a + b + c; Has(d, 0, a) && Has(d, |a|, b) && Has(d, |a| + |b|, c)
  {
  }

  lemma RecordSize(count: nat, size: nat, at: nat, comment: Bytes)
    ensures |Record(count, size, at, comment)| == MIN_EOCD + |comment|
  {
  }

  lemma PartsMakeArchive(d: Bytes, files: seq<File>, offsets: seq<nat>, at: nat, size: nat, comment: Bytes)
    requires |files| < 0x10000 && |comment| < 0x10000 && at + size < 0x1_0000_0000
    requires Has(d, at + size, Record(|files|, size, at, comment)) && |d| == at + size + MIN_EOCD + |comment|
    requires DirectoryAt(d, files, offsets) && offsets[0] == at && offsets[|files|] == at + size
    requires forall i :: at + size < i <= |d| - MIN_EOCD ==> U32(d, i) != EOCD_SIG
    ensures Archive(d, files, offsets, at + size)
  {
    RecordIsWritten(d, at + size, |files|, size, at, comment);
  }

  lemma PackHasParts(w: Writer, files: seq<File>, comment: Bytes)
    ensures var n, d := |files|, Pack(w, files, comment);
            var locals, directory := Locals(w, files, n), Directory(w, files, n);
            && Has(d, 0, locals) && Has(d, |locals|, directory)
            && Has(d, RecordAt(w, files), Record(n, |directory|, |locals|, comment))
            && |d| == RecordAt(w, files) + MIN_EOCD + |comment|
  {
    var locals, directory := Locals(w, files, |files|), Directory(w, files, |files|);
    RecordSize(|files|, |directory|, |locals|, comment);
    PackParts(locals, directory, Record(|files|, |directory|, |locals|, comment));
  }

  lemma PackIsArchive(w: Writer, files: seq<File>, comment: Bytes)
    requires Writes(w) && Packable(w, files, comment)
    ensures Archive(Pack(w, files, comment), files, Offsets(w, files), RecordAt(w, files))
  {
    PackHasParts(w, files, comment);
    PartsAreArchive(w, files, comment, Pack(w, files, comment));
  }

  lemma PartsAreArchive(w: Writer, files: seq<File>, comment: Bytes, d: Bytes)
    requires Writes(w) && (forall k :: 0 <= k < |files| ==> Small(files[k])) && RecordAt(w, files) < 0x1_0000_0000
    requires |files| < 0x10000 && |comment| < 0x10000
    requires var n, e := |files|, RecordAt(w, files);
             var locals, directory := Locals(w, files, n), Directory(w, files, n);
             && Has(d, 0, locals) && Has(d, |locals|, directory) && Has(d, e, Record(n, |directory|, |locals|, comment))
             && |d| == e + MIN_EOCD + |comment| && forall i :: e < i <= |d| - MIN_EOCD ==> U32(d, i) != EOCD_SIG
    ensures Archive(d, files, Offsets(w, files), RecordAt(w, files))
  {
    DirectoryIsWritten(w, d, files);
    PartsMakeArchive(d, files, Offsets(w, files), |Locals(w, files, |files|)|, |Directory(w, files, |files|)|, comment);
  }

  /** Reading inverts writing, for every writer that follows the layout. */
  lemma ExtractOfPack(p: Platform, w: Writer, files: seq<File>, comment: Bytes, name: string)
    requires Writes(w) && Packable(w, files, comment)
    ensures Answers(p, FirstNamed(p, files, name, 0), Extract(p, Pack(w, files, comment), name))
  {
    PackIsArchive(w, files, comment);
    ExtractReadsArchive(p, Pack(w, files, comment), files, Offsets(w, files), RecordAt(w, files), name);
  }

  // ----- a plain writer

  function LocalOf(f: File): Bytes {
    LE32(LFH_SIG) + LE32(20) + LE16(f.compression) + (LE32(0) + LE32(0)) + LE32(|f.raw|) + LE32(f.size)
    + LE16(|f.name|) + LE16(0) + f.name + f.raw
  }

  function CentralOf(f: File, at: nat): Bytes {
    LE32(CD_SIG) + (LE32(20) + LE16(0)) + LE16(f.compression) + (LE32(0) + LE32(0)) + LE32(|f.raw|) + LE32(f.size)
    + LE16(|f.name|) + LE16(0) + LE16(0) + (LE32(0) + LE32(0)) + LE32(at) + f.name
  }

  function Plain(): Writer {
    Writer((f: File) => LocalOf(f), (f: File, at: nat) => CentralOf(f, at))
  }

  lemma LocalIsWritten(d: Bytes, f: File, at: nat)
    requires Small(f) && Has(d, at, LocalOf(f))
    ensures LocalAt(d, f, at)
  {
    var c := LocalOf(f);
    assert Has(c, 0, LE32(LFH_SIG)) && Has(c, 8, LE16(f.compression));
    assert Has(c, 26, LE16(|f.name|)) && Has(c, 28, LE16(0));
    assert Has(c, 30 + |f.name|, f.raw);
    HasPart(d, at, c, 0, LE32(LFH_SIG));
    HasPart(d, at, c, 8, LE16(f.compression));
    HasPart(d, at, c, 26, LE16(|f.name|));
    HasPart(d, at, c, 28, LE16(0));
    HasPart(d, at, c, 30 + |f.name|, f.raw);
    Read32(d, at, LFH_SIG);
    Read16(d, at + 8, f.compression);
    Read16(d, at + 26, |f.name|);
    Read16(d, at + 28, 0);
  }

  lemma CentralIsWritten(d: Bytes, f: File, at: nat, local: nat)
    requires Small(f) && local < 0x1_0000_0000 && Has(d, at, CentralOf(f, local)) && LocalAt(d, f, local)
    ensures CentralAt(d, f, at) && NextHeader(d, at) == at + |CentralOf(f, local)|
  {
    var c := CentralOf(f, local);
    assert Has(c, 0, LE32(CD_SIG)) && Has(c, 10, LE16(f.compression));
    assert Has(c, 20, LE32(|f.raw|)) && Has(c, 24, LE32(f.size));
    assert Has(c, 28, LE16(|f.name|)) && Has(c, 30, LE16(0)) && Has(c, 32, LE16(0)) && Has(c, 42, LE32(local));
    assert Has(c, 46, f.name);
    HasPart(d, at, c, 0, LE32(CD_SIG));
    HasPart(d, at, c, 10, LE16(f.compression));
    HasPart(d, at, c, 20, LE32(|f.raw|));
    HasPart(d, at, c, 24, LE32(f.size));
    HasPart(d, at, c, 28, LE16(|f.name|));
    HasPart(d, at, c, 30, LE16(0));
    HasPart(d, at, c, 32, LE16(0));
    HasPart(d, at, c, 42, LE32(local));
    HasPart(d, at, c, 46, f.name);
    Read32(d, at, CD_SIG);
    Read16(d, at + 10, f.compression);
    Read32(d, at + 20, |f.raw|);
    Read32(d, at + 24, f.size);
    Read16(d, at + 28, |f.name|);
    Read16(d, at + 30, 0);
    Read16(d, at + 32, 0);
    Read32(d, at + 42, local);
  }

  lemma PlainWrites()
    ensures Writes(Plain())
  {
    forall d: Bytes, f: File, at: nat | Small(f) && Has(d, at, Plain().local(f)) ensures LocalAt(d, f, at) {
      LocalIsWritten(d, f, at);
    }
    forall d: Bytes, f: File, at: nat, local: nat |
      local < 0x1_0000_0000 && Has(d, at, Plain().central(f, local)) && Small(f) && LocalAt(d, f, local)
      ensures CentralAt(d, f, at) && NextHeader(d, at) == at + |Plain().central(f, local)|
    {
      CentralIsWritten(d, f, at, local);
    }
  }
}
