/** Byte buffers as the launcher reads them. */
module ByteBuffer {

  type Byte = b: nat | b < 256
  type Bytes = seq<Byte>

  predicate CanRead(d: Bytes, i: int, n: nat) {
    0 <= i && i + n <= |d|
  }

  function U16(d: Bytes, i: nat): nat
    requires CanRead(d, i, 2)
  {
    d[i] as nat + 0x100 * d[i + 1] as nat
  }

  function U32(d: Bytes, i: nat): nat
    requires CanRead(d, i, 4)
  {
    U16(d, i) + 0x10000 * U16(d, i + 2)
  }

  /** A bound of Buffer.subarray: it counts from the end if it is negative, and is clamped. */
  function Bound(d: Bytes, i: int): (b: nat)
    ensures b <= |d|
  {
    if i > |d| then |d| else if i >= 0 then i else if i + |d| >= 0 then i + |d| else 0
  }

  /** Buffer.subarray. */
  function SubArray(d: Bytes, lo: int, hi: int): Bytes {
    if Bound(d, lo) < Bound(d, hi) then d[Bound(d, lo)..Bound(d, hi)] else []
  }

  // ----- writing

  function LE16(n: nat): (b: Bytes)
    ensures |b| == 2
  {
    [n % 0x100, n / 0x100 % 0x100]
  }

  function LE32(n: nat): (b: Bytes)
    ensures |b| == 4
  {
    LE16(n % 0x10000) + LE16(n / 0x10000)
  }

  /** The bytes c stand in d at the position. */
  predicate Has(d: Bytes, at: nat, c: Bytes) {
    at + |c| <= |d| && d[at..at + |c|] == c
  }

  lemma HasPart(d: Bytes, at: nat, c: Bytes, i: nat, part: Bytes)
    requires Has(d, at, c) && Has(c, i, part)
    ensures Has(d, at + i, part)
  {
    var at' := at + i;
    assert |part| + at' <= |d|;
    forall k | 0 <= k < |part| ensures d[at'..at' + |part|][k] == part[k] {
      assert d[at' + k] == d[at..at + |c|][i + k] == c[i..i + |part|][k];
    }
  }

  lemma Read16(d: Bytes, at: nat, n: nat)
    requires n < 0x10000 && Has(d, at, LE16(n))
    ensures CanRead(d, at, 2) && U16(d, at) == n
  {
    var c := d[at..at + 2];
    assert c[0] == d[at] && c[1] == d[at + 1];
  }

  lemma Read32(d: Bytes, at: nat, n: nat)
    requires n < 0x1_0000_0000 && Has(d, at, LE32(n))
    ensures CanRead(d, at, 4) && U32(d, at) == n
  {
    var lo, hi := LE16(n % 0x10000), LE16(n / 0x10000);
    assert LE32(n)[0..2] == lo && LE32(n)[2..4] == hi;
    HasPart(d, at, LE32(n), 0, lo);
    HasPart(d, at, LE32(n), 2, hi);
    Read16(d, at, n % 0x10000);
    Read16(d, at + 2, n / 0x10000);
  }
}
