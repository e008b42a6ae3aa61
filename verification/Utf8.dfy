/** Texts of one character per byte, and what encoding and decoding them as JSON makes of the bytes that
    are not UTF-8. */
module Utf8 {
  predicate Continues(c: char) {
    '\U{80}' <= c <= '\U{BF}'
  }

  /** The second byte of a character of three or four bytes. */
  predicate Seconds(a: char, b: char) {
    && Continues(b)
    && (a == '\U{E0}' ==> b >= '\U{A0}') && (a == '\U{ED}' ==> b < '\U{A0}')
    && (a == '\U{F0}' ==> b >= '\U{90}') && (a == '\U{F4}' ==> b < '\U{90}')
  }

  /** The size of the character in front, section 4 of RFC 3629; 0 if the text does not begin with one. */
  function Size(s: string): (n: nat)
    ensures n <= |s|
  {
    if s == "" then 0
    else if s[0] < '\U{80}' then 1
    else if '\U{C2}' <= s[0] <= '\U{DF}' then if |s| >= 2 && Continues(s[1]) then 2 else 0
    else if '\U{E0}' <= s[0] <= '\U{EF}' then
      if |s| >= 3 && Seconds(s[0], s[1]) && Continues(s[2]) then 3 else 0
    else if '\U{F0}' <= s[0] <= '\U{F4}' then
      if |s| >= 4 && Seconds(s[0], s[1]) && Continues(s[2]) && Continues(s[3]) then 4 else 0
    else 0
  }

  predicate Valid(s: string) {
    s == "" || (Size(s) > 0 && Valid(s[Size(s)..]))
  }

  /** U+FFFD. */
  const REPLACEMENT := "\U{EF}\U{BF}\U{BD}"

  /** json.Marshal replaces every byte that is not part of a character; decoding gives the replacement. */
  function Repaired(s: string): string {
    if s == "" then ""
    else if Size(s) == 0 then REPLACEMENT + Repaired(s[1..])
    else s[..Size(s)] + Repaired(s[Size(s)..])
  }

  /** A repaired text is longer, and exactly the valid texts stay as they are. */
  lemma {:induction false} RepairedIsLonger(s: string)
    ensures |Repaired(s)| >= |s|
    ensures Valid(s) <==> |Repaired(s)| == |s|
    ensures Valid(s) ==> Repaired(s) == s
  {
    if s != "" {
      var n := Size(s);
      if n == 0 {
        RepairedIsLonger(s[1..]);
      } else {
        RepairedIsLonger(s[n..]);
        assert s == s[..n] + s[n..];
      }
    }
  }

  // ----- cutting

  /** No character of a valid text is cut at k. */
  predicate Starts(s: string, k: nat)
    requires k <= |s|
  {
    k == |s| || !Continues(s[k])
  }

  lemma SizeOfFront(s: string, k: nat)
    requires Size(s) > 0 && k <= |s|
    ensures Size(s[..k]) == if k >= Size(s) then Size(s) else 0
    ensures 0 < k < Size(s) ==> Continues(s[k])
  {
  }

  /** Cutting a valid text leaves valid texts exactly where no character is cut. */
  lemma {:induction false} CutIsValidIff(s: string, k: nat)
    requires Valid(s) && k <= |s|
    ensures Valid(s[..k]) <==> Starts(s, k)
    ensures Starts(s, k) ==> Valid(s[k..])
    decreases |s|
  {
    var n := Size(s);
    if k == 0 {
      assert s[0..] == s;
    } else if s != "" {
      SizeOfFront(s, k);
      if k >= n {
        var rest := s[n..];
        CutIsValidIff(rest, k - n);
        assert s[..k][n..] == rest[..k - n] && rest[k - n..] == s[k..];
        assert k < |s| ==> s[k] == rest[k - n];
      }
    }
  }

  /** A part of a valid text is valid exactly if no character is cut at either end. */
  lemma PartIsValidIff(s: string, a: nat, b: nat)
    requires Valid(s) && a <= b <= |s| && (a < b || a == |s|)
    ensures Valid(s[a..b]) <==> Starts(s, a) && Starts(s, b)
  {
    if Starts(s, a) {
      var rest := s[a..];
      CutIsValidIff(s, a);
      CutIsValidIff(rest, b - a);
      assert rest[..b - a] == s[a..b];
      assert b < |s| ==> rest[b - a] == s[b];
    } else {
      assert s[a..b][0] == s[a];
    }
  }

  lemma {:induction false} AsciiIsValid(s: string, t: string)
    requires (forall i :: 0 <= i < |s| ==> s[i] < '\U{80}') && Valid(t)
    ensures Valid(s + t)
    decreases |s|
  {
    if s == "" {
      assert s + t == t;
    } else {
      AsciiIsValid(s[1..], t);
      assert (s + t)[1..] == s[1..] + t;
    }
  }
}
