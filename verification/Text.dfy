/** Small optional type and the string operations the modelled code takes from Go's
    `strings`, `strconv` and `fmt` packages. */
module Text {

  datatype Option<+T> = None | Some(value: T)

  /** The code points of Unicode's White_Space property, which `unicode.IsSpace` tests. */
  predicate IsSpace(c: char) {
    || '\t' <= c <= '\r'
    || c == ' ' || c == '\U{85}' || c == '\U{A0}' || c == '\U{1680}'
    || '\U{2000}' <= c <= '\U{200A}'
    || c == '\U{2028}' || c == '\U{2029}' || c == '\U{202F}' || c == '\U{205F}' || c == '\U{3000}'
  }

  function TrimLeft(s: string): string {
    if s != "" && IsSpace(s[0]) then TrimLeft(s[1..]) else s
  }

  function TrimRight(s: string): string {
    if s != "" && IsSpace(s[|s| - 1]) then TrimRight(s[..|s| - 1]) else s
  }

  function TrimSpace(s: string): string {
    TrimRight(TrimLeft(s))
  }

  /** No white space at either end: exactly the strings TrimSpace leaves alone. */
  predicate Trimmed(s: string) {
    s == "" || (!IsSpace(s[0]) && !IsSpace(s[|s| - 1]))
  }

  lemma TrimSpaceOfTrimmed(s: string)
    requires Trimmed(s)
    ensures TrimSpace(s) == s
  {
  }

  /** Only white space is cut, at both ends, and none is left there. */
  lemma TrimSpaceCuts(s: string) returns (before: string, after: string)
    ensures s == before + TrimSpace(s) + after && Trimmed(TrimSpace(s))
    ensures forall c :: c in before + after ==> IsSpace(c)
  {
    var left := TrimLeftCuts(s);
    var right := TrimRightCuts(TrimLeft(s));
    before, after := left, right;
  }

  lemma {:induction false} TrimLeftCuts(s: string) returns (before: string)
    ensures s == before + TrimLeft(s) && forall c :: c in before ==> IsSpace(c)
    ensures TrimLeft(s) == "" || !IsSpace(TrimLeft(s)[0])
  {
    before := "";
    if s != "" && IsSpace(s[0]) {
      before := TrimLeftCuts(s[1..]);
      before := [s[0]] + before;
    }
  }

  lemma {:induction false} TrimRightCuts(s: string) returns (after: string)
    ensures s == TrimRight(s) + after && forall c :: c in after ==> IsSpace(c)
    ensures TrimRight(s) == "" || !IsSpace(TrimRight(s)[|TrimRight(s)| - 1])
  {
    after := "";
    if s != "" && IsSpace(s[|s| - 1]) {
      after := TrimRightCuts(s[..|s| - 1]);
      after := after + [s[|s| - 1]];
    }
  }

  function LowerChar(c: char): char {
    if 'A' <= c <= 'Z' then c - 'A' + 'a' else c
  }

  function ToLower(s: string): string {
    seq(|s|, i requires 0 <= i < |s| => LowerChar(s[i]))
  }

  const UPPER := "ABCDEFGHIJKLMNOPQRSTUVWXYZ"
  const LOWER := "abcdefghijklmnopqrstuvwxyz"

  lemma LowerCharIs(c: char, i: nat)
    requires i < 26
    ensures LowerChar(UPPER[i]) == LOWER[i]
    ensures c !in UPPER ==> LowerChar(c) == c
  {
    assert c in UPPER || c < 'A' || c > 'Z' by {
      if 'A' <= c <= 'Z' { assert UPPER[c as int - 'A' as int] == c; }
    }
  }

  predicate EqualFold(s: string, t: string) {
    ToLower(s) == ToLower(t)
  }

  predicate HasPrefix(s: string, p: string) {
    p <= s
  }

  predicate Contains(s: string, t: string) {
    exists i :: 0 <= i <= |s| && HasPrefix(s[i..], t)
  }

  lemma ContainsIff(s: string, t: string)
    ensures Contains(s, t) <==> exists before: string, after: string :: s == before + t + after
  {
    if Contains(s, t) {
      var i :| 0 <= i <= |s| && HasPrefix(s[i..], t);
      assert s == s[..i] + t + s[i + |t|..];
    }
    if before: string, after: string :| s == before + t + after {
      assert HasPrefix(s[|before|..], t) by { assert s[|before|..] == t + after; }
    }
  }

  lemma Lacks(s: string, t: string, c: char)
    requires c in t && c !in s
    ensures !Contains(s, t)
  {
    var k :| 0 <= k < |t| && t[k] == c;
    forall i | 0 <= i <= |s| ensures !HasPrefix(s[i..], t) {
      assert i + k < |s| ==> s[i..][k] == s[i + k] && s[i + k] in s;
    }
  }

  predicate HasPair(s: string, i: nat, a: char, b: char) {
    i + 1 < |s| && s[i] == a && s[i + 1] == b
  }

  lemma LacksPair(s: string, t: string)
    requires |t| >= 2 && forall i: nat :: !HasPair(s, i, t[0], t[1])
    ensures !Contains(s, t)
  {
    forall i: nat | i <= |s| ensures !HasPrefix(s[i..], t) {
      assert !HasPair(s, i, t[0], t[1]);
      assert i + 1 < |s| ==> s[i..][0] == s[i] && s[i..][1] == s[i + 1];
    }
  }

  // ----- numbers as text

  function DigitChar(d: nat): char
    requires d < 10
  {
    '0' + d as char
  }

  /** Decimal digits of a natural number. */
  function Digits(n: nat): (s: string)
    ensures s != ""
  {
    if n < 10 then [DigitChar(n)] else Digits(n / 10) + [DigitChar(n % 10)]
  }

  function Itoa(i: int): string {
    if i < 0 then "-" + Digits(-i) else Digits(i)
  }

  /** The pieces of a string between the occurrences of a separator. */
  function Split(s: string, sep: char): (parts: seq<string>)
    ensures parts != []
  {
    if s == "" then [""]
    else
      var rest := Split(s[1..], sep);
      if s[0] == sep then [""] + rest else [[s[0]] + rest[0]] + rest[1..]
  }

  function Join(parts: seq<string>, sep: char): string {
    if parts == [] then "" else if |parts| == 1 then parts[0] else parts[0] + [sep] + Join(parts[1..], sep)
  }

  lemma {:induction false} SplitPiece(p: string, s: string, sep: char)
    requires sep !in p
    ensures Split(p + [sep] + s, sep) == [p] + Split(s, sep)
    ensures Split(p, sep) == [p]
  {
    if p == "" {
      assert p + [sep] + s == [sep] + s;
    } else {
      SplitPiece(p[1..], s, sep);
      assert (p + [sep] + s)[1..] == p[1..] + [sep] + s;
      assert [p[0]] + p[1..] == p;
    }
  }

  lemma {:induction false} SplitJoin(parts: seq<string>, sep: char)
    requires parts != [] && forall p :: p in parts ==> sep !in p
    ensures Split(Join(parts, sep), sep) == parts
  {
    if |parts| == 1 {
      SplitPiece(parts[0], "", sep);
    } else {
      SplitJoin(parts[1..], sep);
      SplitPiece(parts[0], Join(parts[1..], sep), sep);
    }
  }

  lemma {:induction false} JoinSplit(s: string, sep: char)
    ensures Join(Split(s, sep), sep) == s
    ensures forall p :: p in Split(s, sep) ==> sep !in p
  {
    if s != "" {
      JoinSplit(s[1..], sep);
      var rest := Split(s[1..], sep);
      var parts := Split(s, sep);
      if s[0] == sep {
        assert parts[1..] == rest;
        assert Join(parts, sep) == "" + [sep] + Join(rest, sep);
      } else {
        assert parts[1..] == rest[1..];
      }
    }
  }

  // ----- decimal numbers

  predicate IsDigit(c: char) {
    '0' <= c <= '9'
  }

  function DigitsValue(s: string): nat
    requires forall c :: c in s ==> IsDigit(c)
  {
    if s == "" then 0
    else
      assert IsDigit(s[|s| - 1]);
      DigitsValue(s[..|s| - 1]) * 10 + (s[|s| - 1] - '0') as nat
  }

  const MAX_INT: nat := 0x7fff_ffff_ffff_ffff

  /** strconv.Atoi on a 64-bit platform. */
  function Atoi(s: string): Option<int> {
    var negative := s != "" && s[0] == '-';
    var digits := if s != "" && (s[0] == '-' || s[0] == '+') then s[1..] else s;
    if digits == "" || !(forall c :: c in digits ==> IsDigit(c)) then None
    else
      var n: int := DigitsValue(digits);
      if negative then (if n <= MAX_INT + 1 then Some(-n) else None)
      else if n <= MAX_INT then Some(n) else None
  }

  lemma DigitCharIs(d: nat)
    requires d < 10
    ensures IsDigit(DigitChar(d)) && (DigitChar(d) - '0') as nat == d
  {
  }

  lemma {:induction false} DigitsAreDigits(n: nat)
    ensures forall c :: c in Digits(n) ==> IsDigit(c)
    ensures DigitsValue(Digits(n)) == n
  {
    if n < 10 {
      DigitCharIs(n);
      assert DigitsValue("") == 0;
    } else {
      DigitsAreDigits(n / 10);
      DigitCharIs(n % 10);
      var s := Digits(n);
      assert s[..|s| - 1] == Digits(n / 10);
    }
  }

  lemma AtoiOfDigits(n: nat)
    requires n <= MAX_INT
    ensures Atoi(Digits(n)) == Some(n)
  {
    DigitsAreDigits(n);
    assert Digits(n)[0] in Digits(n);
  }

  lemma AppendAssociates<T>(a: seq<T>, b: seq<T>, c: seq<T>)
    ensures (a + b) + c == a + (b + c)
  {
  }
}
