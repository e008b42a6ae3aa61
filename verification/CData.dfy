/** The unwrapping of CDATA sections before the XHTML parser sees the text. */
module CData {

  const OPEN := "<![CDATA["
  const CLOSE := "]]>"

  predicate At(s: string, i: nat, t: string) {
    i + |t| <= |s| && s[i..i + |t|] == t
  }

  ghost predicate NoneIn(s: string, t: string) {
    forall i: nat :: !At(s, i, t)
  }

  /** The first place of t at or behind the given one. */
  function Index(s: string, t: string, from: nat): (r: int)
    ensures r == -1 || (from <= r && At(s, r, t))
    ensures forall k: nat :: from <= k && (r == -1 || k < r) ==> !At(s, k, t)
    decreases |s| - from
  {
    if from + |t| > |s| then -1 else if At(s, from, t) then from else Index(s, t, from + 1)
  }

  /** A marker pair that the unwrapping would remove. */
  predicate SectionAt(s: string, i: nat, j: nat) {
    At(s, i, OPEN) && i + |OPEN| <= j && At(s, j, CLOSE)
  }

  /** Unwraps the section at i, j. */
  function Unwrapped(s: string, i: nat, j: nat): (r: string)
    requires SectionAt(s, i, j)
    ensures |r| == |s| - |OPEN| - |CLOSE|
  {
    s[..i] + s[i + |OPEN|..j] + s[j + |CLOSE|..]
  }

  function Strip(s: string): (r: string)
    ensures |r| <= |s|
    decreases |s|
  {
    var i := Index(s, OPEN, 0);
    if i < 0 then s
    else
      var j := Index(s, CLOSE, i + |OPEN|);
      if j < 0 then s else Strip(Unwrapped(s, i, j))
  }

  lemma StripsFirst(s: string, i: nat, j: nat)
    requires i == Index(s, OPEN, 0) && i + |OPEN| <= |s| && j == Index(s, CLOSE, i + |OPEN|)
    ensures SectionAt(s, i, j) && Strip(s) == Strip(Unwrapped(s, i, j))
  {
  }

  lemma UnwrappedIs(s: string, i: nat, j: nat, t: string)
    requires SectionAt(s, i, j) && s[..i] + s[i + |OPEN|..j] + s[j + |CLOSE|..] == t
    ensures Unwrapped(s, i, j) == t
  {
  }

  lemma UnwrapsOnce(s: string, i: nat, j: nat, t: string)
    requires i == Index(s, OPEN, 0) && i + |OPEN| <= |s| && j == Index(s, CLOSE, i + |OPEN|)
    requires s[..i] + s[i + |OPEN|..j] + s[j + |CLOSE|..] == t
    ensures Strip(s) == Strip(t)
  {
    StripsFirst(s, i, j);
    UnwrappedIs(s, i, j, t);
  }

  /** The loop starts over after every section, so it also unwraps sections that come about by
      unwrapping. It ends because every section shortens the text. */
  method StripCdata(input: string) returns (s: string)
    ensures s == Strip(input)
    ensures forall i: nat, j: nat :: !SectionAt(s, i, j)
  {
    s := input;
    while true
      invariant Strip(s) == Strip(input)
      decreases |s|
    {
      var i := Index(s, OPEN, 0);
      if i < 0 { return; }
      var j := Index(s, CLOSE, i + |OPEN|);
      if j < 0 { return; }
      var payload := s[i + |OPEN|..j];
      UnwrapsOnce(s, i, j, s[..i] + payload + s[j + |CLOSE|..]);
      s := s[..i] + payload + s[j + |CLOSE|..];
    }
  }

  // ----- documents with sections

  /** A text and the CDATA section behind it. */
  datatype Piece = Piece(text: string, payload: string)

  function Render(pieces: seq<Piece>, tail: string): string {
    if pieces == [] then tail
    else pieces[0].text + OPEN + pieces[0].payload + CLOSE + Render(pieces[1..], tail)
  }

  /** What the document says: texts and payloads in order, without the markers. */
  function Plain(pieces: seq<Piece>, tail: string): string {
    if pieces == [] then tail else pieces[0].text + pieces[0].payload + Plain(pieces[1..], tail)
  }

  /** No marker can begin in the text before the first one and end inside it. */
  lemma FirstOpen(s: string, before: string, rest: string)
    requires s == before + OPEN + rest && NoneIn(before, OPEN)
    ensures Index(s, OPEN, 0) == |before|
  {
    assert At(s, |before|, OPEN);
    forall k: nat | k < |before| ensures !At(s, k, OPEN) {
      assert !At(before, k, OPEN);
      if k + |OPEN| <= |before| {
        assert s[k..k + |OPEN|] == before[k..k + |OPEN|];
      } else {
        var m := |before| - k;
        assert s[k..k + |OPEN|][m] == s[|before|] == '<' != OPEN[m];
      }
    }
  }

  /** The first closing marker behind a payload that holds none is the section's own, even if the
      payload ends in brackets. */
  lemma FirstClose(s: string, before: string, payload: string, rest: string)
    requires s == before + payload + CLOSE + rest && NoneIn(payload, CLOSE)
    ensures Index(s, CLOSE, |before|) == |before| + |payload|
  {
    var n := |before| + |payload|;
    assert At(s, n, CLOSE);
    forall k: nat | |before| <= k < n ensures !At(s, k, CLOSE) {
      assert !At(payload, k - |before|, CLOSE);
      if k + 2 < n {
        assert s[k..k + 3] == payload[k - |before|..k - |before| + 3];
      } else {
        assert s[k..k + 3][2] == s[k + 2] == ']' != CLOSE[2];
      }
    }
  }

  lemma Regroup(a: string, b: string, c: string, d: string, e: string)
    ensures a + b + c + d + e == a + b + (c + d + e)
  {
  }

  lemma UnwrapJoins(s: string, before: string, payload: string, rest: string, i: nat, j: nat, t: string)
    requires s == before + OPEN + payload + CLOSE + rest && t == before + payload + rest
    requires i == |before| && j == i + |OPEN| + |payload|
    ensures s[..i] + s[i + |OPEN|..j] + s[j + |CLOSE|..] == t
  {
    assert s[..i] == before;
    assert s[i + |OPEN|..j] == payload;
    assert s[j + |CLOSE|..] == rest;
  }

  lemma SectionOpens(s: string, before: string, payload: string, rest: string)
    requires s == before + OPEN + payload + CLOSE + rest && NoneIn(before, OPEN)
    ensures Index(s, OPEN, 0) == |before|
  {
    Regroup(before, OPEN, payload, CLOSE, rest);
    FirstOpen(s, before, payload + CLOSE + rest);
  }

  lemma SectionCloses(s: string, before: string, payload: string, rest: string)
    requires s == before + OPEN + payload + CLOSE + rest && NoneIn(payload, CLOSE)
    ensures Index(s, CLOSE, |before| + |OPEN|) == |before| + |OPEN| + |payload|
  {
    FirstClose(s, before + OPEN, payload, rest);
  }

  lemma UnwrapsFirst(s: string, before: string, payload: string, rest: string)
    requires s == before + OPEN + payload + CLOSE + rest && NoneIn(before, OPEN) && NoneIn(payload, CLOSE)
    ensures Strip(s) == Strip(before + payload + rest)
  {
    var i, j, t := |before|, |before| + |OPEN| + |payload|, before + payload + rest;
    SectionOpens(s, before, payload, rest);
    SectionCloses(s, before, payload, rest);
    UnwrapJoins(s, before, payload, rest, i, j, t);
    UnwrapsOnce(s, i, j, t);
  }

  lemma NoneInPrefix(s: string, more: string, t: string)
    requires NoneIn(s + more, t)
    ensures NoneIn(s, t)
  {
    forall i: nat ensures !At(s, i, t) {
      assert !At(s + more, i, t);
      if i + |t| <= |s| { assert (s + more)[i..i + |t|] == s[i..i + |t|]; }
    }
  }

  lemma NothingToStrip(s: string)
    requires NoneIn(s, OPEN)
    ensures Strip(s) == s
  {
  }

  lemma {:induction false} StripAfter(before: string, pieces: seq<Piece>, tail: string)
    requires forall p :: p in pieces ==> NoneIn(p.payload, CLOSE)
    requires NoneIn(before + Plain(pieces, tail), OPEN)
    ensures Strip(before + Render(pieces, tail)) == before + Plain(pieces, tail)
    decreases |pieces|
  {
    if pieces == [] {
      NothingToStrip(before + tail);
    } else {
      var p, rest := pieces[0], pieces[1..];
      var b, plain, render := before + p.text, Plain(rest, tail), Render(rest, tail);
      assert before + Plain(pieces, tail) == b + (p.payload + plain) == (b + p.payload) + plain;
      assert before + Render(pieces, tail) == b + OPEN + p.payload + CLOSE + render;
      NoneInPrefix(b, p.payload + plain, OPEN);
      UnwrapsFirst(before + Render(pieces, tail), b, p.payload, render);
      StripAfter(b + p.payload, rest, tail);
    }
  }

  /** Unwrapping a document yields what it says, if no payload holds a closing marker and the result
      shows no opening one. */
  lemma StripOfSections(pieces: seq<Piece>, tail: string)
    requires forall p :: p in pieces ==> NoneIn(p.payload, CLOSE)
    requires NoneIn(Plain(pieces, tail), OPEN)
    ensures Strip(Render(pieces, tail)) == Plain(pieces, tail)
  {
    assert "" + Plain(pieces, tail) == Plain(pieces, tail);
    assert "" + Render(pieces, tail) == Render(pieces, tail);
    StripAfter("", pieces, tail);
  }

  /** Unwrapping twice is unwrapping once, and exactly the texts without a section stay as they are. */
  lemma {:induction false} StripIsStable(s: string)
    ensures Strip(Strip(s)) == Strip(s)
    ensures Strip(s) == s <==> forall i: nat, j: nat :: !SectionAt(s, i, j)
    decreases |s|
  {
    var i := Index(s, OPEN, 0);
    if i >= 0 {
      var j := Index(s, CLOSE, i + |OPEN|);
      if j >= 0 {
        assert SectionAt(s, i, j);
        StripIsStable(Unwrapped(s, i, j));
      }
    }
  }
}
