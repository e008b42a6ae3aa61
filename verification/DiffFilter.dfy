/** The section filters on unified diffs: loops over the lines with a capturing flag. */
module DiffFilter {
  import opened Text

  /** The a- and b-paths of a file header, `^diff --git a/(.+) b/(.+)$` with a greedy first group. */
  function Header(line: string): Option<(string, string)> {
    if !HasPrefix(line, "diff --git a/") then None
    else
      var r := line[13..];
      var n := LastSplit(r, |r|);
      if n == 0 then None else Some((r[..n], r[n + 3..]))
  }

  /** The greatest n <= i that leaves a non-empty path on both sides of " b/"; 0 if there is none. */
  function LastSplit(r: string, i: nat): (n: nat)
    requires i <= |r|
    ensures n > 0 ==> n + 3 < |r|
  {
    if i == 0 then 0 else if HasPrefix(r[i..], " b/") && i + 3 < |r| then i else LastSplit(r, i - 1)
  }

  /** The line is a header for these two paths. */
  predicate Heads(line: string, a: string, b: string) {
    a != "" && b != "" && line == "diff --git a/" + a + " b/" + b
  }

  lemma {:induction false} LastSplitIs(r: string, i: nat)
    requires i <= |r|
    ensures var n := LastSplit(r, i);
            && n <= i && (n > 0 ==> HasPrefix(r[n..], " b/"))
            && forall k :: n < k <= i ==> !(HasPrefix(r[k..], " b/") && k + 3 < |r|)
  {
    if i > 0 { LastSplitIs(r, i - 1); }
  }

  lemma HeadsAt(line: string, a: string, b: string)
    requires Heads(line, a, b)
    ensures HasPrefix(line, "diff --git a/") && line[13..] == a + " b/" + b
    ensures HasPrefix(line[13..][|a|..], " b/") && 0 < |a| && |a| + 3 < |line[13..]|
  {
    assert line == "diff --git a/" + (a + " b/" + b);
    assert (a + " b/" + b)[|a|..] == " b/" + b;
  }

  /** A line is a header exactly if it can be read as one, and of all ways to read it the one with the
      longest a-path counts. */
  lemma HeaderIff(line: string)
    ensures Header(line).Some? <==> exists a: string, b: string :: Heads(line, a, b)
    ensures Header(line).Some? ==> Heads(line, Header(line).value.0, Header(line).value.1)
    ensures forall a: string, b: string :: Heads(line, a, b) ==>
              Header(line).Some? && |a| <= |Header(line).value.0|
  {
    if HasPrefix(line, "diff --git a/") {
      var r := line[13..];
      var n := LastSplit(r, |r|);
      LastSplitIs(r, |r|);
      if n > 0 {
        Reassembles(line, "diff --git a/", n, " b/");
        assert Heads(line, r[..n], r[n + 3..]);
      }
    }
    forall a: string, b: string | Heads(line, a, b)
      ensures Header(line).Some? && |a| <= |Header(line).value.0|
    {
      HeadsAt(line, a, b);
    }
  }

  lemma Reassembles(s: string, p: string, n: nat, m: string)
    requires p <= s && n + |m| <= |s| - |p| && HasPrefix(s[|p|..][n..], m)
    ensures s == p + s[|p|..][..n] + m + s[|p|..][n + |m|..]
  {
  }

  /** What a line means to a filter: None for a line of a section, and for the header of a section
      whether the section is wanted. */
  type Wants = string -> Option<bool>

  /** filepath.Match and filepath.Base. */
  datatype Globs = Globs(matches: (string, string) -> bool, base: string -> string)

  predicate MatchesAny(g: Globs, patterns: seq<string>, path: string) {
    exists i :: 0 <= i < |patterns| && (g.matches(patterns[i], path) || g.matches(patterns[i], g.base(path)))
  }

  function ByPatterns(g: Globs, patterns: seq<string>): Wants {
    (line: string) =>
      match Header(line)
      case None => None
      case Some(h) => Some(MatchesAny(g, patterns, h.1))
  }

  predicate HasSuffix(s: string, t: string) {
    |t| <= |s| && s[|s| - |t|..] == t
  }

  predicate IsTarget(path: string, target: string) {
    path == target || HasSuffix(path, "/" + target)
  }

  function ByFile(target: string): Wants {
    (line: string) =>
      match Header(line)
      case None => None
      case Some(h) => Some(IsTarget(h.0, target) || IsTarget(h.1, target))
  }

  /** Of all ways to read the header, this one has the longest a-path. */
  ghost predicate HeadsLongest(line: string, a: string, b: string) {
    Heads(line, a, b) && forall c: string, d: string :: Heads(line, c, d) ==> |c| <= |a|
  }

  lemma HeaderIs(line: string, a: string, b: string)
    requires HeadsLongest(line, a, b)
    ensures Header(line) == Some((a, b))
  {
    HeaderIff(line);
    SameParts(line, "diff --git a/", a, " b/", b, Header(line).value.0, Header(line).value.1);
  }

  lemma SameParts(s: string, p: string, a: string, m: string, b: string, c: string, d: string)
    requires s == p + a + m + b == p + c + m + d && |a| == |c|
    ensures a == c && b == d
  {
    assert a == s[|p|..|p| + |a|] == c;
    assert b == s[|p| + |a| + |m|..] == d;
  }

  /** The patterns are held against the b-path of a header, whole and without its directories. */
  lemma PatternsWant(g: Globs, patterns: seq<string>, line: string, a: string, b: string)
    requires HeadsLongest(line, a, b)
    ensures ByPatterns(g, patterns)(line) ==
            Some(exists p :: p in patterns && (g.matches(p, b) || g.matches(p, g.base(b))))
  {
    HeaderIs(line, a, b);
    MatchesSome(g, patterns, b);
  }

  lemma MatchesSome(g: Globs, patterns: seq<string>, path: string)
    ensures MatchesAny(g, patterns, path) <==>
            exists p :: p in patterns && (g.matches(p, path) || g.matches(p, g.base(path)))
  {
  }

  /** A file is wanted if either path of the header is the target or lies in some directory under it. */
  lemma FileWants(target: string, line: string, a: string, b: string)
    requires HeadsLongest(line, a, b)
    ensures ByFile(target)(line) == Some(Names(a, target) || Names(b, target))
  {
    HeaderIs(line, a, b);
    NamesIff(a, target);
    NamesIff(b, target);
  }

  ghost predicate Names(path: string, target: string) {
    path == target || exists dir: string :: path == dir + "/" + target
  }

  lemma NamesIff(path: string, target: string)
    ensures IsTarget(path, target) <==> Names(path, target)
  {
    if HasSuffix(path, "/" + target) {
      assert path == path[..|path| - |target| - 1] + "/" + target;
    }
    if dir: string :| path == dir + "/" + target {
      assert path == dir + ("/" + target);
    }
  }

  // ----- sections: the reference definition

  /** Lines as what stands before the first header, and sections that start with their header. */
  datatype Parts = Parts(before: seq<string>, sections: seq<seq<string>>)

  function Sections(wants: Wants, lines: seq<string>): Parts {
    if lines == [] then Parts([], [])
    else
      var rest := Sections(wants, lines[1..]);
      if wants(lines[0]).Some? then Parts([], [[lines[0]] + rest.before] + rest.sections)
      else Parts([lines[0]] + rest.before, rest.sections)
  }

  predicate Wanted(wants: Wants, section: seq<string>) {
    section != [] && wants(section[0]) == Some(true)
  }

  function AllWanted(wants: Wants, sections: seq<seq<string>>): seq<string> {
    if sections == [] then []
    else (if Wanted(wants, sections[0]) then sections[0] else []) + AllWanted(wants, sections[1..])
  }

  /** The sections up to the first unwanted one. */
  function WantedRun(wants: Wants, sections: seq<seq<string>>): seq<string> {
    if sections == [] || !Wanted(wants, sections[0]) then [] else sections[0] + WantedRun(wants, sections[1..])
  }

  /** The first maximal run of consecutive wanted sections. */
  function FirstRun(wants: Wants, sections: seq<seq<string>>): seq<string> {
    if sections == [] then []
    else if Wanted(wants, sections[0]) then WantedRun(wants, sections)
    else FirstRun(wants, sections[1..])
  }

  function Flatten(sections: seq<seq<string>>): seq<string> {
    if sections == [] then [] else sections[0] + Flatten(sections[1..])
  }

  predicate NoHeader(wants: Wants, lines: seq<string>) {
    forall l :: l in lines ==> wants(l).None?
  }

  /** One header and the lines up to the next. */
  predicate IsSection(wants: Wants, section: seq<string>) {
    section != [] && wants(section[0]).Some? && NoHeader(wants, section[1..])
  }

  /** What is kept of sections is kept of each of them: all of a wanted one, nothing of another. */
  lemma {:induction false} WantedSectionsStay(wants: Wants, sections: seq<seq<string>>, section: seq<string>)
    requires IsSection(wants, section)
    ensures AllWanted(wants, []) == []
    ensures AllWanted(wants, sections + [section]) ==
            AllWanted(wants, sections) + if wants(section[0]).value then section else []
    decreases |sections|
  {
    if sections == [] {
      assert [] + [section] == [section];
    } else {
      var first := if Wanted(wants, sections[0]) then sections[0] else [];
      assert (sections + [section])[1..] == sections[1..] + [section];
      WantedSectionsStay(wants, sections[1..], section);
      AppendAssociates(first, AllWanted(wants, sections[1..]), if wants(section[0]).value then section else []);
    }
  }

  predicate AllAre(wants: Wants, sections: seq<seq<string>>, wanted: bool) {
    forall s :: s in sections ==> Wanted(wants, s) == wanted
  }

  lemma {:induction false} RunIsKept(wants: Wants, run: seq<seq<string>>, after: seq<seq<string>>)
    requires AllAre(wants, run, true) && (after == [] || !Wanted(wants, after[0]))
    ensures WantedRun(wants, run + after) == Flatten(run)
    decreases |run|
  {
    if run == [] {
      assert run + after == after;
    } else {
      assert (run + after)[1..] == run[1..] + after && run[0] in run;
      RunIsKept(wants, run[1..], after);
    }
  }

  /** Of sections that are unwanted, wanted and then anything from an unwanted one on, the first run is those
      in the middle. */
  lemma {:induction false} FirstRunIs(wants: Wants, before: seq<seq<string>>, run: seq<seq<string>>,
                                      after: seq<seq<string>>)
    requires AllAre(wants, before, false) && AllAre(wants, run, true)
    requires after == [] || (run != [] && !Wanted(wants, after[0]))
    ensures FirstRun(wants, before + run + after) == Flatten(run)
    decreases |before|
  {
    if before == [] {
      assert before + run + after == run + after;
      RunIsKept(wants, run, after);
      assert run != [] ==> run[0] in run;
    } else {
      assert (before + run + after)[1..] == before[1..] + run + after && before[0] in before;
      FirstRunIs(wants, before[1..], run, after);
    }
  }

  /** Sectioning loses no line. */
  lemma {:induction false} SectionsPartition(wants: Wants, lines: seq<string>)
    ensures var p := Sections(wants, lines); lines == p.before + Flatten(p.sections)
    ensures forall s :: s in Sections(wants, lines).sections ==> IsSection(wants, s)
    ensures NoHeader(wants, Sections(wants, lines).before)
  {
    if lines != [] {
      SectionsPartition(wants, lines[1..]);
      var rest := Sections(wants, lines[1..]);
      assert lines == [lines[0]] + (rest.before + Flatten(rest.sections));
      assert [lines[0]] + (rest.before + Flatten(rest.sections)) == ([lines[0]] + rest.before) + Flatten(rest.sections);
    }
  }

  // ----- the loops as functions of the lines

  function Kept(wants: Wants, lines: seq<string>, capturing: bool): seq<string> {
    if lines == [] then []
    else
      match wants(lines[0])
      case Some(w) => (if w then [lines[0]] else []) + Kept(wants, lines[1..], w)
      case None => (if capturing then [lines[0]] else []) + Kept(wants, lines[1..], capturing)
  }

  function KeptRun(wants: Wants, lines: seq<string>, capturing: bool): seq<string> {
    if lines == [] then []
    else
      match wants(lines[0])
      case Some(true) => [lines[0]] + KeptRun(wants, lines[1..], true)
      case Some(false) => if capturing then [] else KeptRun(wants, lines[1..], false)
      case None => (if capturing then [lines[0]] else []) + KeptRun(wants, lines[1..], capturing)
  }

  lemma {:induction false} KeptIsAllWanted(wants: Wants, lines: seq<string>, capturing: bool)
    ensures var p := Sections(wants, lines);
            Kept(wants, lines, capturing) == (if capturing then p.before else []) + AllWanted(wants, p.sections)
  {
    if lines != [] {
      var rest := Sections(wants, lines[1..]);
      var now := match wants(lines[0]) case Some(w) => w case None => capturing;
      KeptIsAllWanted(wants, lines[1..], now);
      AppendAssociates([lines[0]], rest.before, AllWanted(wants, rest.sections));
      if wants(lines[0]).Some? { assert Sections(wants, lines).sections[1..] == rest.sections; }
    }
  }

  lemma {:induction false} KeptRunIsFirstRun(wants: Wants, lines: seq<string>, capturing: bool)
    ensures var p := Sections(wants, lines);
            KeptRun(wants, lines, capturing) ==
            if capturing then p.before + WantedRun(wants, p.sections) else FirstRun(wants, p.sections)
  {
    if lines != [] {
      var rest := Sections(wants, lines[1..]);
      var now := match wants(lines[0]) case Some(w) => w case None => capturing;
      KeptRunIsFirstRun(wants, lines[1..], now);
      AppendAssociates([lines[0]], rest.before, WantedRun(wants, rest.sections));
      if wants(lines[0]).Some? { assert Sections(wants, lines).sections[1..] == rest.sections; }
    }
  }

  // ----- the filters

  function Unlines(lines: seq<string>): string {
    if lines == [] then "" else lines[0] + "\n" + Unlines(lines[1..])
  }

  function TrimNewline(s: string): string {
    if HasSuffix(s, "\n") then s[..|s| - 1] else s
  }

  lemma {:induction false} UnlinesJoin(lines: seq<string>)
    ensures TrimNewline(Unlines(lines)) == Join(lines, '\n')
    ensures lines != [] ==> Unlines(lines) == Join(lines, '\n') + "\n"
  {
    if |lines| == 1 {
      assert lines[1..] == [] && Unlines(lines) == lines[0] + "\n" + "" == lines[0] + "\n";
    } else if lines != [] {
      UnlinesJoin(lines[1..]);
      assert Unlines(lines) == Join(lines, '\n') + "\n";
    }
  }

  lemma {:induction false} UnlinesAppends(lines: seq<string>, line: string)
    ensures Unlines(lines + [line]) == Unlines(lines) + (line + "\n")
  {
    if lines == [] {
      assert [] + [line] == [line];
      assert Unlines([line]) == line + "\n" + "";
    } else {
      assert (lines + [line])[1..] == lines[1..] + [line];
      UnlinesAppends(lines[1..], line);
    }
  }

  /** The newline join, in order, of the lines of the wanted sections. */
  function FilterText(wants: Wants, diff: string): string {
    Join(AllWanted(wants, Sections(wants, Split(diff, '\n')).sections), '\n')
  }

  /** The loop that keeps every wanted section: the flag is set anew at each header. */
  method KeepWanted(wants: Wants, lines: seq<string>) returns (result: string)
    ensures result == Unlines(Kept(wants, lines, false))
  {
    ghost var kept: seq<string> := [];
    var capturing := false;
    result := "";
    for i := 0 to |lines|
      invariant result == Unlines(kept)
      invariant Kept(wants, lines, false) == kept + Kept(wants, lines[i..], capturing)
    {
      var line, rest := lines[i], lines[i + 1..];
      assert lines[i..] == [line] + rest;
      var header := wants(line);
      if header.Some? { capturing := header.value; }
      if capturing {
        UnlinesAppends(kept, line);
        AppendAssociates(kept, [line], Kept(wants, rest, true));
        result := result + (line + "\n");
        kept := kept + [line];
      } else {
        assert [] + Kept(wants, rest, false) == Kept(wants, rest, false);
      }
    }
    assert kept + [] == kept;
  }

  /** The loop that stops at the first unwanted header after it has kept something. */
  method KeepFirstRun(wants: Wants, lines: seq<string>) returns (result: string)
    ensures result == Unlines(KeptRun(wants, lines, false))
  {
    ghost var kept: seq<string> := [];
    var capturing, i := false, 0;
    result := "";
    while i < |lines|
      invariant i <= |lines| && result == Unlines(kept)
      invariant KeptRun(wants, lines, false) == kept + KeptRun(wants, lines[i..], capturing)
    {
      var line, rest := lines[i], lines[i + 1..];
      assert lines[i..] == [line] + rest;
      var header := wants(line);
      if header == Some(true) {
        capturing := true;
      } else if header == Some(false) && capturing {
        break;
      }
      if capturing {
        UnlinesAppends(kept, line);
        AppendAssociates(kept, [line], KeptRun(wants, rest, true));
        result := result + (line + "\n");
        kept := kept + [line];
      } else {
        assert [] + KeptRun(wants, rest, false) == KeptRun(wants, rest, false);
      }
      i := i + 1;
    }
    assert kept + [] == kept;
  }

  /** Filtering by patterns is exactly section filtering. */
  method FilterDiffByPatterns(g: Globs, diff: string, patterns: seq<string>) returns (r: string)
    ensures r == if patterns == [] then diff else FilterText(ByPatterns(g, patterns), diff)
  {
    if |patterns| == 0 { return diff; }
    var wants, lines := ByPatterns(g, patterns), Split(diff, '\n');
    var result := KeepWanted(wants, lines);
    KeptIsAllWanted(wants, lines, false);
    Wholes(AllWanted(wants, Sections(wants, lines).sections));
    UnlinesJoin(Kept(wants, lines, false));
    r := TrimNewline(result);
  }

  /** The result is exactly the first maximal run of consecutive sections of the file. */
  method FilterDiffByFile(diff: string, targetPath: string) returns (r: string)
    ensures var wants := ByFile(if HasPrefix(targetPath, "/") then targetPath[1..] else targetPath);
            r == Join(FirstRun(wants, Sections(wants, Split(diff, '\n')).sections), '\n')
  {
    var target := if HasPrefix(targetPath, "/") then targetPath[1..] else targetPath;
    var wants, lines := ByFile(target), Split(diff, '\n');
    var result := KeepFirstRun(wants, lines);
    KeptRunIsFirstRun(wants, lines, false);
    UnlinesJoin(KeptRun(wants, lines, false));
    r := TrimNewline(result);
  }

  lemma Wholes(s: seq<string>)
    ensures [] + s == s
  {
  }

  // ----- filtering twice

  lemma {:induction false} KeptAgain(wants: Wants, lines: seq<string>, c: bool)
    ensures var k := Kept(wants, lines, c); Kept(wants, k, true) == k
    ensures !c ==> Kept(wants, lines, c) == [] || wants(Kept(wants, lines, c)[0]) == Some(true)
    ensures forall l :: l in Kept(wants, lines, c) ==> l in lines
  {
    if lines != [] {
      var now := match wants(lines[0]) case Some(w) => w case None => c;
      KeptAgain(wants, lines[1..], now);
      var rest := Kept(wants, lines[1..], now);
      assert forall l :: l in lines[1..] ==> l in lines;
      if now {
        assert Kept(wants, lines, c) == [lines[0]] + rest;
        assert ([lines[0]] + rest)[1..] == rest;
      } else {
        assert Kept(wants, lines, c) == [] + rest == rest;
      }
    }
  }

  /** Filtering is idempotent, whatever the glob engine matches. */
  lemma FilterIsIdempotent(g: Globs, patterns: seq<string>, diff: string)
    ensures var wants := ByPatterns(g, patterns);
            FilterText(wants, FilterText(wants, diff)) == FilterText(wants, diff)
  {
    var wants, lines := ByPatterns(g, patterns), Split(diff, '\n');
    var kept := Kept(wants, lines, false);
    KeptIsAllWanted(wants, lines, false);
    KeptIsAllWanted(wants, Split(FilterText(wants, diff), '\n'), false);
    Wholes(AllWanted(wants, Sections(wants, lines).sections));
    Wholes(AllWanted(wants, Sections(wants, Split(FilterText(wants, diff), '\n')).sections));
    JoinSplit(diff, '\n');
    KeptAgain(wants, lines, false);
    if kept == [] {
      assert Split("", '\n') == [""] && Header("").None?;
      assert Kept(wants, [""], false) == [];
    } else {
      SplitJoin(kept, '\n');
      assert Kept(wants, kept, false) == Kept(wants, kept, true);
    }
  }
}
