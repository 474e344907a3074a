/** The generator's manifest file: a header line, then one owned path a line. */
module Manifest {
  import opened CodePoints

  type Path = string

  // ----- Text -----

  predicate IsBreak(c: char) { IsLineBreak(c as int) }

  predicate IsSpace(c: char) { IsWhiteSpace(c as int) }

  /** The first line and what follows its line break; a carriage return and line feed are one break. */
  function FirstLine(s: string): (r: (string, string))
    ensures s != [] ==> |r.1| < |s|
    ensures forall i | 0 <= i < |r.0| :: !IsBreak(r.0[i])
  {
    if s == [] then ([], [])
    else if s[0] == '\r' && |s| > 1 && s[1] == '\n' then ([], s[2..])
    else if IsBreak(s[0]) then ([], s[1..])
    else
      var (line, rest) := FirstLine(s[1..]);
      ([s[0]] + line, rest)
  }

  function SplitLines(s: string): seq<string>
    decreases |s|
  {
    if s == [] then [] else [FirstLine(s).0] + SplitLines(FirstLine(s).1)
  }

  function StripLeft(s: string): string {
    if s != [] && IsSpace(s[0]) then StripLeft(s[1..]) else s
  }

  function StripRight(s: string): string {
    if s != [] && IsSpace(s[|s| - 1]) then StripRight(s[..|s| - 1]) else s
  }

  function Strip(s: string): string {
    StripRight(StripLeft(s))
  }

  /** Every line followed by a newline, as joining with an empty last line writes them. */
  function Unlines(lines: seq<string>): string {
    if lines == [] then [] else lines[0] + "\n" + Unlines(lines[1..])
  }

  // ----- Save and load -----

  const HEADER := "# Generated by hassette-codegen " + ['\U{2014}'] + " do not edit manually"

  /** `save_manifest` of the owned paths, which the generator sorts. */
  function Save(owned: seq<Path>): string {
    Unlines([HEADER] + owned)
  }

  predicate IsComment(s: string) { s != [] && s[0] == '#' }

  function Paths(lines: seq<string>): set<Path> {
    if lines == [] then {}
    else
      var stripped := Strip(lines[|lines| - 1]);
      Paths(lines[..|lines| - 1]) + if stripped == [] || IsComment(stripped) then {} else {stripped}
  }

  function Loaded(text: string): set<Path> { Paths(SplitLines(text)) }

  /** `load_manifest` of an existing file. */
  method Load(text: string) returns (owned: set<Path>)
    ensures owned == Loaded(text)
  {
    var lines := SplitLines(text);
    owned := {};
    for i := 0 to |lines|
      invariant owned == Paths(lines[..i])
    {
      assert lines[..i + 1][..i] == lines[..i];
      var stripped := Strip(lines[i]);
      if stripped == [] || IsComment(stripped) {
        continue;
      }
      owned := owned + {stripped};
    }
    assert lines[..|lines|] == lines;
  }

  /** A path the format can hold: not empty, on one line, no space at its ends, no comment. */
  predicate Clean(p: Path) {
    && p != []
    && (forall i | 0 <= i < |p| :: !IsBreak(p[i]))
    && !IsSpace(p[0])
    && !IsSpace(p[|p| - 1])
    && !IsComment(p)
  }

  lemma {:induction false} FirstLineOf(line: string, rest: string)
    requires forall i | 0 <= i < |line| :: !IsBreak(line[i])
    ensures FirstLine(line + "\n" + rest) == (line, rest)
  {
    var s := line + "\n" + rest;
    if line == [] {
      assert s == "\n" + rest && s[1..] == rest;
    } else {
      FirstLineOf(line[1..], rest);
      assert s[1..] == line[1..] + "\n" + rest;
      assert line == [line[0]] + line[1..];
    }
  }

  lemma {:induction false} SplitUnlines(lines: seq<string>)
    requires forall k, i | 0 <= k < |lines| && 0 <= i < |lines[k]| :: !IsBreak(lines[k][i])
    ensures SplitLines(Unlines(lines)) == lines
  {
    if lines != [] {
      FirstLineOf(lines[0], Unlines(lines[1..]));
      SplitUnlines(lines[1..]);
    }
  }

  lemma {:induction false} StripLeftIs(s: string)
    ensures StripLeft(s) != [] ==> !IsSpace(StripLeft(s)[0])
    ensures IsOneLine(s) ==> IsOneLine(StripLeft(s))
  {
    if s != [] && IsSpace(s[0]) {
      StripLeftIs(s[1..]);
    }
  }

  lemma {:induction false} StripRightIs(s: string)
    ensures StripRight(s) <= s
    ensures StripRight(s) != [] ==> !IsSpace(StripRight(s)[|StripRight(s)| - 1])
  {
    if s != [] && IsSpace(s[|s| - 1]) {
      StripRightIs(s[..|s| - 1]);
    }
  }

  /** What is loaded is clean. */
  lemma {:induction false} LoadedAreClean(lines: seq<string>)
    requires forall k, i | 0 <= k < |lines| && 0 <= i < |lines[k]| :: !IsBreak(lines[k][i])
    ensures forall p | p in Paths(lines) :: Clean(p)
  {
    if lines != [] {
      var last := lines[|lines| - 1];
      LoadedAreClean(lines[..|lines| - 1]);
      StripLeftIs(last);
      StripRightIs(StripLeft(last));
    }
  }

  lemma NothingToStrip(p: string)
    requires p != [] && !IsSpace(p[0]) && !IsSpace(p[|p| - 1])
    ensures Strip(p) == p
  {
  }

  lemma {:induction false} PathsOf(lines: seq<string>)
    requires forall k | 0 <= k < |lines| :: Clean(lines[k])
    ensures Paths(lines) == set p | p in lines
  {
    if lines != [] {
      var init, last := lines[..|lines| - 1], lines[|lines| - 1];
      PathsOf(init);
      NothingToStrip(last);
      assert lines == init + [last];
    }
  }

  lemma {:induction false} PathsAfterComment(h: string, lines: seq<string>)
    requires IsComment(Strip(h))
    ensures Paths([h] + lines) == Paths(lines)
  {
    if lines == [] {
      assert [h] + lines == [h];
      assert [h][..0] == [];
    } else {
      var init := lines[..|lines| - 1];
      PathsAfterComment(h, init);
      assert ([h] + lines)[..|lines|] == [h] + init;
    }
  }

  lemma HeaderIsComment()
    ensures IsComment(Strip(HEADER)) && forall i | 0 <= i < |HEADER| :: !IsBreak(HEADER[i])
  {
    assert HEADER[0] == '#' && HEADER[|HEADER| - 1] == 'y';
    NothingToStrip(HEADER);
  }

  lemma {:induction false} SplitHasNoBreaks(s: string)
    ensures forall k, i | 0 <= k < |SplitLines(s)| && 0 <= i < |SplitLines(s)[k]| :: !IsBreak(SplitLines(s)[k][i])
    decreases |s|
  {
    if s != [] {
      SplitHasNoBreaks(FirstLine(s).1);
    }
  }

  /** Loading what was saved gives back the same paths exactly if every one of them is clean. */
  lemma ManifestRoundTrip(owned: seq<Path>)
    ensures Loaded(Save(owned)) == (set p | p in owned) <==> forall p | p in owned :: Clean(p)
  {
    var text := Save(owned);
    if forall p | p in owned :: Clean(p) {
      var lines := [HEADER] + owned;
      HeaderIsComment();
      forall k, i | 0 <= k < |lines| && 0 <= i < |lines[k]|
        ensures !IsBreak(lines[k][i])
      {
        assert k > 0 ==> lines[k] in owned;
      }
      SplitUnlines(lines);
      PathsAfterComment(HEADER, owned);
      assert forall k | 0 <= k < |owned| :: owned[k] in owned;
      PathsOf(owned);
    }
    WhatIsLoadedIsClean(text);
  }

  /** Whatever is in the file, every path loaded from it is clean. */
  lemma WhatIsLoadedIsClean(text: string)
    ensures forall p | p in Loaded(text) :: Clean(p)
  {
    SplitHasNoBreaks(text);
    LoadedAreClean(SplitLines(text));
  }

  // ----- What is loaded from any file -----

  ghost predicate AllSpace(s: string) { forall i | 0 <= i < |s| :: IsSpace(s[i]) }

  /** The line is `p` with nothing but white space around it. */
  ghost predicate IsMargined(line: string, p: string) {
    exists i, j :: 0 <= i <= j <= |line| && AllSpace(line[..i]) && line[i..j] == p && AllSpace(line[j..])
  }

  lemma {:induction false} StripLeftSplits(s: string) returns (i: nat)
    ensures i <= |s| && AllSpace(s[..i]) && StripLeft(s) == s[i..]
  {
    i := 0;
    if s != [] && IsSpace(s[0]) {
      var k := StripLeftSplits(s[1..]);
      i := k + 1;
      assert s[..i] == [s[0]] + s[1..][..k];
    }
  }

  lemma {:induction false} StripRightSplits(s: string) returns (j: nat)
    ensures j <= |s| && AllSpace(s[j..]) && StripRight(s) == s[..j]
  {
    j := |s|;
    if s != [] && IsSpace(s[|s| - 1]) {
      j := StripRightSplits(s[..|s| - 1]);
      assert s[j..] == s[..|s| - 1][j..] + [s[|s| - 1]];
      assert s[..|s| - 1][..j] == s[..j];
    }
  }

  lemma StripIsMargined(line: string)
    ensures IsMargined(line, Strip(line))
  {
    var i := StripLeftSplits(line);
    var rest := line[i..];
    var j := StripRightSplits(rest);
    assert line[i..i + j] == rest[..j] && line[i + j..] == rest[j..];
  }

  lemma {:induction false} StripLeftOf(s: string, i: nat)
    requires i < |s| && AllSpace(s[..i]) && !IsSpace(s[i])
    ensures StripLeft(s) == s[i..]
  {
    if i > 0 {
      assert s[..i][0] == s[0] && s[1..][..i - 1] == s[..i][1..];
      StripLeftOf(s[1..], i - 1);
    }
  }

  lemma {:induction false} StripRightOf(s: string, j: nat)
    requires 0 < j <= |s| && AllSpace(s[j..]) && !IsSpace(s[j - 1])
    ensures StripRight(s) == s[..j]
    decreases |s|
  {
    if j < |s| {
      assert s[j..][|s| - 1 - j] == s[|s| - 1];
      assert s[..|s| - 1][j..] == s[j..][..|s| - 1 - j];
      StripRightOf(s[..|s| - 1], j);
      assert s[..|s| - 1][..j] == s[..j];
    } else {
      assert s[..j] == s;
    }
  }

  lemma MarginedIsStripped(line: string, p: string)
    requires IsMargined(line, p) && p != [] && !IsSpace(p[0]) && !IsSpace(p[|p| - 1])
    ensures Strip(line) == p
  {
    var i, j :| 0 <= i <= j <= |line| && AllSpace(line[..i]) && line[i..j] == p && AllSpace(line[j..]);
    assert line[i] == p[0] && line[j - 1] == p[|p| - 1];
    StripLeftOf(line, i);
    assert line[i..][j - i..] == line[j..] && line[i..][..j - i] == p;
    StripRightOf(line[i..], j - i);
  }

  lemma {:induction false} InPaths(lines: seq<string>, p: string)
    ensures p in Paths(lines) <==> p != [] && !IsComment(p) && exists line :: line in lines && Strip(line) == p
  {
    if lines != [] {
      var init, last := lines[..|lines| - 1], lines[|lines| - 1];
      InPaths(init, p);
      assert lines == init + [last];
    }
  }

  /** Whatever is in the file, a path is loaded from it exactly if it is clean and some line holds it and
      nothing else but white space. */
  lemma LoadedExactly(text: string, p: Path)
    ensures p in Loaded(text) <==> Clean(p) && exists line :: line in SplitLines(text) && IsMargined(line, p)
  {
    var lines := SplitLines(text);
    InPaths(lines, p);
    if p in Loaded(text) {
      WhatIsLoadedIsClean(text);
      var line :| line in lines && Strip(line) == p;
      StripIsMargined(line);
    }
    if Clean(p) && exists line :: line in lines && IsMargined(line, p) {
      var line :| line in lines && IsMargined(line, p);
      MarginedIsStripped(line, p);
    }
  }

  lemma {:induction false} FirstLineEnds(line: string, rest: string)
    requires IsOneLine(line) && rest != [] && IsBreak(rest[0])
    ensures var after := if |rest| > 1 && rest[0] == '\r' && rest[1] == '\n' then rest[2..] else rest[1..];
            FirstLine(line + rest) == (line, after)
  {
    if line == [] {
      assert line + rest == rest;
    } else {
      FirstLineEnds(line[1..], rest);
      assert (line + rest)[1..] == line[1..] + rest;
      assert [line[0]] + line[1..] == line;
    }
  }

  lemma {:induction false} FirstLineOnly(line: string)
    requires IsOneLine(line)
    ensures FirstLine(line) == (line, [])
  {
    if line != [] {
      FirstLineOnly(line[1..]);
      assert [line[0]] + line[1..] == line;
    }
  }

  /** Lines end at each line break, a carriage return and line feed being one, and at the end of the text;
      a text that ends with a break has no further line. */
  lemma SplitsAtBreaks(line: string, rest: string)
    requires IsOneLine(line)
    ensures SplitLines(line) == if line == [] then [] else [line]
    ensures rest != [] && IsBreak(rest[0]) ==>
              SplitLines(line + rest) ==
              [line] + SplitLines(if |rest| > 1 && rest[0] == '\r' && rest[1] == '\n' then rest[2..] else rest[1..])
  {
    FirstLineOnly(line);
    if rest != [] && IsBreak(rest[0]) {
      FirstLineEnds(line, rest);
    }
  }

  // ----- Merging -----

  predicate Contains(s: string, t: string) {
    exists k :: 0 <= k <= |s| && t <= s[k..]
  }

  predicate EndsWith(s: string, t: string) {
    |t| <= |s| && s[|s| - |t|..] == t
  }

  /** `_path_matches_domains` */
  predicate PathMatches(p: Path, domains: set<string>) {
    exists d :: d in domains && PathMatchesDomain(p, d)
  }

  predicate PathMatchesDomain(p: Path, d: string) {
    Contains(p, "/" + d + ".") || Contains(p, "/" + d + "/") || EndsWith(p, "/" + d + ".py")
  }

  /** `merge_manifest` */
  function Merge(existing: set<Path>, domains: set<string>, entries: set<Path>): set<Path> {
    (set p | p in existing && !PathMatches(p, domains)) + entries
  }

  const FRONT := "src/hassette/models/"

  function ModulePath(directory: string, name: string): Path {
    FRONT + directory + "/" + name + ".py"
  }

  predicate IsDelimiter(c: char) { c == '/' || c == '.' }

  /** The name of a directory or of a module without its suffix. */
  predicate IsName(s: string) { s != [] && forall i | 0 <= i < |s| :: !IsDelimiter(s[i]) }

  /** The module's name, the names of the directories on the way to it, and every run of these. */
  function NamesOnTheWay(directory: string, name: string): set<string> {
    var both := directory + "/" + name;
    {"hassette", "hassette/models", "hassette/models/" + directory, "hassette/models/" + both,
     "models", "models/" + directory, "models/" + both,
     directory, both,
     name}
  }

  /** `x` is what stands between a slash and a later delimiter of the path. */
  ghost predicate Between(p: Path, x: string, i: int, j: int) {
    0 <= i < j < |p| && p[i] == '/' && IsDelimiter(p[j]) && x == p[i + 1..j]
  }

  lemma StartsBetween(p: Path, x: string, k: nat, delimiter: char)
    requires IsDelimiter(delimiter) && k <= |p| && "/" + x + [delimiter] <= p[k..]
    ensures Between(p, x, k, k + 1 + |x|)
  {
    var t := "/" + x + [delimiter];
    assert p[k..k + |t|] == t;
    assert p[k] == p[k..k + |t|][0] && p[k + |x| + 1] == p[k..k + |t|][|x| + 1];
    assert x == t[1..1 + |x|] == p[k + 1..k + 1 + |x|];
  }

  lemma BetweenIsContained(p: Path, x: string, i: nat, j: nat)
    requires Between(p, x, i, j)
    ensures Contains(p, "/" + x + [p[j]])
  {
    var t := "/" + x + [p[j]];
    assert p[i..j + 1] == t;
    assert t <= p[i..];
  }

  lemma EndsIsContained(p: Path, x: string)
    requires EndsWith(p, "/" + x + ".py")
    ensures Contains(p, "/" + x + ".")
  {
    var k := |p| - |"/" + x + ".py"|;
    assert p[k..] == ("/" + x + ".") + "py";
  }

  /** Whatever the filter entry holds, it matches exactly if it stands between a slash and a delimiter. */
  lemma MatchIsBetween(p: Path, x: string)
    ensures PathMatchesDomain(p, x) <==> exists i, j :: Between(p, x, i, j)
  {
    if PathMatchesDomain(p, x) {
      if EndsWith(p, "/" + x + ".py") {
        EndsIsContained(p, x);
      }
      var delimiter := if Contains(p, "/" + x + ".") then '.' else '/';
      assert Contains(p, "/" + x + [delimiter]);
      var k :| 0 <= k <= |p| && "/" + x + [delimiter] <= p[k..];
      StartsBetween(p, x, k, delimiter);
    }
    if i, j :| Between(p, x, i, j) {
      BetweenIsContained(p, x, i, j);
    }
  }

  lemma DelimitersOf(directory: string, name: string, k: nat)
    requires IsName(directory) && IsName(name) && k < |ModulePath(directory, name)|
    ensures var n := 20 + |directory|;
            IsDelimiter(ModulePath(directory, name)[k]) <==>
            k == 3 || k == 12 || k == 19 || k == n || k == n + 1 + |name|
  {
    var p, front := ModulePath(directory, name), "src/hassette/models/";
    assert p == front + (directory + ("/" + (name + ".py")));
    assert k < 20 ==> p[k] == front[k];
    assert forall m | 20 <= m < 20 + |directory| :: p[m] == directory[m - 20];
    assert forall m | 21 + |directory| <= m < 21 + |directory| + |name| :: p[m] == name[m - 21 - |directory|];
    assert forall m | 21 + |directory| + |name| <= m < |p| :: p[m] == ".py"[m - 21 - |directory| - |name|];
  }

  lemma SlicesOfFront()
    ensures |FRONT| == 20
    ensures FRONT[4..12] == "hassette" && FRONT[4..19] == "hassette/models" && FRONT[4..] == "hassette/models/"
    ensures FRONT[13..19] == "models" && FRONT[13..] == "models/"
  {
    assert FRONT == "src/" + "hassette/models/" == "src/hassette/" + "models/";
    SliceAfter("src/", "hassette/models/", 0, 8);
    SliceAfter("src/", "hassette/models/", 0, 15);
    SliceAfter("src/hassette/", "models/", 0, 6);
    assert "hassette/models/"[0..8] == "hassette";
    assert "hassette/models/"[0..15] == "hassette/models";
    assert "models/"[0..6] == "models";
  }

  lemma SlicesOfTail(directory: string, name: string)
    ensures var tail, n := directory + "/" + name + ".py", |directory|;
            && |tail| == n + |name| + 4
            && tail[..n] == directory && tail[..n + 1 + |name|] == directory + "/" + name
            && tail[n + 1..n + 1 + |name|] == name
  {
  }

  lemma SliceAcross(a: string, b: string, i: nat, j: nat)
    requires i <= |a| && j <= |b|
    ensures (a + b)[i..|a| + j] == a[i..] + b[..j]
  {
  }

  lemma SliceWithin(a: string, b: string, i: nat, j: nat)
    requires i <= j <= |a|
    ensures (a + b)[i..j] == a[i..j]
  {
  }

  lemma SliceAfter(a: string, b: string, i: nat, j: nat)
    requires i <= j <= |b|
    ensures (a + b)[|a| + i..|a| + j] == b[i..j]
  {
  }

  /** What stands between the slashes of a module's path, from each of them on. */
  lemma RunsFrom(directory: string, name: string)
    ensures var p, n, m := ModulePath(directory, name), 20 + |directory|, 21 + |directory| + |name|;
            && |p| == m + 3
            && p[4..12] == "hassette" && p[4..19] == "hassette/models"
            && p[4..n] == "hassette/models/" + directory && p[4..m] == "hassette/models/" + (directory + "/" + name)
            && p[13..19] == "models" && p[13..n] == "models/" + directory
            && p[13..m] == "models/" + (directory + "/" + name)
            && p[20..n] == directory && p[20..m] == directory + "/" + name
            && p[n + 1..m] == name
  {
    var tail, n, m := directory + "/" + name + ".py", |directory|, |directory| + 1 + |name|;
    PathIsFrontAndTail(directory, name);
    SlicesOfFront();
    SlicesOfTail(directory, name);
    SliceWithin(FRONT, tail, 4, 12);
    SliceWithin(FRONT, tail, 4, 19);
    SliceWithin(FRONT, tail, 13, 19);
    SliceAcross(FRONT, tail, 4, n);
    SliceAcross(FRONT, tail, 4, m);
    SliceAcross(FRONT, tail, 13, n);
    SliceAcross(FRONT, tail, 13, m);
    SliceAfter(FRONT, tail, 0, n);
    SliceAfter(FRONT, tail, 0, m);
    SliceAfter(FRONT, tail, n + 1, m);
    assert tail[0..n] == tail[..n] && tail[0..m] == tail[..m];
  }

  lemma PathIsFrontAndTail(directory: string, name: string)
    ensures ModulePath(directory, name) == FRONT + (directory + "/" + name + ".py")
  {
  }

  /** A module's path matches a filter entry exactly if the entry is one of the names on the way, or a run
      of them. */
  lemma MatchesExactly(directory: string, name: string, x: string)
    requires IsName(directory) && IsName(name)
    ensures PathMatchesDomain(ModulePath(directory, name), x) <==> x in NamesOnTheWay(directory, name)
  {
    var p, n, m := ModulePath(directory, name), 20 + |directory|, 21 + |directory| + |name|;
    MatchIsBetween(p, x);
    RunsFrom(directory, name);
    forall k: nat | k < |p|
      ensures IsDelimiter(p[k]) <==> k == 3 || k == 12 || k == 19 || k == n || k == m
    {
      DelimitersOf(directory, name, k);
    }
    SlashAndDot(directory, name);
    if x in NamesOnTheWay(directory, name) {
      var i, j := WhereOnTheWay(directory, name, x);
      assert Between(p, x, i, j);
    }
  }

  lemma SlashAndDot(directory: string, name: string)
    requires IsName(directory) && IsName(name)
    ensures var p, n := ModulePath(directory, name), 20 + |directory|;
            |p| == n + 4 + |name| && p[3] == p[12] == p[19] == p[n] == '/' && p[n + 1 + |name|] == '.'
  {
    var front := "src/hassette/models/";
    assert ModulePath(directory, name) == front + (directory + ("/" + (name + ".py")));
  }

  lemma WhereOnTheWay(directory: string, name: string, x: string) returns (i: nat, j: nat)
    requires IsName(directory) && IsName(name) && x in NamesOnTheWay(directory, name)
    ensures Between(ModulePath(directory, name), x, i, j)
  {
    var both, n := directory + "/" + name, 20 + |directory|;
    RunsFrom(directory, name);
    SlashAndDot(directory, name);
    i := if x == name then n
         else if x == directory || x == both then 19
         else if x == "models" || x == "models/" + directory || x == "models/" + both then 12
         else 3;
    j := if x == name || x == both || x == "models/" + both || x == "hassette/models/" + both then n + 1 + |name|
         else if x == directory || x == "models/" + directory || x == "hassette/models/" + directory then n
         else if x == "models" || x == "hassette/models" then 19
         else 12;
  }

  /** `merge_manifest` is documented to leave the entries of other domains alone. An entry that the run did
      not write again survives exactly if the filter holds neither the module's name nor a directory on
      the way to it, nor a run of these. */
  lemma MergeKeepsOthers(
      existing: set<Path>, domains: set<string>, entries: set<Path>, directory: string, name: string)
    requires IsName(directory) && IsName(name)
    requires ModulePath(directory, name) in existing && ModulePath(directory, name) !in entries
    ensures ModulePath(directory, name) in Merge(existing, domains, entries) <==>
            domains !! NamesOnTheWay(directory, name)
  {
    forall x
      ensures PathMatchesDomain(ModulePath(directory, name), x) <==> x in NamesOnTheWay(directory, name)
    {
      MatchesExactly(directory, name, x);
    }
  }

  // ----- What a generator lists can be listed -----

  predicate IsOneLine(s: string) { forall i | 0 <= i < |s| :: !IsBreak(s[i]) }

  /** The path of a module whose name is on one line, as every identifier is. */
  lemma ModulePathIsClean(directory: string, name: string)
    requires IsOneLine(directory) && IsOneLine(name)
    ensures Clean(ModulePath(directory, name))
  {
    var p, front := ModulePath(directory, name), "src/hassette/models/";
    assert p == front + (directory + ("/" + (name + ".py")));
    forall i | 0 <= i < |p|
      ensures !IsBreak(p[i])
    {
      if i < 20 {
        assert p[i] == front[i];
      } else if i < 20 + |directory| {
        assert p[i] == directory[i - 20];
      } else if i == 20 + |directory| {
      } else if i < 21 + |directory| + |name| {
        assert p[i] == name[i - 21 - |directory|];
      } else {
        assert p[i] == ".py"[i - 21 - |directory| - |name|];
      }
    }
  }
}
