/** The parser for dup-ignore markers. Lines come classified; a line that matches both patterns is a
    start, because that pattern is tried first. */
module IgnoreMarkers {
  import opened Wrappers

  datatype Line = StartMarker(hasReason: bool) | EndMarker | Other

  /** Line numbers are counted from 1, as in the messages. */
  type Span = (nat, nat)

  datatype MarkerError =
    | NestedStart(line: nat, openedAt: nat)
    | MissingReason(line: nat)
    | UnmatchedEnd(line: nat)
    | NeverClosed(openedAt: nat)

  // ----- What the markers of a file mean -----

  /** The index of the last marker before line index `i`, if that marker is a start. */
  ghost function OpenAt(lines: seq<Line>, i: nat): Option<nat>
    requires i <= |lines|
  {
    if i == 0 then None
    else
      match lines[i - 1]
      case StartMarker(_) => Some(i - 1)
      case EndMarker => None
      case Other => OpenAt(lines, i - 1)
  }

  ghost predicate Legal(lines: seq<Line>, i: nat)
    requires i < |lines|
  {
    match lines[i]
    case StartMarker(reason) => OpenAt(lines, i).None? && reason
    case EndMarker => OpenAt(lines, i).Some?
    case Other => true
  }

  ghost predicate LegalUpTo(lines: seq<Line>, n: nat)
    requires n <= |lines|
  {
    forall i | 0 <= i < n :: Legal(lines, i)
  }

  ghost predicate WellMarked(lines: seq<Line>) {
    LegalUpTo(lines, |lines|) && OpenAt(lines, |lines|).None?
  }

  /** What is wrong with an illegal line: a nested start is reported before a missing reason. */
  ghost function ErrorAt(lines: seq<Line>, i: nat): MarkerError
    requires i < |lines| && !Legal(lines, i)
  {
    if lines[i].EndMarker? then UnmatchedEnd(i + 1)
    else if OpenAt(lines, i).Some? then NestedStart(i + 1, OpenAt(lines, i).value + 1)
    else MissingReason(i + 1)
  }

  /** A start, the next marker, which is its end, and nothing between them. */
  ghost predicate IsRange(lines: seq<Line>, r: Span) {
    && 1 <= r.0 < r.1 <= |lines|
    && lines[r.0 - 1].StartMarker?
    && lines[r.1 - 1].EndMarker?
    && forall i | r.0 <= i < r.1 - 1 :: lines[i].Other?
  }

  ghost predicate EndpointOf(r: Span, line: nat) { line == r.0 || line == r.1 }

  ghost predicate Increasing(ranges: seq<Span>) {
    forall k, l | 0 <= k < l < |ranges| :: ranges[k].1 < ranges[l].0
  }

  /** The ranges of the closed markers among the first `n` lines: increasing, hence disjoint, and with
      every marker but an open start at the end of exactly one of them. */
  ghost predicate Exact(lines: seq<Line>, n: nat, ranges: seq<Span>)
    requires n <= |lines|
  {
    && Increasing(ranges)
    && AreRanges(lines, n, ranges)
    && AllCovered(lines, n, ranges)
  }

  ghost predicate AreRanges(lines: seq<Line>, n: nat, ranges: seq<Span>) {
    forall r | r in ranges :: IsRange(lines, r) && r.1 <= n
  }

  ghost predicate AllCovered(lines: seq<Line>, n: nat, ranges: seq<Span>)
    requires n <= |lines|
  {
    forall i | 0 <= i < n && !lines[i].Other? && OpenAt(lines, n) != Some(i) :: Covered(ranges, i)
  }

  /** Line index `i` is an end of some range. */
  ghost predicate Covered(ranges: seq<Span>, i: nat) {
    exists r :: r in ranges && EndpointOf(r, i + 1)
  }

  lemma OpenIsStart(lines: seq<Line>, i: nat)
    requires i <= |lines|
    ensures OpenAt(lines, i).Some? ==>
              var s := OpenAt(lines, i).value;
              s < i && lines[s].StartMarker? && forall j | s < j < i :: lines[j].Other?
    ensures OpenAt(lines, i).None? ==> forall s | 0 <= s < i && lines[s].StartMarker? ::
              exists j :: s < j < i && !lines[j].Other?
  {
    if i > 0 && lines[i - 1].Other? {
      OpenIsStart(lines, i - 1);
    } else if i > 0 && lines[i - 1].EndMarker? {
      assert !lines[i - 1].Other?;
    }
  }

  lemma CloseKeepsOrder(lines: seq<Line>, n: nat, ranges: seq<Span>, r: Span)
    requires n < |lines| && Increasing(ranges) && AreRanges(lines, n, ranges) && IsRange(lines, r) && r.1 == n + 1
    ensures Increasing(ranges + [r])
  {
    forall k | 0 <= k < |ranges|
      ensures ranges[k].1 < r.0
    {
      EndsBefore(lines, ranges[k], r);
    }
  }

  lemma EndsBefore(lines: seq<Line>, q: Span, r: Span)
    requires IsRange(lines, q) && IsRange(lines, r) && q.1 < r.1
    ensures q.1 < r.0
  {
    assert lines[q.1 - 1].EndMarker? && lines[r.0 - 1].StartMarker?;
  }

  lemma CloseCovers(lines: seq<Line>, n: nat, ranges: seq<Span>, r: Span, i: nat)
    requires n < |lines| && AllCovered(lines, n, ranges) && OpenAt(lines, n).Some?
    requires r == (OpenAt(lines, n).value + 1, n + 1)
    requires i <= n && !lines[i].Other?
    ensures Covered(ranges + [r], i)
  {
    if i == n || OpenAt(lines, n) == Some(i) {
      assert r in ranges + [r] && EndpointOf(r, i + 1);
    } else {
      assert Covered(ranges, i);
      var q :| q in ranges && EndpointOf(q, i + 1);
      assert q in ranges + [r];
    }
  }

  lemma CloseCoversAll(lines: seq<Line>, n: nat, ranges: seq<Span>, r: Span)
    requires n < |lines| && AllCovered(lines, n, ranges) && OpenAt(lines, n).Some?
    requires r == (OpenAt(lines, n).value + 1, n + 1)
    ensures AllCovered(lines, n + 1, ranges + [r])
  {
    forall i: nat | i < n + 1 && !lines[i].Other?
      ensures Covered(ranges + [r], i)
    {
      CloseCovers(lines, n, ranges, r, i);
    }
  }

  lemma ClosedIsRange(lines: seq<Line>, n: nat)
    requires n < |lines| && lines[n].EndMarker? && OpenAt(lines, n).Some?
    ensures IsRange(lines, (OpenAt(lines, n).value + 1, n + 1))
  {
    OpenIsStart(lines, n);
  }

  lemma CloseRange(lines: seq<Line>, n: nat, ranges: seq<Span>)
    requires n < |lines| && Exact(lines, n, ranges) && lines[n].EndMarker? && OpenAt(lines, n).Some?
    ensures Exact(lines, n + 1, ranges + [(OpenAt(lines, n).value + 1, n + 1)])
  {
    var r: Span := (OpenAt(lines, n).value + 1, n + 1);
    ClosedIsRange(lines, n);
    CloseKeepsOrder(lines, n, ranges, r);
    CloseCoversAll(lines, n, ranges, r);
  }

  lemma NothingToClose(lines: seq<Line>, n: nat, ranges: seq<Span>)
    requires n < |lines| && Exact(lines, n, ranges) && Legal(lines, n) && !lines[n].EndMarker?
    ensures Exact(lines, n + 1, ranges)
  {
    forall i: nat | i < n + 1 && !lines[i].Other? && OpenAt(lines, n + 1) != Some(i)
      ensures Covered(ranges, i)
    {
      StillCovered(lines, n, ranges, i);
    }
  }

  lemma StillCovered(lines: seq<Line>, n: nat, ranges: seq<Span>, i: nat)
    requires n < |lines| && AllCovered(lines, n, ranges) && Legal(lines, n) && !lines[n].EndMarker?
    requires i < n + 1 && !lines[i].Other? && OpenAt(lines, n + 1) != Some(i)
    ensures Covered(ranges, i)
  {
    assert i < n && OpenAt(lines, n) != Some(i);
  }

  /** The parser's state before line index `i`: the line number of the open start, and the ranges. */
  ghost predicate OpenIs(lines: seq<Line>, i: nat, openStart: Option<nat>)
    requires i <= |lines|
  {
    openStart == match OpenAt(lines, i) case None => None case Some(s) => Some(s + 1)
  }

  function OpenAfter(line: Line, lineno: nat, openStart: Option<nat>): Option<nat> {
    match line
    case StartMarker(_) => Some(lineno)
    case EndMarker => None
    case Other => openStart
  }

  function RangesAfter(line: Line, lineno: nat, openStart: Option<nat>, ranges: seq<Span>): seq<Span> {
    if line.EndMarker? && openStart.Some? then ranges + [(openStart.value, lineno)] else ranges
  }

  lemma OpenForward(lines: seq<Line>, i: nat, openStart: Option<nat>)
    requires i < |lines| && OpenIs(lines, i, openStart)
    ensures OpenIs(lines, i + 1, OpenAfter(lines[i], i + 1, openStart))
  {
  }

  lemma StepForward(lines: seq<Line>, i: nat, openStart: Option<nat>, ranges: seq<Span>)
    requires i < |lines| && Legal(lines, i) && OpenIs(lines, i, openStart) && Exact(lines, i, ranges)
    ensures Exact(lines, i + 1, RangesAfter(lines[i], i + 1, openStart, ranges))
  {
    if lines[i].EndMarker? {
      CloseRange(lines, i, ranges);
    } else {
      NothingToClose(lines, i, ranges);
    }
  }

  /** Whether a line is read, and what is wrong with it, in terms of the parser's state. */
  predicate Readable(line: Line, openStart: Option<nat>) {
    match line
    case StartMarker(hasReason) => openStart.None? && hasReason
    case EndMarker => openStart.Some?
    case Other => true
  }

  function ErrorFor(line: Line, lineno: nat, openStart: Option<nat>): MarkerError {
    if line.EndMarker? then UnmatchedEnd(lineno)
    else if openStart.Some? then NestedStart(lineno, openStart.value)
    else MissingReason(lineno)
  }

  lemma ReadableIsLegal(lines: seq<Line>, i: nat, openStart: Option<nat>)
    requires i < |lines| && OpenIs(lines, i, openStart)
    ensures Readable(lines[i], openStart) <==> Legal(lines, i)
    ensures !Legal(lines, i) ==> ErrorFor(lines[i], i + 1, openStart) == ErrorAt(lines, i)
  {
  }

  method ReadLine(line: Line, lineno: nat, openStart: Option<nat>, ranges: seq<Span>)
      returns (r: Result<(Option<nat>, seq<Span>), MarkerError>)
    ensures r.Ok? <==> Readable(line, openStart)
    ensures r.Ok? ==> r.value == (OpenAfter(line, lineno, openStart), RangesAfter(line, lineno, openStart, ranges))
    ensures r.Err? ==> r.error == ErrorFor(line, lineno, openStart)
  {
    match line {
      case StartMarker(hasReason) =>
        if openStart.Some? {
          return Err(NestedStart(lineno, openStart.value));
        }
        if !hasReason {
          return Err(MissingReason(lineno));
        }
        return Ok((Some(lineno), ranges));
      case EndMarker =>
        if openStart.None? {
          return Err(UnmatchedEnd(lineno));
        }
        return Ok((None, ranges + [(openStart.value, lineno)]));
      case Other =>
        return Ok((openStart, ranges));
    }
  }

  ghost predicate FirstError(lines: seq<Line>, e: MarkerError) {
    exists i :: 0 <= i < |lines| && LegalUpTo(lines, i) && !Legal(lines, i) && e == ErrorAt(lines, i)
  }

  /** `ignore_ranges`: it returns normally if and only if the file is well marked, and then with the
      exact ranges; otherwise it raises for the first illegal line, or for a start left open. */
  method IgnoreRanges(lines: seq<Line>) returns (r: Result<seq<Span>, MarkerError>)
    ensures r.Ok? <==> WellMarked(lines)
    ensures r.Ok? ==> Exact(lines, |lines|, r.value)
    ensures r.Err? && !r.error.NeverClosed? ==> FirstError(lines, r.error)
    ensures r.Err? && r.error.NeverClosed? ==>
              && LegalUpTo(lines, |lines|)
              && OpenAt(lines, |lines|).Some?
              && r.error.openedAt == OpenAt(lines, |lines|).value + 1
  {
    var ranges: seq<Span> := [];
    var openStart: Option<nat> := None;
    for i := 0 to |lines|
      invariant LegalUpTo(lines, i) && OpenIs(lines, i, openStart) && Exact(lines, i, ranges)
    {
      var step := ReadLine(lines[i], i + 1, openStart, ranges);
      ReadableIsLegal(lines, i, openStart);
      if step.Err? {
        return Err(step.error);
      }
      OpenForward(lines, i, openStart);
      StepForward(lines, i, openStart, ranges);
      openStart, ranges := step.value.0, step.value.1;
    }
    if openStart.Some? {
      return Err(NeverClosed(openStart.value));
    }
    return Ok(ranges);
  }

  /** In increasing ranges no line is an endpoint twice. */
  lemma EndpointOfAtMostOne(lines: seq<Line>, ranges: seq<Span>, k: nat, l: nat, line: nat)
    requires Increasing(ranges) && AreRanges(lines, |lines|, ranges) && k < |ranges| && l < |ranges|
    requires EndpointOf(ranges[k], line) && EndpointOf(ranges[l], line)
    ensures k == l
  {
    assert ranges[k] in ranges && ranges[l] in ranges;
  }

  /** Range `k` and no other ends on this line. */
  ghost predicate EndsOnlyAt(ranges: seq<Span>, k: nat, line: nat) {
    k < |ranges| && forall l | 0 <= l < |ranges| :: EndpointOf(ranges[l], line) <==> l == k
  }

  /** In a well marked file the markers are the endpoints of the ranges, each of exactly one. */
  lemma EndpointOfOne(lines: seq<Line>, ranges: seq<Span>, line: nat)
    requires WellMarked(lines) && Exact(lines, |lines|, ranges) && 1 <= line <= |lines|
    ensures !lines[line - 1].Other? ==> exists k :: EndsOnlyAt(ranges, k, line)
    ensures lines[line - 1].Other? ==> forall r | r in ranges :: !EndpointOf(r, line)
  {
    if !lines[line - 1].Other? {
      assert Covered(ranges, line - 1);
      CoveredByOne(lines, ranges, line);
    } else {
      OtherIsNoEndpoint(lines, ranges, line);
    }
  }

  lemma OtherIsNoEndpoint(lines: seq<Line>, ranges: seq<Span>, line: nat)
    requires AreRanges(lines, |lines|, ranges) && 1 <= line <= |lines| && lines[line - 1].Other?
    ensures forall r | r in ranges :: !EndpointOf(r, line)
  {
    forall r | r in ranges
      ensures !EndpointOf(r, line)
    {
      assert IsRange(lines, r);
    }
  }

  lemma CoveredByOne(lines: seq<Line>, ranges: seq<Span>, line: nat)
    requires Increasing(ranges) && AreRanges(lines, |lines|, ranges) && line > 0 && Covered(ranges, line - 1)
    ensures exists k :: EndsOnlyAt(ranges, k, line)
  {
    var r :| r in ranges && EndpointOf(r, line);
    var k :| 0 <= k < |ranges| && ranges[k] == r;
    OneOfIncreasing(lines, ranges, k, line);
  }

  lemma OneOfIncreasing(lines: seq<Line>, ranges: seq<Span>, k: nat, line: nat)
    requires Increasing(ranges) && AreRanges(lines, |lines|, ranges)
    requires k < |ranges| && EndpointOf(ranges[k], line)
    ensures EndsOnlyAt(ranges, k, line)
  {
    forall l: nat | l < |ranges| && EndpointOf(ranges[l], line)
      ensures l == k
    {
      EndpointOfAtMostOne(lines, ranges, k, l, line);
    }
  }

  // ----- The same, read off the list of markers -----

  ghost function Markers(lines: seq<Line>): seq<Line> {
    if lines == [] then []
    else Markers(lines[..|lines| - 1]) + if lines[|lines| - 1].Other? then [] else [lines[|lines| - 1]]
  }

  /** Start, end, start, end, with a reason on each start. */
  ghost predicate Alternates(markers: seq<Line>) {
    forall k | 0 <= k < |markers| :: markers[k] == if k % 2 == 0 then StartMarker(true) else EndMarker
  }

  lemma {:induction false} OpenAtPrefix(lines: seq<Line>, i: nat, n: nat)
    requires i <= n <= |lines|
    ensures OpenAt(lines[..n], i) == OpenAt(lines, i)
  {
    if i > 0 {
      OpenAtPrefix(lines, i - 1, n);
    }
  }

  lemma {:induction false} LegalMeansAlternating(lines: seq<Line>, n: nat)
    requires n <= |lines|
    ensures LegalUpTo(lines, n) <==> Alternates(Markers(lines[..n]))
    ensures LegalUpTo(lines, n) ==> (OpenAt(lines, n).Some? <==> |Markers(lines[..n])| % 2 == 1)
  {
    if n > 0 {
      LegalMeansAlternating(lines, n - 1);
      var before, after := Markers(lines[..n - 1]), Markers(lines[..n]);
      assert lines[..n][..n - 1] == lines[..n - 1];
      assert LegalUpTo(lines, n) <==> LegalUpTo(lines, n - 1) && Legal(lines, n - 1);
      if !lines[n - 1].Other? {
        assert after == before + [lines[n - 1]];
        assert Alternates(after) ==> Alternates(before) by {
          assert forall k | 0 <= k < |before| :: after[k] == before[k];
        }
        assert after[|before|] == lines[n - 1];
      } else {
        assert after == before;
      }
    }
  }

  /** A file is well marked if and only if its markers alternate start, end, start, end, each start has
      a reason and the last one is closed. */
  lemma WellMarkedMeansAlternating(lines: seq<Line>)
    ensures WellMarked(lines) <==> Alternates(Markers(lines)) && |Markers(lines)| % 2 == 0
  {
    assert lines[..|lines|] == lines;
    LegalMeansAlternating(lines, |lines|);
  }
}
