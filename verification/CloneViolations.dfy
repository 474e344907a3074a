/** From the blocks that the clone detector reports to the violations: edges between neighbours only,
    clusters, and the clusters that count. */
module CloneViolations {
  import opened CloneGraph
  import opened CloneClusters

  /** The reasons to drop a fragment that need its file. */
  type Drops = Fragment -> bool

  /** The ignored ranges of each file. */
  type Ranges = string -> seq<(nat, nat)>

  const MIN_LINES := 5
  const MIN_OCCURRENCES := 3

  predicate IsTooShort(f: Fragment) {
    f.end - f.start + 1 < MIN_LINES
  }

  /** `elsewhere` stands for the reasons that need the file: excluded, marked, boilerplate, glob. */
  predicate IsDropped(f: Fragment, elsewhere: Drops) {
    elsewhere(f) || IsTooShort(f)
  }

  function Kept(block: seq<Fragment>, elsewhere: Drops): seq<Fragment> {
    if block == [] then []
    else if IsDropped(block[0], elsewhere) then Kept(block[1..], elsewhere)
    else [block[0]] + Kept(block[1..], elsewhere)
  }

  /** What is kept: what no other reason drops and what reaches the fourth line after its first. */
  lemma {:induction false} KeptExactly(block: seq<Fragment>, elsewhere: Drops, f: Fragment)
    ensures f in Kept(block, elsewhere) <==> f in block && !elsewhere(f) && f.start + 4 <= f.end
  {
    if block != [] {
      KeptExactly(block[1..], elsewhere, f);
      assert block == [block[0]] + block[1..];
    }
  }

  function Pairwise(kept: seq<Fragment>): seq<Edge> {
    seq(if kept == [] then 0 else |kept| - 1, i requires 0 <= i < |kept| - 1 => (kept[i], kept[i + 1]))
  }

  /** `(x, y)` are neighbours among the kept fragments of a block. */
  ghost predicate InChain(blocks: seq<seq<Fragment>>, elsewhere: Drops, e: Edge) {
    exists b, i :: InChainAt(blocks, elsewhere, e, b, i)
  }

  ghost predicate InChainAt(blocks: seq<seq<Fragment>>, elsewhere: Drops, e: Edge, b: int, i: int) {
    && 0 <= b < |blocks|
    && 0 <= i < |Kept(blocks[b], elsewhere)| - 1
    && e == (Kept(blocks[b], elsewhere)[i], Kept(blocks[b], elsewhere)[i + 1])
  }

  /** `(x, y)` are kept fragments of one block, in this order. */
  ghost predicate InSomeBlock(blocks: seq<seq<Fragment>>, elsewhere: Drops, e: Edge) {
    exists b, i, j :: 0 <= b < |blocks| && 0 <= i < j < |Kept(blocks[b], elsewhere)| &&
                      e == (Kept(blocks[b], elsewhere)[i], Kept(blocks[b], elsewhere)[j])
  }

  ghost function ChainEdges(blocks: seq<seq<Fragment>>, elsewhere: Drops): seq<Edge> {
    if blocks == [] then []
    else ChainEdges(blocks[..|blocks| - 1], elsewhere) + Pairwise(Kept(blocks[|blocks| - 1], elsewhere))
  }

  /** `build_edges`: an edge for each two neighbours, block by block. */
  method BuildEdges(blocks: seq<seq<Fragment>>, elsewhere: Drops) returns (edges: seq<Edge>)
    ensures edges == ChainEdges(blocks, elsewhere)
    ensures forall e :: e in edges <==> InChain(blocks, elsewhere, e)
  {
    edges := [];
    for n := 0 to |blocks|
      invariant edges == ChainEdges(blocks[..n], elsewhere)
    {
      assert blocks[..n + 1][..n] == blocks[..n];
      edges := edges + Pairwise(Kept(blocks[n], elsewhere));
    }
    assert blocks[..|blocks|] == blocks;
    ChainEdgesAreChains(blocks, elsewhere);
  }

  lemma {:induction false} ChainEdgesAreChains(blocks: seq<seq<Fragment>>, elsewhere: Drops)
    ensures forall e :: e in ChainEdges(blocks, elsewhere) <==> InChain(blocks, elsewhere, e)
  {
    if blocks != [] {
      var n := |blocks| - 1;
      ChainEdgesAreChains(blocks[..n], elsewhere);
      assert blocks[..n + 1] == blocks;
      forall e
        ensures e in ChainEdges(blocks, elsewhere) <==> InChain(blocks, elsewhere, e)
      {
        ChainGrows(blocks, elsewhere, n, e);
      }
    }
  }

  lemma ChainGrows(blocks: seq<seq<Fragment>>, elsewhere: Drops, n: nat, e: Edge)
    requires n < |blocks|
    ensures InChain(blocks[..n + 1], elsewhere, e) <==>
            InChain(blocks[..n], elsewhere, e) || e in Pairwise(Kept(blocks[n], elsewhere))
  {
    var kept, upTo := Kept(blocks[n], elsewhere), blocks[..n + 1];
    if b, i :| InChainAt(blocks[..n], elsewhere, e, b, i) {
      assert InChainAt(upTo, elsewhere, e, b, i);
    }
    if e in Pairwise(kept) {
      var i :| 0 <= i < |Pairwise(kept)| && Pairwise(kept)[i] == e;
      assert InChainAt(upTo, elsewhere, e, n, i);
    }
    if b, i :| InChainAt(upTo, elsewhere, e, b, i) {
      if b == n {
        assert Pairwise(kept)[i] == e;
      } else {
        assert InChainAt(blocks[..n], elsewhere, e, b, i);
      }
    }
  }

  lemma {:induction false} NeighboursConnect(edges: seq<Edge>, s: seq<Fragment>, i: nat, j: nat)
    requires i <= j < |s| && forall k | 0 < k < |s| :: (s[k - 1], s[k]) in edges
    ensures Connected(edges, s[i], s[j])
    decreases j - i
  {
    if i == j {
      ConnectedRefl(edges, s[i]);
    } else {
      NeighboursConnect(edges, s, i, j - 1);
      ConnectedByEdge(edges, s[j - 1], s[j]);
      ConnectedTrans(edges, s[i], s[j - 1], s[j]);
    }
  }

  /** Neighbour edges connect a whole block. */
  lemma BlockIsConnected(blocks: seq<seq<Fragment>>, elsewhere: Drops, edges: seq<Edge>, b: nat, i: nat, j: nat)
    requires forall e :: e in edges <==> InChain(blocks, elsewhere, e)
    requires b < |blocks| && i <= j < |Kept(blocks[b], elsewhere)|
    ensures Connected(edges, Kept(blocks[b], elsewhere)[i], Kept(blocks[b], elsewhere)[j])
  {
    var kept := Kept(blocks[b], elsewhere);
    forall k | 0 < k < |kept|
      ensures (kept[k - 1], kept[k]) in edges
    {
      assert InChainAt(blocks, elsewhere, (kept[k - 1], kept[k]), b, k - 1);
    }
    NeighboursConnect(edges, kept, i, j);
  }

  lemma SameEndpoints(blocks: seq<seq<Fragment>>, elsewhere: Drops, chain: seq<Edge>, all: seq<Edge>, x: Fragment)
    requires forall e :: e in chain <==> InChain(blocks, elsewhere, e)
    requires forall e :: e in all <==> InSomeBlock(blocks, elsewhere, e)
    ensures Endpoint(chain, x) <==> Endpoint(all, x)
  {
    if Endpoint(chain, x) {
      var k :| 0 <= k < |chain| && (chain[k].0 == x || chain[k].1 == x);
      assert InChain(blocks, elsewhere, chain[k]);
      assert chain[k] in all;
    }
    if Endpoint(all, x) {
      var k :| 0 <= k < |all| && (all[k].0 == x || all[k].1 == x);
      assert all[k] in all;
      var b, i, j :| 0 <= b < |blocks| && 0 <= i < j < |Kept(blocks[b], elsewhere)| &&
                     all[k] == (Kept(blocks[b], elsewhere)[i], Kept(blocks[b], elsewhere)[j]);
      KeptIsEndpoint(blocks, elsewhere, chain, b, if all[k].0 == x then i else j);
    }
  }

  lemma KeptIsEndpoint(blocks: seq<seq<Fragment>>, elsewhere: Drops, chain: seq<Edge>, b: nat, i: nat)
    requires forall e :: e in chain <==> InChain(blocks, elsewhere, e)
    requires b < |blocks| && i < |Kept(blocks[b], elsewhere)| && |Kept(blocks[b], elsewhere)| >= 2
    ensures Endpoint(chain, Kept(blocks[b], elsewhere)[i])
  {
    var kept := Kept(blocks[b], elsewhere);
    var first := if i == 0 then 0 else i - 1;
    assert InChainAt(blocks, elsewhere, (kept[first], kept[first + 1]), b, first);
    assert (kept[first], kept[first + 1]) in chain;
  }

  /** Linking only neighbours loses nothing: the graph with an edge between any two kept fragments of a
      block has the same endpoints and the same connections, so it has the same components. */
  lemma ChainEdgesLoseNothing(blocks: seq<seq<Fragment>>, elsewhere: Drops, chain: seq<Edge>, all: seq<Edge>)
    requires forall e :: e in chain <==> InChain(blocks, elsewhere, e)
    requires forall e :: e in all <==> InSomeBlock(blocks, elsewhere, e)
    ensures forall x :: Endpoint(chain, x) <==> Endpoint(all, x)
    ensures forall x, y :: Connected(chain, x, y) <==> Connected(all, x, y)
    ensures forall components :: IsPartition(components, chain) <==> IsPartition(components, all)
  {
    forall x
      ensures Endpoint(chain, x) <==> Endpoint(all, x)
    {
      SameEndpoints(blocks, elsewhere, chain, all, x);
    }
    forall e | e in all
      ensures Connected(chain, e.0, e.1)
    {
      var b, i, j :| 0 <= b < |blocks| && 0 <= i < j < |Kept(blocks[b], elsewhere)| &&
                     e == (Kept(blocks[b], elsewhere)[i], Kept(blocks[b], elsewhere)[j]);
      BlockIsConnected(blocks, elsewhere, chain, b, i, j);
    }
    forall e | e in chain
      ensures Connected(all, e.0, e.1)
    {
      assert InChain(blocks, elsewhere, e);
      ConnectedByEdge(all, e.0, e.1);
    }
    forall x, y
      ensures Connected(chain, x, y) <==> Connected(all, x, y)
    {
      if Connected(chain, x, y) { ConnectedMonotone(chain, all, x, y); }
      if Connected(all, x, y) { ConnectedMonotone(all, chain, x, y); }
    }
    forall components
      ensures IsPartition(components, chain) <==> IsPartition(components, all)
    {
      SamePartition(components, chain, all);
    }
  }

  lemma SamePartition(components: seq<seq<Fragment>>, a: seq<Edge>, b: seq<Edge>)
    requires forall x :: Endpoint(a, x) <==> Endpoint(b, x)
    requires forall x, y :: Connected(a, x, y) <==> Connected(b, x, y)
    ensures IsPartition(components, a) <==> IsPartition(components, b)
  {
  }

  // ----- Violations -----

  /** The fragment lies inside one of its file's ignored ranges. */
  predicate IsDupIgnored(f: Fragment, ignoreRanges: Ranges) {
    exists k :: 0 <= k < |ignoreRanges(f.file)| &&
                ignoreRanges(f.file)[k].0 <= f.start && f.end <= ignoreRanges(f.file)[k].1
  }

  predicate IsBetween(line: int, first: int, last: int) { first <= line <= last }

  /** Each line of the fragment is in the range. */
  ghost predicate CoversLines(range: (nat, nat), f: Fragment) {
    forall line | IsBetween(line, f.start, f.end) :: IsBetween(line, range.0, range.1)
  }

  /** It is ignored exactly if one range covers all its lines. */
  lemma IgnoredInOneRange(f: Fragment, ignoreRanges: Ranges)
    requires f.start <= f.end
    ensures IsDupIgnored(f, ignoreRanges) <==> exists r :: r in ignoreRanges(f.file) && CoversLines(r, f)
  {
    var ranges := ignoreRanges(f.file);
    assert IsBetween(f.start, f.start, f.end) && IsBetween(f.end, f.start, f.end);
    if r :| r in ranges && CoversLines(r, f) {
      var k :| 0 <= k < |ranges| && ranges[k] == r;
      assert IsBetween(f.start, r.0, r.1) && IsBetween(f.end, r.0, r.1);
    }
    if IsDupIgnored(f, ignoreRanges) {
      var k :| 0 <= k < |ranges| && ranges[k].0 <= f.start && f.end <= ranges[k].1;
      assert ranges[k] in ranges && CoversLines(ranges[k], f);
    }
  }

  predicate Reported(component: seq<Fragment>, ignoreRanges: Ranges) {
    && |component| >= MIN_OCCURRENCES
    && exists k :: 0 <= k < |component| && !IsDupIgnored(component[k], ignoreRanges)
  }

  function Reportable(components: seq<seq<Fragment>>, ignoreRanges: Ranges): (r: seq<seq<Fragment>>)
    ensures forall c :: c in r <==> c in components && Reported(c, ignoreRanges)
  {
    if components == [] then []
    else
      var rest := Reportable(components[1..], ignoreRanges);
      if Reported(components[0], ignoreRanges) then [components[0]] + rest else rest
  }

  ghost predicate AllDifferent(s: seq<seq<Fragment>>) {
    forall i, j | 0 <= i < j < |s| :: s[i] != s[j]
  }

  lemma {:induction false} ReportedOnce(components: seq<seq<Fragment>>, ignoreRanges: Ranges)
    requires AllDifferent(components)
    ensures AllDifferent(Reportable(components, ignoreRanges))
  {
    if components != [] {
      ReportedOnce(components[1..], ignoreRanges);
      assert components[0] !in components[1..];
    }
  }

  lemma PartsDiffer(components: seq<seq<Fragment>>, edges: seq<Edge>)
    requires IsPartition(components, edges)
    ensures AllDifferent(components)
  {
    forall i, j | 0 <= i < j < |components|
      ensures components[i] != components[j]
    {
      var x := components[i][0];
      assert x in components[i];
      assert x in components[j] ==> (Connected(edges, x, x) <==> i == i) && (Connected(edges, x, x) <==> i == j);
    }
  }

  /** All kept fragments of the block are in the component. */
  ghost predicate Holds(component: seq<Fragment>, block: seq<Fragment>, elsewhere: Drops) {
    forall f | f in Kept(block, elsewhere) :: f in component
  }

  ghost predicate ThreeDistinct(s: seq<Fragment>) {
    exists i, j, k :: 0 <= i < |s| && 0 <= j < |s| && 0 <= k < |s| && s[i] != s[j] && s[j] != s[k] && s[i] != s[k]
  }

  lemma ThreeDistinctIsLong(component: seq<Fragment>, s: seq<Fragment>)
    requires ThreeDistinct(s) && forall f | f in s :: f in component
    ensures |component| >= 3
  {
    var i, j, k :| 0 <= i < |s| && 0 <= j < |s| && 0 <= k < |s| && s[i] != s[j] && s[j] != s[k] && s[i] != s[k];
    ThreeMembers(component, s[i], s[j], s[k]);
  }

  lemma ThreeMembers(s: seq<Fragment>, x: Fragment, y: Fragment, z: Fragment)
    requires x in s && y in s && z in s && x != y && y != z && x != z
    ensures |s| >= 3
  {
    var a :| 0 <= a < |s| && s[a] == x;
    var b :| 0 <= b < |s| && s[b] == y;
    var c :| 0 <= c < |s| && s[c] == z;
  }

  /** Every block with two or more kept fragments lies in one component. */
  lemma BlockInOneComponent(blocks: seq<seq<Fragment>>, elsewhere: Drops, edges: seq<Edge>,
                            components: seq<seq<Fragment>>, b: nat)
      returns (c: nat)
    requires forall e :: e in edges <==> InChain(blocks, elsewhere, e)
    requires IsPartition(components, edges)
    requires b < |blocks| && |Kept(blocks[b], elsewhere)| >= 2
    ensures c < |components| && Holds(components[c], blocks[b], elsewhere)
  {
    var kept := Kept(blocks[b], elsewhere);
    KeptIsEndpoint(blocks, elsewhere, edges, b, 0);
    c :| 0 <= c < |components| && kept[0] in components[c];
    forall f | f in kept
      ensures f in components[c]
    {
      var j :| 0 <= j < |kept| && kept[j] == f;
      KeptIsEndpoint(blocks, elsewhere, edges, b, j);
      BlockIsConnected(blocks, elsewhere, edges, b, 0, j);
      var d :| 0 <= d < |components| && f in components[d];
      assert c == d;
    }
  }

  /** A fragment connected to an endpoint is one. */
  lemma ConnectedIsEndpoint(edges: seq<Edge>, x: Fragment, y: Fragment)
    requires Connected(edges, x, y) && Endpoint(edges, x)
    ensures Endpoint(edges, y)
  {
    var p :| IsChain(edges, p) && p[0] == x && p[|p| - 1] == y;
    if |p| > 1 {
      assert Adjacent(edges, p[|p| - 2], p[|p| - 2 + 1]);
    }
  }

  /** The component of a block is reported exactly if a fragment connected to the block is not ignored. */
  ghost predicate BlockVerdict(blocks: seq<seq<Fragment>>, elsewhere: Drops, ignoreRanges: Ranges,
                               edges: seq<Edge>, violations: seq<seq<Fragment>>, b: nat)
    requires b < |blocks|
  {
    ThreeDistinct(Kept(blocks[b], elsewhere)) ==>
      ((exists v :: v in violations && Holds(v, blocks[b], elsewhere)) <==>
       (exists f :: Connected(edges, Kept(blocks[b], elsewhere)[0], f) && !IsDupIgnored(f, ignoreRanges)))
  }

  lemma BlockVerdictHolds(blocks: seq<seq<Fragment>>, elsewhere: Drops, ignoreRanges: Ranges,
                          edges: seq<Edge>, components: seq<seq<Fragment>>, b: nat)
    requires forall e :: e in edges <==> InChain(blocks, elsewhere, e)
    requires IsPartition(components, edges) && b < |blocks|
    ensures BlockVerdict(blocks, elsewhere, ignoreRanges, edges, Reportable(components, ignoreRanges), b)
  {
    var kept := Kept(blocks[b], elsewhere);
    if ThreeDistinct(kept) {
      var violations := Reportable(components, ignoreRanges);
      var c := BlockInOneComponent(blocks, elsewhere, edges, components, b);
      assert kept[0] in kept;
      KeptIsEndpoint(blocks, elsewhere, edges, b, 0);
      if v :| v in violations && Holds(v, blocks[b], elsewhere) {
        var d :| 0 <= d < |components| && components[d] == v;
        var k :| 0 <= k < |v| && !IsDupIgnored(v[k], ignoreRanges);
        assert kept[0] in v && v[k] in v;
        assert Connected(edges, kept[0], v[k]);
      }
      if f :| Connected(edges, kept[0], f) && !IsDupIgnored(f, ignoreRanges) {
        ConnectedIsEndpoint(edges, kept[0], f);
        var d :| 0 <= d < |components| && f in components[d];
        assert d == c;
        var k :| 0 <= k < |components[c]| && components[c][k] == f;
        ThreeDistinctIsLong(components[c], kept);
        assert components[c] in violations;
      }
    }
  }

  /** `x` is one of at least three fragments that are connected with each other. */
  ghost predicate OneOfThree(edges: seq<Edge>, x: Fragment) {
    exists y, z :: Connected(edges, x, y) && Connected(edges, x, z) && x != y && x != z && y != z
  }

  ghost predicate SomeCounts(edges: seq<Edge>, x: Fragment, ignoreRanges: Ranges) {
    exists f :: Connected(edges, x, f) && !IsDupIgnored(f, ignoreRanges)
  }

  ghost predicate IsReported(violations: seq<seq<Fragment>>, x: Fragment) {
    exists v :: v in violations && x in v
  }

  /** A fragment is reported exactly if it is one of three that are connected, and one of those connected
      with it is not ignored. */
  lemma FragmentVerdict(edges: seq<Edge>, components: seq<seq<Fragment>>, ignoreRanges: Ranges, x: Fragment)
    requires IsPartition(components, edges) && Endpoint(edges, x)
    ensures IsReported(Reportable(components, ignoreRanges), x) <==>
            OneOfThree(edges, x) && SomeCounts(edges, x, ignoreRanges)
  {
    if v :| v in Reportable(components, ignoreRanges) && x in v {
      ReportedMeans(edges, components, ignoreRanges, v, x);
    }
    if OneOfThree(edges, x) && SomeCounts(edges, x, ignoreRanges) {
      MustBeReported(edges, components, ignoreRanges, x);
    }
  }

  lemma ReportedMeans(edges: seq<Edge>, components: seq<seq<Fragment>>, ignoreRanges: Ranges, v: seq<Fragment>,
                      x: Fragment)
    requires IsPartition(components, edges) && v in Reportable(components, ignoreRanges) && x in v
    ensures OneOfThree(edges, x) && SomeCounts(edges, x, ignoreRanges)
  {
    var d :| 0 <= d < |components| && components[d] == v;
    TwoMore(edges, components, d, x);
    var k :| 0 <= k < |v| && !IsDupIgnored(v[k], ignoreRanges);
    assert v[k] in components[d];
    assert Connected(edges, x, v[k]);
  }

  lemma MustBeReported(edges: seq<Edge>, components: seq<seq<Fragment>>, ignoreRanges: Ranges, x: Fragment)
    requires IsPartition(components, edges) && Endpoint(edges, x)
    requires OneOfThree(edges, x) && SomeCounts(edges, x, ignoreRanges)
    ensures IsReported(Reportable(components, ignoreRanges), x)
  {
    var c :| 0 <= c < |components| && x in components[c];
    var y, z :| Connected(edges, x, y) && Connected(edges, x, z) && x != y && x != z && y != z;
    var f :| Connected(edges, x, f) && !IsDupIgnored(f, ignoreRanges);
    InTheSame(edges, components, c, x, y);
    InTheSame(edges, components, c, x, z);
    InTheSame(edges, components, c, x, f);
    ThreeMembers(components[c], x, y, z);
    var k :| 0 <= k < |components[c]| && components[c][k] == f;
    assert components[c] in Reportable(components, ignoreRanges);
  }

  lemma InTheSame(edges: seq<Edge>, components: seq<seq<Fragment>>, c: nat, x: Fragment, y: Fragment)
    requires IsPartition(components, edges) && c < |components| && x in components[c] && Connected(edges, x, y)
    ensures y in components[c]
  {
    ConnectedIsEndpoint(edges, x, y);
    var d :| 0 <= d < |components| && y in components[d];
    assert c == d;
  }

  lemma TwoMore(edges: seq<Edge>, components: seq<seq<Fragment>>, c: nat, x: Fragment)
    requires IsPartition(components, edges) && c < |components| && x in components[c] && |components[c]| >= 3
    ensures OneOfThree(edges, x)
  {
    var s := components[c];
    var i :| 0 <= i < |s| && s[i] == x;
    var j, k := (i + 1) % 3, (i + 2) % 3;
    if i < 3 {
      assert s[j] != x && s[k] != x && s[j] != s[k];
    } else {
      j, k := 0, 1;
    }
    assert s[j] in s && s[k] in s;
    assert Connected(edges, x, s[j]) && Connected(edges, x, s[k]);
  }

  /** `find_violations`: what is reported are components of the clone graph with at least three
      fragments of which one is not ignored, all of them, and each block with three distinct kept
      fragments gets its verdict. */
  method FindViolations(blocks: seq<seq<Fragment>>, elsewhere: Drops, ignoreRanges: Ranges)
      returns (violations: seq<seq<Fragment>>)
    ensures exists components :: IsPartition(components, ChainEdges(blocks, elsewhere)) &&
                                 violations == Reportable(components, ignoreRanges)
    ensures AllDifferent(violations)
    ensures forall b | 0 <= b < |blocks| ::
              BlockVerdict(blocks, elsewhere, ignoreRanges, ChainEdges(blocks, elsewhere), violations, b)
    ensures var edges := ChainEdges(blocks, elsewhere);
            forall x | Endpoint(edges, x) ::
              IsReported(violations, x) <==> OneOfThree(edges, x) && SomeCounts(edges, x, ignoreRanges)
  {
    var edges := BuildEdges(blocks, elsewhere);
    var components := Cluster(edges);
    violations := Reportable(components, ignoreRanges);
    PartsDiffer(components, edges);
    ReportedOnce(components, ignoreRanges);
    forall b | 0 <= b < |blocks|
      ensures BlockVerdict(blocks, elsewhere, ignoreRanges, edges, violations, b)
    {
      BlockVerdictHolds(blocks, elsewhere, ignoreRanges, edges, components, b);
    }
    forall x | Endpoint(edges, x)
      ensures IsReported(violations, x) <==> OneOfThree(edges, x) && SomeCounts(edges, x, ignoreRanges)
    {
      FragmentVerdict(edges, components, ignoreRanges, x);
    }
  }
}
