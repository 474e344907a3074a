/** Fragments, the graph of duplications between them, and what it means to be connected in it. */
module CloneGraph {

  datatype Fragment = Fragment(file: string, start: int, end: int)

  type Edge = (Fragment, Fragment)

  ghost predicate Adjacent(edges: seq<Edge>, a: Fragment, b: Fragment) {
    (a, b) in edges || (b, a) in edges
  }

  ghost predicate IsChain(edges: seq<Edge>, p: seq<Fragment>) {
    p != [] && forall i, j | 0 <= i && j == i + 1 < |p| :: Adjacent(edges, p[i], p[j])
  }

  /** A chain of edges, followed in either direction, joins `a` and `b`. */
  ghost predicate Connected(edges: seq<Edge>, a: Fragment, b: Fragment) {
    exists p :: IsChain(edges, p) && p[0] == a && p[|p| - 1] == b
  }

  ghost predicate Endpoint(edges: seq<Edge>, x: Fragment) {
    exists i :: 0 <= i < |edges| && (edges[i].0 == x || edges[i].1 == x)
  }

  lemma ConnectedRefl(edges: seq<Edge>, a: Fragment)
    ensures Connected(edges, a, a)
  {
    assert IsChain(edges, [a]);
  }

  lemma ConnectedByEdge(edges: seq<Edge>, a: Fragment, b: Fragment)
    requires Adjacent(edges, a, b)
    ensures Connected(edges, a, b)
  {
    assert IsChain(edges, [a, b]);
  }

  lemma ConnectedTrans(edges: seq<Edge>, a: Fragment, b: Fragment, c: Fragment)
    requires Connected(edges, a, b) && Connected(edges, b, c)
    ensures Connected(edges, a, c)
  {
    var p :| IsChain(edges, p) && p[0] == a && p[|p| - 1] == b;
    var q :| IsChain(edges, q) && q[0] == b && q[|q| - 1] == c;
    var r := p + q[1..];
    forall i | 0 <= i < |r| - 1
      ensures Adjacent(edges, r[i], r[i + 1])
    {
      if i < |p| - 1 {
        assert Adjacent(edges, p[i], p[i + 1]);
      } else {
        var j := i - (|p| - 1);
        assert Adjacent(edges, q[j], q[j + 1]);
      }
    }
    assert IsChain(edges, r);
  }

  lemma ConnectedSym(edges: seq<Edge>, a: Fragment, b: Fragment)
    requires Connected(edges, a, b)
    ensures Connected(edges, b, a)
  {
    var p :| IsChain(edges, p) && p[0] == a && p[|p| - 1] == b;
    var r := seq(|p|, i requires 0 <= i < |p| => p[|p| - 1 - i]);
    forall i | 0 <= i < |r| - 1
      ensures Adjacent(edges, r[i], r[i + 1])
    {
      assert Adjacent(edges, p[|p| - 2 - i], p[|p| - 2 - i + 1]);
    }
    assert IsChain(edges, r);
  }

  /** If every edge of `edges` joins fragments connected in `others`, so does every chain. */
  lemma {:induction false} ConnectedVia(edges: seq<Edge>, others: seq<Edge>, p: seq<Fragment>)
    requires IsChain(edges, p)
    requires forall e | e in edges :: Connected(others, e.0, e.1)
    ensures Connected(others, p[0], p[|p| - 1])
  {
    if |p| == 1 {
      ConnectedRefl(others, p[0]);
    } else {
      assert Adjacent(edges, p[0], p[1]);
      if (p[0], p[1]) !in edges {
        ConnectedSym(others, p[1], p[0]);
      }
      assert forall i | 0 <= i < |p[1..]| - 1 :: Adjacent(edges, p[1..][i], p[1..][i + 1]) by {
        forall i | 0 <= i < |p[1..]| - 1
          ensures Adjacent(edges, p[1..][i], p[1..][i + 1])
        {
          assert Adjacent(edges, p[i + 1], p[i + 2]);
        }
      }
      ConnectedVia(edges, others, p[1..]);
      ConnectedTrans(others, p[0], p[1], p[|p| - 1]);
    }
  }

  lemma ConnectedMonotone(edges: seq<Edge>, others: seq<Edge>, a: Fragment, b: Fragment)
    requires forall e | e in edges :: Connected(others, e.0, e.1)
    requires Connected(edges, a, b)
    ensures Connected(others, a, b)
  {
    var p :| IsChain(edges, p) && p[0] == a && p[|p| - 1] == b;
    ConnectedVia(edges, others, p);
  }

  /** The components of a graph: every endpoint of an edge occurs once in one of them, and two
      endpoints are in the same one if and only if a chain of edges joins them. */
  ghost predicate IsPartition(components: seq<seq<Fragment>>, edges: seq<Edge>) {
    && (forall i | 0 <= i < |components| :: components[i] != [])
    && (forall x :: Endpoint(edges, x) <==> exists i :: 0 <= i < |components| && x in components[i])
    && (forall i | 0 <= i < |components| :: Distinct(components[i]))
    && (forall i, j, x, y | 0 <= i < |components| && 0 <= j < |components| &&
                            x in components[i] && y in components[j] ::
          Connected(edges, x, y) <==> i == j)
  }

  ghost predicate Distinct(s: seq<Fragment>) {
    forall i, j | 0 <= i < j < |s| :: s[i] != s[j]
  }
}
