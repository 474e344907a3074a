/** `cluster` of the duplicate-code checker: union-find with path halving and without ranks. */
module CloneClusters {
  import opened CloneGraph

  type Parents = map<Fragment, Fragment>
  type Heights = map<Fragment, nat>
  type Groups = map<Fragment, seq<Fragment>>

  /** `parent` is a forest. `height` grows along parents, which is why walks end; `root` names the
      node at which the walk from each node ends. */
  ghost predicate Forest(parent: Parents, height: Heights, bound: nat, root: Parents) {
    && height.Keys == parent.Keys
    && root.Keys == parent.Keys
    && forall x {:trigger NodeOk(parent, height, bound, root, x)} | x in parent ::
         NodeOk(parent, height, bound, root, x)
  }

  ghost predicate NodeOk(parent: Parents, height: Heights, bound: nat, root: Parents, x: Fragment)
    requires height.Keys == root.Keys == parent.Keys && x in parent
  {
    && parent[x] in parent
    && root[x] in parent
    && height[x] <= bound
    && (parent[x] != x ==> height[x] < height[parent[x]])
    && root[x] == root[parent[x]]
    && parent[root[x]] == root[x]
    && (parent[x] == x ==> root[x] == x)
  }

  /** The node reached from `x` in `n` steps to the parent. */
  ghost function Ascend(parent: Parents, x: Fragment, n: nat): Fragment
    decreases n
  {
    if n == 0 || x !in parent then x else Ascend(parent, parent[x], n - 1)
  }

  /** In a forest `root[x]` is the only node that is its own parent on the walk up from `x`. */
  lemma {:induction false} RootEndsTheWalk(parent: Parents, height: Heights, bound: nat, root: Parents, x: Fragment)
    requires Forest(parent, height, bound, root) && x in parent
    ensures exists n: nat :: Ascend(parent, x, n) == root[x]
    ensures forall n: nat :: var y := Ascend(parent, x, n); y in parent && (parent[y] == y ==> y == root[x])
    decreases bound - height[x]
  {
    assert NodeOk(parent, height, bound, root, x);
    if parent[x] == x {
      assert Ascend(parent, x, 0) == x;
      forall n: nat
        ensures Ascend(parent, x, n) == x
      {
        StaysAtRoot(parent, x, n);
      }
    } else {
      RootEndsTheWalk(parent, height, bound, root, parent[x]);
      assert NodeOk(parent, height, bound, root, parent[x]);
      var n: nat :| Ascend(parent, parent[x], n) == root[x];
      assert Ascend(parent, x, n + 1) == root[x];
      forall m: nat
        ensures var y := Ascend(parent, x, m); y in parent && (parent[y] == y ==> y == root[x])
      {
        if m > 0 {
          assert Ascend(parent, x, m) == Ascend(parent, parent[x], m - 1);
        }
      }
    }
  }

  lemma {:induction false} StaysAtRoot(parent: Parents, x: Fragment, n: nat)
    requires x in parent && parent[x] == x
    ensures Ascend(parent, x, n) == x
  {
    if n > 0 {
      StaysAtRoot(parent, x, n - 1);
    }
  }

  // ----- What each assignment does to the forest -----

  lemma AddNode(parent: Parents, height: Heights, bound: nat, root: Parents, x: Fragment)
    requires Forest(parent, height, bound, root) && x !in parent
    ensures Forest(parent[x := x], height[x := 0], bound, root[x := x])
  {
    var parent' := parent[x := x];
    forall y | y in parent'
      ensures NodeOk(parent', height[x := 0], bound, root[x := x], y)
    {
      assert y != x ==> NodeOk(parent, height, bound, root, y);
    }
  }

  /** Path halving: pointing a node at its grandparent changes no root. */
  lemma HalveStep(parent: Parents, height: Heights, bound: nat, root: Parents, x: Fragment)
    requires Forest(parent, height, bound, root) && x in parent && parent[x] != x
    ensures parent[x] in parent && parent[parent[x]] in parent
    ensures height[x] < height[parent[parent[x]]] <= bound && root[parent[parent[x]]] == root[x]
    ensures Forest(parent[x := parent[parent[x]]], height, bound, root)
  {
    assert NodeOk(parent, height, bound, root, x);
    assert NodeOk(parent, height, bound, root, parent[x]);
    assert NodeOk(parent, height, bound, root, parent[parent[x]]);
    assert NodeOk(parent, height, bound, root, root[x]);
    var parent' := parent[x := parent[parent[x]]];
    forall y | y in parent'
      ensures NodeOk(parent', height, bound, root, y)
    {
      assert NodeOk(parent, height, bound, root, y);
    }
  }

  /** The roots after the class of `ra` joined that of `rb`. */
  ghost function Joined(root: Parents, ra: Fragment, rb: Fragment): Parents {
    map x | x in root :: if root[x] == ra then rb else root[x]
  }

  /** The roots once `x` has been asked for: a new node is its own root. */
  ghost function Registered(root: Parents, x: Fragment): Parents {
    if x in root then root else root[x := x]
  }

  lemma JoinedWithItself(root: Parents, r: Fragment)
    ensures Joined(root, r, r) == root
  {
  }

  lemma RegisteredContains(root: Parents, a: Fragment, b: Fragment)
    ensures a in Registered(Registered(root, a), b) && b in Registered(Registered(root, a), b)
  {
  }

  /** The roots after `union(a, b)`. */
  ghost function United(root: Parents, a: Fragment, b: Fragment): Parents {
    RegisteredContains(root, a, b);
    var known := Registered(Registered(root, a), b);
    Joined(known, known[a], known[b])
  }

  ghost function Raised(height: Heights, ra: Fragment, rb: Fragment): Heights
    requires ra in height && rb in height
  {
    if height[rb] <= height[ra] then height[rb := height[ra] + 1] else height
  }

  lemma AttachStep(parent: Parents, height: Heights, bound: nat, root: Parents, ra: Fragment, rb: Fragment)
    requires Forest(parent, height, bound, root)
    requires ra in parent && rb in parent && ra != rb && parent[ra] == ra && parent[rb] == rb
    ensures Forest(parent[ra := rb], Raised(height, ra, rb), bound + 1, Joined(root, ra, rb))
  {
    var parent', height', root' := parent[ra := rb], Raised(height, ra, rb), Joined(root, ra, rb);
    assert NodeOk(parent, height, bound, root, ra);
    assert NodeOk(parent, height, bound, root, rb);
    forall y | y in parent'
      ensures NodeOk(parent', height', bound + 1, root', y)
    {
      assert NodeOk(parent, height, bound, root, y);
    }
  }

  class UnionFind {
    var parent: Parents
    var order: seq<Fragment>  // the dictionary's keys in insertion order
    ghost var height: Heights
    ghost var bound: nat
    ghost var root: Parents

    ghost predicate Valid()
      reads this
    {
      && Forest(parent, height, bound, root)
      && Distinct(order)
      && (forall x :: x in order <==> x in parent)
    }

    constructor ()
      ensures Valid() && parent == map[] && order == []
    {
      parent, order, height, bound, root := map[], [], map[], 0, map[];
    }

    /** `parent.setdefault(node, node)` */
    method Register(node: Fragment)
      requires Valid()
      modifies this
      ensures Valid() && node in parent && root == Registered(old(root), node)
      ensures order == if node in old(parent) then old(order) else old(order) + [node]
    {
      if node !in parent {
        AddNode(parent, height, bound, root, node);
        parent := parent[node := node];
        order := order + [node];
        height := height[node := 0];
        root := root[node := node];
      }
    }

    /** Returns the root and halves the path to it. No node's root changes. */
    method Find(start: Fragment) returns (node: Fragment)
      requires Valid()
      modifies this
      ensures Valid() && start in root && node == root[start] && root == Registered(old(root), start)
      ensures order == if start in old(parent) then old(order) else old(order) + [start]
    {
      Register(start);
      node := start;
      ghost var roots, keys, nodes := root, order, parent.Keys;
      while parent[node] != node
        invariant Forest(parent, height, bound, root) && parent.Keys == nodes
        invariant root == roots && order == keys
        invariant node in parent && root[node] == root[start]
        decreases bound - height[node]
      {
        HalveStep(parent, height, bound, root, node);
        parent := parent[node := parent[parent[node]]];
        node := parent[node];
      }
      assert NodeOk(parent, height, bound, root, node);
    }

    /** `find` on a node that is there changes neither roots nor keys. */
    method FindKnown(node: Fragment) returns (r: Fragment)
      requires Valid() && node in root
      modifies this
      ensures Valid() && root == old(root) && order == old(order) && r == root[node]
    {
      r := Find(node);
    }

    /** `parent[ra] = rb` for two roots. */
    method Attach(ra: Fragment, rb: Fragment)
      requires Valid() && ra in parent && rb in parent && ra != rb && parent[ra] == ra && parent[rb] == rb
      modifies this
      ensures Valid() && root == Joined(old(root), ra, rb) && order == old(order)
    {
      AttachStep(parent, height, bound, root, ra, rb);
      parent := parent[ra := rb];
      height := Raised(height, ra, rb);
      bound := bound + 1;
      root := Joined(root, ra, rb);
    }

    lemma RootsAreRoots(x: Fragment)
      requires Valid() && x in root
      ensures root[x] in parent && parent[root[x]] == root[x]
    {
      assert NodeOk(parent, height, bound, root, x);
    }

    /** `ra, rb = find(a), find(b)` */
    method FindBoth(a: Fragment, b: Fragment) returns (ra: Fragment, rb: Fragment)
      requires Valid()
      modifies this
      ensures Valid() && root == Registered(Registered(old(root), a), b)
      ensures a in root && b in root && ra == root[a] && rb == root[b]
    {
      ra := Find(a);
      rb := Find(b);
    }

    /** The classes of `a` and `b` become one, with the root of `b`; every other class stays. */
    method Union(a: Fragment, b: Fragment)
      requires Valid()
      modifies this
      ensures Valid()
      ensures root == United(old(root), a, b)
    {
      var ra, rb := FindBoth(a, b);
      RootsAreRoots(a);
      RootsAreRoots(b);
      if ra != rb {
        Attach(ra, rb);
      } else {
        JoinedWithItself(root, ra);
      }
    }
  }

  // ----- Roots and connectivity -----

  /** The nodes are the endpoints of the edges, each is connected to its root, and no edge leads from
      one class to another. */
  ghost predicate Represents(root: Parents, edges: seq<Edge>) {
    && (forall x :: x in root <==> Endpoint(edges, x))
    && (forall x | x in root :: Connected(edges, x, root[x]))
    && (forall e | e in edges :: e.0 in root && e.1 in root && root[e.0] == root[e.1])
  }

  lemma AddedEndpoint(edges: seq<Edge>, e: Edge, x: Fragment)
    ensures Endpoint(edges + [e], x) <==> Endpoint(edges, x) || x == e.0 || x == e.1
  {
    var all := edges + [e];
    assert all[|edges|] == e;
    if Endpoint(edges, x) {
      var i :| 0 <= i < |edges| && (edges[i].0 == x || edges[i].1 == x);
      assert all[i] == edges[i];
    }
  }

  lemma MoreEdges(edges: seq<Edge>, e: Edge, x: Fragment, y: Fragment)
    requires Connected(edges, x, y)
    ensures Connected(edges + [e], x, y)
  {
    forall d | d in edges
      ensures Connected(edges + [e], d.0, d.1)
    {
      ConnectedByEdge(edges + [e], d.0, d.1);
    }
    ConnectedMonotone(edges, edges + [e], x, y);
  }

  lemma ConnectedToKnown(root: Parents, edges: seq<Edge>, a: Fragment, b: Fragment, x: Fragment)
    requires Represents(root, edges)
    requires x in Registered(Registered(root, a), b)
    ensures Connected(edges + [(a, b)], x, Registered(Registered(root, a), b)[x])
  {
    if x in root {
      MoreEdges(edges, (a, b), x, root[x]);
    } else {
      ConnectedRefl(edges + [(a, b)], x);
    }
  }

  lemma UniteConnects(root: Parents, edges: seq<Edge>, a: Fragment, b: Fragment, x: Fragment)
    requires Represents(root, edges) && x in United(root, a, b)
    ensures Connected(edges + [(a, b)], x, United(root, a, b)[x])
  {
    var all, known := edges + [(a, b)], Registered(Registered(root, a), b);
    RegisteredContains(root, a, b);
    ConnectedToKnown(root, edges, a, b, x);
    if known[x] == known[a] {
      ConnectedToKnown(root, edges, a, b, a);
      ConnectedToKnown(root, edges, a, b, b);
      ConnectedSym(all, a, known[a]);
      ConnectedByEdge(all, a, b);
      ConnectedTrans(all, x, known[a], a);
      ConnectedTrans(all, x, a, b);
      ConnectedTrans(all, x, b, known[b]);
    }
  }

  lemma UniteKeys(root: Parents, edges: seq<Edge>, a: Fragment, b: Fragment, x: Fragment)
    requires Represents(root, edges)
    ensures x in United(root, a, b) <==> Endpoint(edges + [(a, b)], x)
  {
    AddedEndpoint(edges, (a, b), x);
  }

  lemma UniteJoinsEnds(root: Parents, edges: seq<Edge>, a: Fragment, b: Fragment, e: Edge)
    requires Represents(root, edges) && e in edges + [(a, b)]
    ensures var root' := United(root, a, b); e.0 in root' && e.1 in root' && root'[e.0] == root'[e.1]
  {
    RegisteredContains(root, a, b);
    assert e in edges || e == (a, b);
  }

  lemma UniteRepresents(root: Parents, edges: seq<Edge>, a: Fragment, b: Fragment)
    requires Represents(root, edges)
    ensures Represents(United(root, a, b), edges + [(a, b)])
  {
    forall x ensures x in United(root, a, b) <==> Endpoint(edges + [(a, b)], x) {
      UniteKeys(root, edges, a, b, x);
    }
    forall x | x in United(root, a, b) ensures Connected(edges + [(a, b)], x, United(root, a, b)[x]) {
      UniteConnects(root, edges, a, b, x);
    }
    forall e | e in edges + [(a, b)]
      ensures var root' := United(root, a, b); e.0 in root' && e.1 in root' && root'[e.0] == root'[e.1]
    {
      UniteJoinsEnds(root, edges, a, b, e);
    }
  }

  lemma {:induction false} ChainHasOneRoot(root: Parents, edges: seq<Edge>, p: seq<Fragment>)
    requires Represents(root, edges) && IsChain(edges, p) && p[0] in root
    ensures p[|p| - 1] in root && root[p[|p| - 1]] == root[p[0]]
  {
    if |p| > 1 {
      assert Adjacent(edges, p[0], p[1]);
      EdgeHasOneRoot(root, edges, p[0], p[1]);
      TailIsChain(edges, p);
      ChainHasOneRoot(root, edges, p[1..]);
    }
  }

  lemma EdgeHasOneRoot(root: Parents, edges: seq<Edge>, x: Fragment, y: Fragment)
    requires Represents(root, edges) && Adjacent(edges, x, y)
    ensures x in root && y in root && root[x] == root[y]
  {
    var e: Edge := if (x, y) in edges then (x, y) else (y, x);
    assert e in edges;
  }

  lemma TailIsChain(edges: seq<Edge>, p: seq<Fragment>)
    requires IsChain(edges, p) && |p| > 1
    ensures IsChain(edges, p[1..])
  {
    var rest := p[1..];
    forall i | 0 <= i < |rest| - 1
      ensures Adjacent(edges, rest[i], rest[i + 1])
    {
      assert Adjacent(edges, p[i + 1], p[i + 2]);
    }
  }

  lemma SameRootIffConnected(root: Parents, edges: seq<Edge>, x: Fragment, y: Fragment)
    requires Represents(root, edges) && x in root && y in root
    ensures root[x] == root[y] <==> Connected(edges, x, y)
  {
    if root[x] == root[y] {
      ConnectedSym(edges, y, root[y]);
      ConnectedTrans(edges, x, root[x], y);
    }
    if Connected(edges, x, y) {
      var p :| IsChain(edges, p) && p[0] == x && p[|p| - 1] == y;
      ChainHasOneRoot(root, edges, p);
    }
  }

  // ----- Collecting the components -----

  ghost predicate GroupOk(root: Parents, seen: seq<Fragment>, k: Fragment, group: seq<Fragment>) {
    group != [] && Distinct(group) && forall x | x in group :: x in seen && x in root && root[x] == k
  }

  ghost predicate GroupsOk(root: Parents, seen: seq<Fragment>, keys: seq<Fragment>, members: Groups) {
    && Distinct(keys)
    && (forall k :: k in keys <==> k in members)
    && (forall k | k in members :: GroupOk(root, seen, k, members[k]))
    && (forall x | x in seen :: x in root && root[x] in members && x in members[root[x]])
  }

  lemma GroupStep(root: Parents, seen: seq<Fragment>, keys: seq<Fragment>, members: Groups, x: Fragment)
    requires GroupsOk(root, seen, keys, members) && x !in seen && x in root
    ensures var k := root[x];
            var keys' := if k in members then keys else keys + [k];
            var group := if k in members then members[k] else [];
            GroupsOk(root, seen + [x], keys', members[k := group + [x]])
  {
    var k := root[x];
    var group := if k in members then members[k] else [];
    var members' := members[k := group + [x]];
    forall j | j in members'
      ensures GroupOk(root, seen + [x], j, members'[j])
    {
      assert j in members ==> GroupOk(root, seen, j, members[j]);
    }
  }

  lemma GroupsArePartition(root: Parents, edges: seq<Edge>, nodes: seq<Fragment>, keys: seq<Fragment>, members: Groups,
                           components: seq<seq<Fragment>>)
    requires Represents(root, edges) && GroupsOk(root, nodes, keys, members)
    requires forall x :: x in nodes <==> x in root
    requires |components| == |keys|
    requires forall i | 0 <= i < |keys| :: keys[i] in members && components[i] == members[keys[i]]
    ensures IsPartition(components, edges)
  {
    forall i | 0 <= i < |components|
      ensures GroupOk(root, nodes, keys[i], components[i])
    {
      assert keys[i] in keys;
    }
    forall x
      ensures Endpoint(edges, x) <==> exists i :: 0 <= i < |components| && x in components[i]
    {
      if Endpoint(edges, x) {
        assert x in nodes && root[x] in keys;
        var i :| 0 <= i < |keys| && keys[i] == root[x];
        assert x in components[i];
      }
    }
    forall i, j, x, y | 0 <= i < |components| && 0 <= j < |components| && x in components[i] && y in components[j]
      ensures Connected(edges, x, y) <==> i == j
    {
      assert GroupOk(root, nodes, keys[i], components[i]) && GroupOk(root, nodes, keys[j], components[j]);
      SameRootIffConnected(root, edges, x, y);
    }
  }

  lemma UniteNext(root: Parents, edges: seq<Edge>, i: nat)
    requires i < |edges| && Represents(root, edges[..i])
    ensures Represents(United(root, edges[i].0, edges[i].1), edges[..i + 1])
  {
    assert edges[..i + 1] == edges[..i] + [(edges[i].0, edges[i].1)];
    UniteRepresents(root, edges[..i], edges[i].0, edges[i].1);
  }

  method UnionAll(edges: seq<Edge>) returns (uf: UnionFind)
    ensures fresh(uf) && uf.Valid() && Represents(uf.root, edges)
  {
    uf := new UnionFind();
    for i := 0 to |edges|
      invariant fresh(uf) && uf.Valid() && Represents(uf.root, edges[..i])
    {
      UniteNext(uf.root, edges, i);
      uf.Union(edges[i].0, edges[i].1);
    }
    assert edges[..|edges|] == edges;
  }

  /** One more node of the dictionary goes to the group of its root. */
  lemma GroupNext(root: Parents, nodes: seq<Fragment>, i: nat, keys: seq<Fragment>, members: Groups)
    requires i < |nodes| && Distinct(nodes) && nodes[i] in root && GroupsOk(root, nodes[..i], keys, members)
    ensures var k := root[nodes[i]];
            var keys' := if k in members then keys else keys + [k];
            var group := if k in members then members[k] else [];
            GroupsOk(root, nodes[..i + 1], keys', members[k := group + [nodes[i]]])
  {
    assert nodes[i] !in nodes[..i];
    assert nodes[..i + 1] == nodes[..i] + [nodes[i]];
    GroupStep(root, nodes[..i], keys, members, nodes[i]);
  }

  /** `components.setdefault(find(node), []).append(node)` for every node of the dictionary. */
  method Collect(uf: UnionFind, nodes: seq<Fragment>) returns (keys: seq<Fragment>, members: Groups)
    requires uf.Valid() && Distinct(nodes) && forall i | 0 <= i < |nodes| :: nodes[i] in uf.root
    modifies uf
    ensures GroupsOk(old(uf.root), nodes, keys, members)
  {
    ghost var root := uf.root;
    keys, members := [], map[];
    for i := 0 to |nodes|
      invariant uf.Valid() && uf.root == root
      invariant GroupsOk(root, nodes[..i], keys, members)
    {
      GroupNext(root, nodes, i, keys, members);
      var r := uf.FindKnown(nodes[i]);
      var group := if r in members then members[r] else [];
      keys := if r in members then keys else keys + [r];
      members := members[r := group + [nodes[i]]];
    }
    assert nodes[..|nodes|] == nodes;
  }

  /** The components are exactly the classes of fragments that chains of edges join. */
  method Cluster(edges: seq<Edge>) returns (components: seq<seq<Fragment>>)
    ensures IsPartition(components, edges)
  {
    var uf := UnionAll(edges);
    var nodes := uf.order;
    ghost var root := uf.root;
    assert forall i | 0 <= i < |nodes| :: nodes[i] in nodes;
    var keys, members := Collect(uf, nodes);
    assert forall i | 0 <= i < |keys| :: keys[i] in keys;
    components := seq(|keys|, i requires 0 <= i < |keys| && keys[i] in members => members[keys[i]]);
    GroupsArePartition(root, edges, nodes, keys, members, components);
  }
}
