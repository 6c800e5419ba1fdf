/** The mempool's dependency tracker: a node list with swap-removal under a hash index. */
module Tracker {
  import opened Primitives
  import opened Digraph
  import opened ParentOrder
  import opened ChainTypes

  // ---------------------------------------------------------------- the graph it stands for

  datatype Link = Link(parent: TxId, child: TxId)

  datatype TxGraph = TxGraph(txs: set<TxId>, links: set<Link>)

  /** A new transaction under those of its parents that are tracked. */
  ghost function WithTx(g: TxGraph, child: TxId, parents: seq<TxId>): TxGraph
  {
    TxGraph(g.txs + {child}, g.links + set p | p in parents && p in g.txs :: Link(p, child))
  }

  /** Removal cuts the links of the transaction and joins nothing across it. */
  ghost function WithoutTx(g: TxGraph, tx: TxId): TxGraph
  {
    TxGraph(g.txs - {tx}, set l | l in g.links && l.parent != tx && l.child != tx)
  }

  ghost predicate LinkWalk(links: set<Link>, p: seq<TxId>)
  {
    |p| >= 2 && forall i :: 0 <= i < |p| - 1 ==> Link(p[i], p[i + 1]) in links
  }

  ghost predicate IsAncestor(links: set<Link>, a: TxId, b: TxId)
  {
    exists p :: LinkWalk(links, p) && p[0] == a && p[|p| - 1] == b
  }

  /** Every transaction of the graph once, parents before children. */
  ghost predicate ParentsFirst(g: TxGraph, order: seq<TxId>)
  {
    && Distinct(order)
    && (forall t :: t in order <==> t in g.txs)
    && forall l, k :: l in g.links && 0 <= k < |order| && order[k] == l.parent ==> l.child in order[k + 1..]
  }

  // ---------------------------------------------------------------- the representation

  ghost function LinksOf(nodes: seq<TxId>, edges: seq<Edge>): set<Link>
    requires InRange(edges, |nodes|)
  {
    set e | e in edges :: Link(nodes[e.source], nodes[e.target])
  }

  ghost predicate Mirrors(indices: map<TxId, nat>, nodes: seq<TxId>)
  {
    && (forall t :: t in indices ==> indices[t] < |nodes| && nodes[indices[t]] == t)
    && (forall i :: 0 <= i < |nodes| ==> nodes[i] in indices && indices[nodes[i]] == i)
  }

  /** petgraph's remove_node on a node list: the last entry moves into the hole. */
  function SwapRemoved<T>(s: seq<T>, i: nat): (r: seq<T>)
    requires i < |s|
    ensures |r| == |s| - 1 && forall x :: 0 <= x < |s| && x != i ==> r[Moved(x, i, |s| - 1)] == s[x]
  {
    s[i := s[|s| - 1]][..|s| - 1]
  }

  /** Where node x is after node i was removed and `last` took its place. */
  function Moved(x: nat, i: nat, last: nat): (y: nat)
    ensures x <= last && i <= last && x != i ==> y < last
  {
    if x == last then i else x
  }

  /** Edges of the removed node go; the others follow the moved node. */
  function EdgesWithout(edges: seq<Edge>, i: nat, last: nat): seq<Edge>
  {
    if edges == [] then []
    else
      var before, e := EdgesWithout(edges[..|edges| - 1], i, last), edges[|edges| - 1];
      if e.source == i || e.target == i then before
      else before + [Edge(Moved(e.source, i, last), Moved(e.target, i, last))]
  }

  lemma {:induction false} EdgesKept(edges: seq<Edge>, i: nat, last: nat)
    ensures forall e :: e in edges && e.source != i && e.target != i ==>
              Edge(Moved(e.source, i, last), Moved(e.target, i, last)) in EdgesWithout(edges, i, last)
  {
    if edges != [] {
      EdgesKept(edges[..|edges| - 1], i, last);
      assert edges == edges[..|edges| - 1] + [edges[|edges| - 1]];
    }
  }

  lemma {:induction false} EdgesOrigin(edges: seq<Edge>, i: nat, last: nat, f: Edge) returns (e: Edge)
    requires f in EdgesWithout(edges, i, last)
    ensures e in edges && e.source != i && e.target != i
    ensures f == Edge(Moved(e.source, i, last), Moved(e.target, i, last))
  {
    var before, final := edges[..|edges| - 1], edges[|edges| - 1];
    assert edges == before + [final];
    if f in EdgesWithout(before, i, last) { e := EdgesOrigin(before, i, last, f); } else { e := final; }
  }

  /** Swap-removal removes exactly the transaction and its links. */
  lemma {:induction false} RemovalLinks(nodes: seq<TxId>, edges: seq<Edge>, i: nat)
    requires Distinct(nodes) && InRange(edges, |nodes|) && i < |nodes|
    ensures var nodes', edges' := SwapRemoved(nodes, i), EdgesWithout(edges, i, |nodes| - 1);
            && Distinct(nodes') && InRange(edges', |nodes'|)
            && TxGraph(Elements(nodes'), LinksOf(nodes', edges'))
               == WithoutTx(TxGraph(Elements(nodes), LinksOf(nodes, edges)), nodes[i])
  {
    RemovedElements(nodes, i);
    RemovedInRange(edges, |nodes|, i);
    var nodes', edges' := SwapRemoved(nodes, i), EdgesWithout(edges, i, |nodes| - 1);
    hide SwapRemoved, EdgesWithout, LinksOf, Distinct, Elements;
    forall l ensures l in LinksOf(nodes', edges')
                     <==> l in LinksOf(nodes, edges) && l.parent != nodes[i] && l.child != nodes[i] {
      RemovedLink(nodes, edges, i, l);
    }
  }

  lemma {:induction false} RemovedInRange(edges: seq<Edge>, n: nat, i: nat)
    requires InRange(edges, n) && i < n
    ensures InRange(EdgesWithout(edges, i, n - 1), n - 1)
  {
    forall f | f in EdgesWithout(edges, i, n - 1) ensures f.source < n - 1 && f.target < n - 1 {
      var e := EdgesOrigin(edges, i, n - 1, f);
    }
  }

  lemma {:induction false} RemovedLink(nodes: seq<TxId>, edges: seq<Edge>, i: nat, l: Link)
    requires Distinct(nodes) && InRange(edges, |nodes|) && i < |nodes|
    requires InRange(EdgesWithout(edges, i, |nodes| - 1), |nodes| - 1)
    ensures l in LinksOf(SwapRemoved(nodes, i), EdgesWithout(edges, i, |nodes| - 1))
            <==> l in LinksOf(nodes, edges) && l.parent != nodes[i] && l.child != nodes[i]
  {
    var last := |nodes| - 1;
    var nodes', edges' := SwapRemoved(nodes, i), EdgesWithout(edges, i, last);
    hide SwapRemoved, EdgesWithout, Moved, LinksOf, InRange;
    if l in LinksOf(nodes', edges') {
      var f := LinkEdge(nodes', edges', l);
      var e := EdgesOrigin(edges, i, last, f);
      EdgeInRange(edges, |nodes|, e);
      MovedLink(nodes, i, e);
      EdgeLink(nodes, edges, e);
      assert nodes[e.source] != nodes[i] && nodes[e.target] != nodes[i];
    }
    if l in LinksOf(nodes, edges) && l.parent != nodes[i] && l.child != nodes[i] {
      EdgesKept(edges, i, last);
      var e := LinkEdge(nodes, edges, l);
      MovedLink(nodes, i, e);
      EdgeLink(nodes', edges', Edge(Moved(e.source, i, last), Moved(e.target, i, last)));
    }
  }

  lemma EdgeInRange(edges: seq<Edge>, n: nat, e: Edge)
    requires InRange(edges, n) && e in edges
    ensures e.source < n && e.target < n
  {}

  lemma LinkEdge(nodes: seq<TxId>, edges: seq<Edge>, l: Link) returns (e: Edge)
    requires InRange(edges, |nodes|) && l in LinksOf(nodes, edges)
    ensures e in edges && e.source < |nodes| && e.target < |nodes|
    ensures l == Link(nodes[e.source], nodes[e.target])
  {
    e :| e in edges && Link(nodes[e.source], nodes[e.target]) == l;
  }

  lemma EdgeLink(nodes: seq<TxId>, edges: seq<Edge>, e: Edge)
    requires InRange(edges, |nodes|) && e in edges
    ensures e.source < |nodes| && e.target < |nodes| && Link(nodes[e.source], nodes[e.target]) in LinksOf(nodes, edges)
  {}

  /** Where an edge goes when node i is removed, it joins the same transactions. */
  lemma MovedLink(nodes: seq<TxId>, i: nat, e: Edge)
    requires i < |nodes| && e.source < |nodes| && e.target < |nodes| && e.source != i && e.target != i
    ensures var last, nodes' := |nodes| - 1, SwapRemoved(nodes, i);
            && Moved(e.source, i, last) < last && nodes'[Moved(e.source, i, last)] == nodes[e.source]
            && Moved(e.target, i, last) < last && nodes'[Moved(e.target, i, last)] == nodes[e.target]
  {}

  lemma RemovedElements(nodes: seq<TxId>, i: nat)
    requires Distinct(nodes) && i < |nodes|
    ensures Distinct(SwapRemoved(nodes, i)) && Elements(SwapRemoved(nodes, i)) == Elements(nodes) - {nodes[i]}
  {
    var nodes' := SwapRemoved(nodes, i);
    forall t | t in nodes && t != nodes[i] ensures t in nodes' {
      var x :| 0 <= x < |nodes| && nodes[x] == t;
      assert nodes'[Moved(x, i, |nodes| - 1)] == t;
    }
  }

  lemma {:induction false} RemovalAcyclic(edges: seq<Edge>, n: nat, i: nat)
    requires Acyclic(edges, n) && i < n
    ensures Acyclic(EdgesWithout(edges, i, n - 1), n - 1)
  {
    var rank :| |rank| == n && Ranked(edges, rank);
    var rank', edges' := SwapRemoved(rank, i), EdgesWithout(edges, i, n - 1);
    forall f | f in edges' ensures f.source < |rank'| && f.target < |rank'| && rank'[f.source] < rank'[f.target] {
      var e := EdgesOrigin(edges, i, n - 1, f);
    }
    assert Ranked(edges', rank');
  }

  lemma {:induction false} AboveAll(rank: seq<nat>) returns (top: nat)
    ensures forall k :: 0 <= k < |rank| ==> rank[k] < top
  {
    if rank == [] {
      top := 0;
    } else {
      var before := AboveAll(rank[..|rank| - 1]);
      top := before + rank[|rank| - 1] + 1;
    }
  }

  lemma AdditionAcyclic(edges: seq<Edge>, added: seq<Edge>, n: nat)
    requires Acyclic(edges, n) && forall e :: e in added ==> e.source < n && e.target == n
    ensures Acyclic(edges + added, n + 1)
  {
    var rank :| |rank| == n && Ranked(edges, rank);
    var top := AboveAll(rank);
    assert Ranked(edges + added, rank + [top]);
  }

  // ---------------------------------------------------------------- walks over hashes

  lemma WalkLinks(nodes: seq<TxId>, edges: seq<Edge>, p: seq<nat>)
    requires InRange(edges, |nodes|) && Walk(edges, p)
    ensures (forall i :: 0 <= i < |p| ==> p[i] < |nodes|)
              && IsAncestor(LinksOf(nodes, edges), nodes[p[0]], nodes[p[|p| - 1]])
  {
    forall i | 0 <= i < |p| ensures p[i] < |nodes| {
      if i < |p| - 1 { assert Edge(p[i], p[i + 1]) in edges; } else { assert Edge(p[i - 1], p[i]) in edges; }
    }
    var q := seq(|p|, i requires 0 <= i < |p| => nodes[p[i]]);
    forall i | 0 <= i < |q| - 1 ensures Link(q[i], q[i + 1]) in LinksOf(nodes, edges) {
      assert Edge(p[i], p[i + 1]) in edges;
    }
    assert LinkWalk(LinksOf(nodes, edges), q);
  }

  lemma LinkEnds(nodes: seq<TxId>, edges: seq<Edge>, indices: map<TxId, nat>, l: Link)
    requires Mirrors(indices, nodes) && InRange(edges, |nodes|) && l in LinksOf(nodes, edges)
    ensures l.parent in indices && l.child in indices && Edge(indices[l.parent], indices[l.child]) in edges
  {
    var e :| e in edges && Link(nodes[e.source], nodes[e.target]) == l;
    assert e == Edge(indices[l.parent], indices[l.child]);
  }

  lemma LinksWalk(nodes: seq<TxId>, edges: seq<Edge>, indices: map<TxId, nat>, q: seq<TxId>)
    requires Mirrors(indices, nodes) && InRange(edges, |nodes|) && LinkWalk(LinksOf(nodes, edges), q)
    ensures q[0] in indices && q[|q| - 1] in indices && Reaches(edges, indices[q[0]], indices[q[|q| - 1]])
  {
    hide LinksOf, Mirrors;
    forall i | 0 <= i < |q| ensures q[i] in indices {
      var k := if i < |q| - 1 then i else i - 1;
      LinkEnds(nodes, edges, indices, Link(q[k], q[k + 1]));
    }
    var p := seq(|q|, i requires 0 <= i < |q| => indices[q[i]]);
    forall i | 0 <= i < |p| - 1 ensures Edge(p[i], p[i + 1]) in edges {
      LinkEnds(nodes, edges, indices, Link(q[i], q[i + 1]));
    }
    assert Walk(edges, p);
  }

  /** Reachability of nodes is ancestry of the transactions they hold. */
  lemma ReachesIffAncestor(nodes: seq<TxId>, edges: seq<Edge>, indices: map<TxId, nat>, a: nat, b: nat)
    requires Mirrors(indices, nodes) && InRange(edges, |nodes|) && a < |nodes| && b < |nodes|
    ensures Reaches(edges, a, b) <==> IsAncestor(LinksOf(nodes, edges), nodes[a], nodes[b])
  {
    if Reaches(edges, a, b) {
      var p :| Walk(edges, p) && p[0] == a && p[|p| - 1] == b;
      WalkLinks(nodes, edges, p);
    }
    if IsAncestor(LinksOf(nodes, edges), nodes[a], nodes[b]) {
      var q :| LinkWalk(LinksOf(nodes, edges), q) && q[0] == nodes[a] && q[|q| - 1] == nodes[b];
      LinksWalk(nodes, edges, indices, q);
    }
  }

  lemma AncestorsTracked(nodes: seq<TxId>, edges: seq<Edge>, indices: map<TxId, nat>, a: TxId, b: TxId)
    requires Mirrors(indices, nodes) && InRange(edges, |nodes|) && IsAncestor(LinksOf(nodes, edges), a, b)
    ensures a in nodes && b in nodes
  {
    var q :| LinkWalk(LinksOf(nodes, edges), q) && q[0] == a && q[|q| - 1] == b;
    LinksWalk(nodes, edges, indices, q);
    assert nodes[indices[a]] == a && nodes[indices[b]] == b;
  }

  /** The weights of a list of nodes. */
  function Weights(nodes: seq<TxId>, at: seq<nat>): (r: seq<TxId>)
    requires forall k :: 0 <= k < |at| ==> at[k] < |nodes|
    ensures |r| == |at| && forall i :: 0 <= i < |at| ==> r[i] == nodes[at[i]]
  {
    seq(|at|, i requires 0 <= i < |at| => nodes[at[i]])
  }

  lemma WeightsKeep(nodes: seq<TxId>, at: seq<nat>, indices: map<TxId, nat>)
    requires Mirrors(indices, nodes) && Distinct(at) && forall k :: 0 <= k < |at| ==> at[k] < |nodes|
    ensures Distinct(Weights(nodes, at))
    ensures forall t :: t in Weights(nodes, at) <==> t in indices && indices[t] in at
  {
    var r := Weights(nodes, at);
    forall i, j | 0 <= i < j < |r| ensures r[i] != r[j] {
      assert indices[r[i]] == at[i] && indices[r[j]] == at[j];
    }
    forall t | t in indices && indices[t] in at ensures t in r {
      var i :| 0 <= i < |at| && at[i] == indices[t];
      assert r[i] == t;
    }
    forall t | t in r ensures t in indices && indices[t] in at {
      var i :| 0 <= i < |r| && r[i] == t;
      assert indices[t] == at[i];
    }
  }

  lemma ReachedFrom(nodes: seq<TxId>, edges: seq<Edge>, indices: map<TxId, nat>, a: nat, found: seq<nat>)
    requires Mirrors(indices, nodes) && InRange(edges, |nodes|) && a < |nodes|
    requires forall b :: b in found <==> Reaches(edges, a, b)
    ensures forall k :: 0 <= k < |found| ==> found[k] < |nodes|
    ensures forall t :: t in indices && indices[t] in found <==> IsAncestor(LinksOf(nodes, edges), nodes[a], t)
  {
    hide IsAncestor, LinksOf;
    forall k | 0 <= k < |found| ensures found[k] < |nodes| {
      assert found[k] in found;
      var p :| Walk(edges, p) && p[0] == a && p[|p| - 1] == found[k];
      WalkLinks(nodes, edges, p);
    }
    forall t ensures t in indices && indices[t] in found <==> IsAncestor(LinksOf(nodes, edges), nodes[a], t) {
      if t in indices { ReachesIffAncestor(nodes, edges, indices, a, indices[t]); }
      if IsAncestor(LinksOf(nodes, edges), nodes[a], t) { AncestorsTracked(nodes, edges, indices, nodes[a], t); }
    }
  }

  lemma ReachingTo(nodes: seq<TxId>, edges: seq<Edge>, indices: map<TxId, nat>, b: nat, found: seq<nat>)
    requires Mirrors(indices, nodes) && InRange(edges, |nodes|) && b < |nodes|
    requires forall a :: a in found <==> a == b || Reaches(edges, a, b)
    ensures forall k :: 0 <= k < |found| ==> found[k] < |nodes|
    ensures forall t :: t in indices && indices[t] in found <==>
              t == nodes[b] || IsAncestor(LinksOf(nodes, edges), t, nodes[b])
  {
    hide IsAncestor, LinksOf;
    forall k | 0 <= k < |found| ensures found[k] < |nodes| {
      assert found[k] in found;
      if found[k] != b {
        var p :| Walk(edges, p) && p[0] == found[k] && p[|p| - 1] == b;
        WalkLinks(nodes, edges, p);
      }
    }
    forall t
      ensures t in indices && indices[t] in found <==> t == nodes[b] || IsAncestor(LinksOf(nodes, edges), t, nodes[b])
    {
      if t in indices { ReachesIffAncestor(nodes, edges, indices, indices[t], b); }
      if IsAncestor(LinksOf(nodes, edges), t, nodes[b]) { AncestorsTracked(nodes, edges, indices, t, nodes[b]); }
    }
  }

  lemma SortedParentsFirst(nodes: seq<TxId>, edges: seq<Edge>, indices: map<TxId, nat>, sorted: seq<nat>)
    requires Mirrors(indices, nodes) && InRange(edges, |nodes|)
    requires Distinct(sorted) && forall x: nat :: x in sorted <==> x < |nodes|
    requires forall k, e :: 0 <= k < |sorted| && e in edges && e.source == sorted[k] ==> e.target in sorted[k + 1..]
    ensures forall k :: 0 <= k < |sorted| ==> sorted[k] < |nodes|
    ensures ParentsFirst(TxGraph(Elements(nodes), LinksOf(nodes, edges)), Weights(nodes, sorted))
  {
    assert forall k :: 0 <= k < |sorted| ==> sorted[k] in sorted;
    hide LinksOf;
    WeightsKeep(nodes, sorted, indices);
    var order := Weights(nodes, sorted);
    forall t ensures t in order <==> t in nodes {
      if t in nodes { var i :| 0 <= i < |nodes| && nodes[i] == t; }
    }
    forall l, k | l in LinksOf(nodes, edges) && 0 <= k < |order| && order[k] == l.parent
      ensures l.child in order[k + 1..]
    {
      LinkEnds(nodes, edges, indices, l);
      ChildAfter(nodes, indices, sorted, k, l.child);
    }
  }

  lemma ChildAfter(nodes: seq<TxId>, indices: map<TxId, nat>, sorted: seq<nat>, k: nat, child: TxId)
    requires Mirrors(indices, nodes) && forall i :: 0 <= i < |sorted| ==> sorted[i] < |nodes|
    requires k < |sorted| && child in indices && indices[child] in sorted[k + 1..]
    ensures child in Weights(nodes, sorted)[k + 1..]
  {
    var j :| k + 1 <= j < |sorted| && sorted[j] == indices[child];
    assert Weights(nodes, sorted)[j] == child;
  }

  // ---------------------------------------------------------------- the order of a package

  /** Every listed transaction comes after all its tracked parents. */
  ghost predicate ParentsBefore(links: set<Link>, list: seq<TxId>)
  {
    forall k, l :: 0 <= k < |list| && l in links && l.child == list[k] ==> l.parent in list[..k]
  }

  /** The transaction under its ancestors, in the order in which the tracker lists them. */
  ghost function Package(nodes: seq<TxId>, edges: seq<Edge>, indices: map<TxId, nat>, tx: TxId): seq<TxId>
    requires Mirrors(indices, nodes) && InRange(edges, |nodes|)
  {
    if tx in indices then Weights(nodes, Gathering(edges, |nodes|, indices[tx])) else []
  }

  lemma WeightsBefore(nodes: seq<TxId>, indices: map<TxId, nat>, at: seq<nat>, k: nat, t: TxId)
    requires Mirrors(indices, nodes) && k <= |at| && forall i :: 0 <= i < |at| ==> at[i] < |nodes|
    requires t in indices
    ensures t in Weights(nodes, at)[..k] <==> indices[t] in at[..k]
  {
    var r := Weights(nodes, at);
    if t in r[..k] {
      var i :| 0 <= i < k && r[i] == t;
      assert at[..k][i] == indices[t];
    }
    if indices[t] in at[..k] {
      var i :| 0 <= i < k && at[i] == indices[t];
      assert r[..k][i] == t;
    }
  }

  lemma WeightsParentFirst(nodes: seq<TxId>, edges: seq<Edge>, indices: map<TxId, nat>, at: seq<nat>)
    requires Mirrors(indices, nodes) && InRange(edges, |nodes|) && forall i :: 0 <= i < |at| ==> at[i] < |nodes|
    ensures ParentsBefore(LinksOf(nodes, edges), Weights(nodes, at)) <==> ParentFirst(edges, at)
  {
    var list, links := Weights(nodes, at), LinksOf(nodes, edges);
    if ParentFirst(edges, at) {
      forall k, l | 0 <= k < |list| && l in links && l.child == list[k] ensures l.parent in list[..k] {
        LinkEnds(nodes, edges, indices, l);
        WeightsBefore(nodes, indices, at, k, l.parent);
      }
    }
    if ParentsBefore(links, list) {
      forall k, e | 0 <= k < |at| && e in edges && e.target == at[k] ensures e.source in at[..k] {
        var l := Link(nodes[e.source], nodes[e.target]);
        assert l in links && l.child == list[k];
        WeightsBefore(nodes, indices, at, k, l.parent);
      }
    }
  }

  /** A package lists parents before children exactly when the order is kept above its node. */
  lemma PackageOrderIff(nodes: seq<TxId>, edges: seq<Edge>, indices: map<TxId, nat>, tx: TxId)
    requires Mirrors(indices, nodes) && InRange(edges, |nodes|) && Acyclic(edges, |nodes|) && tx in indices
    ensures ParentsBefore(LinksOf(nodes, edges), Package(nodes, edges, indices, tx))
            <==> OrderKept(edges, indices[tx])
  {
    hide LinksOf, ParentFirst, OrderKept, Acyclic, Gathering;
    ParentFirstIff(edges, |nodes|, indices[tx]);
    WeightsParentFirst(nodes, edges, indices, Gathering(edges, |nodes|, indices[tx]));
  }

  lemma PackageHolds(nodes: seq<TxId>, edges: seq<Edge>, indices: map<TxId, nat>, tx: TxId)
    requires Mirrors(indices, nodes) && InRange(edges, |nodes|) && tx in indices
    ensures Distinct(Package(nodes, edges, indices, tx)) && tx in Package(nodes, edges, indices, tx)
  {
    hide Gathering;
    WeightsKeep(nodes, Gathering(edges, |nodes|, indices[tx]), indices);
  }

  // ---------------------------------------------------------------- addition

  /** One edge to node n from the node of each parent that is indexed, in the order of the parents. */
  function ParentEdges(indices: map<TxId, nat>, parents: seq<TxId>, n: nat): seq<Edge>
  {
    if parents == [] then []
    else
      var before, p := ParentEdges(indices, parents[..|parents| - 1], n), parents[|parents| - 1];
      if p in indices then before + [Edge(indices[p], n)] else before
  }

  lemma {:induction false} ParentEdgesAre(indices: map<TxId, nat>, parents: seq<TxId>, n: nat)
    ensures forall e :: e in ParentEdges(indices, parents, n) <==>
              e.target == n && exists p :: p in parents && p in indices && e.source == indices[p]
  {
    if parents != [] {
      ParentEdgesAre(indices, parents[..|parents| - 1], n);
      assert parents == parents[..|parents| - 1] + [parents[|parents| - 1]];
    }
  }

  lemma {:induction false} SameParentEdges(indices: map<TxId, nat>, child: TxId, parents: seq<TxId>, n: nat)
    requires child !in parents
    ensures ParentEdges(indices[child := n], parents, n) == ParentEdges(indices, parents, n)
  {
    if parents != [] {
      assert parents[|parents| - 1] in parents;
      SameParentEdges(indices, child, parents[..|parents| - 1], n);
    }
  }

  lemma AdditionLinks(nodes: seq<TxId>, edges: seq<Edge>, added: seq<Edge>, child: TxId, parents: seq<TxId>)
    requires InRange(edges, |nodes|)
    requires forall e :: e in added <==> e.target == |nodes| && e.source < |nodes| && nodes[e.source] in parents
    ensures InRange(edges + added, |nodes + [child]|)
    ensures TxGraph(Elements(nodes + [child]), LinksOf(nodes + [child], edges + added))
            == WithTx(TxGraph(Elements(nodes), LinksOf(nodes, edges)), child, parents)
  {
    var longer := nodes + [child];
    forall p | p in parents && p in nodes ensures Link(p, child) in LinksOf(longer, edges + added) {
      var i :| 0 <= i < |nodes| && nodes[i] == p;
      assert Edge(i, |nodes|) in added;
    }
    forall e | e in edges ensures Link(nodes[e.source], nodes[e.target]) in LinksOf(longer, edges + added) {
      assert e in edges + added;
    }
    assert forall e :: e in edges + added ==> e in edges || e in added;
  }

  lemma {:induction false} ValidAddition(nodes: seq<TxId>, edges: seq<Edge>, indices: map<TxId, nat>,
                                         child: TxId, parents: seq<TxId>)
    requires Distinct(nodes) && InRange(edges, |nodes|) && Acyclic(edges, |nodes|) && Mirrors(indices, nodes)
    requires child !in nodes && child !in parents
    ensures var n, indices' := |nodes|, indices[child := |nodes|];
            var nodes', edges' := nodes + [child], edges + ParentEdges(indices', parents, n);
            && Distinct(nodes') && InRange(edges', n + 1) && Acyclic(edges', n + 1) && Mirrors(indices', nodes')
            && TxGraph(Elements(nodes'), LinksOf(nodes', edges'))
               == WithTx(TxGraph(Elements(nodes), LinksOf(nodes, edges)), child, parents)
  {
    var added := ParentEdges(indices[child := |nodes|], parents, |nodes|);
    SameParentEdges(indices, child, parents, |nodes|);
    ParentEdgesAre(indices, parents, |nodes|);
    hide ParentEdges;
    forall e: Edge ensures e in added <==> e.target == |nodes| && e.source < |nodes| && nodes[e.source] in parents {}
    DistinctAppend(nodes, child);
    AdditionAcyclic(edges, added, |nodes|);
    AdditionLinks(nodes, edges, added, child, parents);
  }

  lemma UntrackedRemoval(nodes: seq<TxId>, edges: seq<Edge>, tx: TxId)
    requires InRange(edges, |nodes|) && tx !in nodes
    ensures var g := TxGraph(Elements(nodes), LinksOf(nodes, edges)); WithoutTx(g, tx) == g
  {}

  // ---------------------------------------------------------------- the tracker

  class DependencyTracker {
    var nodes: seq<TxId>
    var edges: seq<Edge>
    var indices: map<TxId, nat>

    ghost predicate Valid()
      reads this
    {
      && Distinct(nodes)
      && InRange(edges, |nodes|) && Acyclic(edges, |nodes|)
      && Mirrors(indices, nodes)
    }

    ghost function Graph(): TxGraph
      requires Valid()
      reads this
    {
      TxGraph(Elements(nodes), LinksOf(nodes, edges))
    }

    constructor ()
      ensures Valid() && Graph() == TxGraph({}, {})
      ensures nodes == [] && edges == [] && indices == map[]
    {
      nodes, edges, indices := [], [], map[];
      new;
      assert Ranked([], []);
    }

    /** Appends a node and an edge from each indexed parent. For a transaction that is new and
        not its own parent this tracks it; another copy of a tracked hash takes over its index. */
    method AddTransaction(child: TxId, parents: seq<TxId>)
      modifies this
      ensures nodes == old(nodes) + [child] && indices == old(indices)[child := |old(nodes)|]
      ensures edges == old(edges) + ParentEdges(indices, parents, |old(nodes)|)
      ensures old(Valid()) && child !in old(nodes) && child !in parents ==>
                Valid() && Graph() == WithTx(old(Graph()), child, parents)
    {
      ghost var was := nodes;
      var n := |nodes|;
      nodes := nodes + [child];
      indices := indices[child := n];
      for k := 0 to |parents|
        invariant nodes == was + [child] && indices == old(indices)[child := n]
        invariant edges == old(edges) + ParentEdges(indices, parents[..k], n)
      {
        assert parents[..k + 1][..k] == parents[..k];
        if parents[k] in indices {
          edges := edges + [Edge(indices[parents[k]], n)];
        }
      }
      assert parents[..|parents|] == parents;
      if old(Valid()) && child !in was && child !in parents {
        ValidAddition(was, old(edges), old(indices), child, parents);
      }
    }

    method RemoveTransaction(tx: TxId)
      requires Valid()
      modifies this
      ensures Valid() && Graph() == WithoutTx(old(Graph()), tx)
    {
      if tx !in indices {
        UntrackedRemoval(nodes, edges, tx);
        return;
      }
      var i := indices[tx];
      RemovalLinks(nodes, edges, i);
      RemovalAcyclic(edges, |nodes|, i);
      edges := EdgesWithout(edges, i, |nodes| - 1);
      nodes := SwapRemoved(nodes, i);
      RebuildIndices();
    }

    method RebuildIndices()
      requires Distinct(nodes)
      modifies this`indices
      ensures Mirrors(indices, nodes)
    {
      indices := map[];
      for i := 0 to |nodes|
        invariant forall t :: t in indices ==> indices[t] < i && nodes[indices[t]] == t
        invariant forall k :: 0 <= k < i ==> nodes[k] in indices && indices[nodes[k]] == k
      {
        indices := indices[nodes[i] := i];
      }
    }

    method GetDescendants(tx: TxId) returns (result: seq<TxId>)
      requires Valid()
      ensures Distinct(result) && forall d :: d in result <==> IsAncestor(Graph().links, tx, d)
    {
      if tx !in indices {
        forall d ensures !IsAncestor(Graph().links, tx, d) {
          if IsAncestor(Graph().links, tx, d) { AncestorsTracked(nodes, edges, indices, tx, d); }
        }
        return [];
      }
      var found := BreadthFirst(edges, |nodes|, indices[tx]);
      ReachedFrom(nodes, edges, indices, indices[tx], found);
      WeightsKeep(nodes, found, indices);
      result := Weights(nodes, found);
    }

    /** The transaction, last, with all its tracked ancestors; parents come before children
        exactly when the order is kept above its node. */
    method GetWithAncestors(tx: TxId) returns (result: seq<TxId>)
      requires Valid()
      ensures result == Package(nodes, edges, indices, tx) && Distinct(result)
      ensures tx in indices ==> (ParentsBefore(Graph().links, result) <==> OrderKept(edges, indices[tx]))
      ensures forall a :: a in result <==> tx in Graph().txs && (a == tx || IsAncestor(Graph().links, a, tx))
      ensures tx in Graph().txs ==> result != [] && result[|result| - 1] == tx
    {
      hide LinksOf, IsAncestor, Acyclic, Reaches, OrderKept, ParentsBefore, Gathering;
      if tx !in indices { return []; }
      PackageOrderIff(nodes, edges, indices, tx);
      var gathered := GatherWithAncestors(edges, |nodes|, indices[tx]);
      ReachingTo(nodes, edges, indices, indices[tx], gathered);
      WeightsKeep(nodes, gathered, indices);
      result := Weights(nodes, gathered);
    }

    method TopologicalOrder() returns (result: seq<TxId>)
      requires Valid()
      ensures ParentsFirst(Graph(), result)
    {
      var sorted := TopologicalSort(edges, |nodes|);
      assert forall k :: 0 <= k < |sorted| ==> sorted[k] in sorted;
      WeightsKeep(nodes, sorted, indices);
      SortedParentsFirst(nodes, edges, indices, sorted);
      result := Weights(nodes, sorted);
    }
  }

  lemma DiamondEdges(p: TxId, q: TxId, c: TxId)
    requires p != q && q != c && p != c
    ensures var none: seq<Edge> := [];
            none + ParentEdges(map[p := 0], [], 0) + ParentEdges(map[p := 0, q := 1], [p], 1)
            + ParentEdges(map[p := 0, q := 1, c := 2], [p, q], 2) == DIAMOND
  {
    var indices := map[p := 0, q := 1, c := 2];
    assert [p][..0] == [] && [p, q][..1] == [p];
    assert ParentEdges(map[p := 0, q := 1], [p], 1) == [Edge(0, 1)];
    assert ParentEdges(indices, [p], 2) == [Edge(0, 2)];
    assert ParentEdges(indices, [p, q], 2) == [Edge(0, 2), Edge(1, 2)];
  }

  ghost function DiamondGraph(p: TxId, q: TxId, c: TxId): TxGraph
  {
    TxGraph({p, q, c}, {Link(p, q), Link(p, c), Link(q, c)})
  }

  lemma DiamondLinks(p: TxId, q: TxId, c: TxId)
    ensures WithTx(WithTx(WithTx(TxGraph({}, {}), p, []), q, [p]), c, [p, q]) == DiamondGraph(p, q, c)
  {
    assert WithTx(TxGraph({}, {}), p, []) == TxGraph({p}, {});
    assert WithTx(TxGraph({p}, {}), q, [p]) == TxGraph({p, q}, {Link(p, q)});
  }

  lemma DiamondPackage(p: TxId, q: TxId, c: TxId, t: DependencyTracker)
    requires t.Valid() && t.nodes == [p, q, c] && t.edges == DIAMOND && t.indices == map[p := 0, q := 1, c := 2]
    ensures Package(t.nodes, t.edges, t.indices, c) == [q, p, c]
    ensures !ParentsBefore(DiamondGraph(p, q, c).links, [q, p, c])
  {
    hide Gathering;
    GatherNotParentFirst();
    assert [q, p, c][..0] == [] && Link(p, q).child == [q, p, c][0];
  }

  /** A parent, its child and a transaction that spends from both, naming the parent's output
      first: the child is listed before the parent. */
  method TrackDiamond(p: TxId, q: TxId, c: TxId) returns (tracker: DependencyTracker, list: seq<TxId>)
    requires p != q && q != c && p != c
    ensures fresh(tracker) && tracker.Valid() && tracker.Graph() == DiamondGraph(p, q, c)
    ensures list == Package(tracker.nodes, tracker.edges, tracker.indices, c) == [q, p, c]
    ensures !ParentsBefore(tracker.Graph().links, list)
  {
    hide DependencyTracker.Valid, DependencyTracker.Graph, WithTx, ParentEdges, Package, DIAMOND, DiamondGraph,
      ParentsBefore, OrderKept, IsAncestor, Distinct;
    tracker := new DependencyTracker();
    tracker.AddTransaction(p, []);
    assert tracker.nodes == [p] && tracker.indices == map[p := 0];
    tracker.AddTransaction(q, [p]);
    assert tracker.nodes == [p, q] && tracker.indices == map[p := 0, q := 1];
    tracker.AddTransaction(c, [p, q]);
    assert tracker.nodes == [p, q, c] && tracker.indices == map[p := 0, q := 1, c := 2];
    DiamondEdges(p, q, c);
    DiamondLinks(p, q, c);
    list := tracker.GetWithAncestors(c);
    DiamondPackage(p, q, c, tracker);
  }
}
