/** Filling a block from ranked transactions, each with the ancestors not selected yet. */
module Selection {
  import opened Primitives
  import opened Collections
  import opened ChainTypes
  import opened Digraph
  import opened ParentOrder
  import opened OutsideWalk
  import opened Tracker

  function Unselected(hashes: seq<TxId>, selected: set<TxId>): seq<TxId>
  {
    if hashes == [] then []
    else
      var before, t := Unselected(hashes[..|hashes| - 1], selected), hashes[|hashes| - 1];
      if t in selected then before else before + [t]
  }

  lemma {:induction false} UnselectedAre(hashes: seq<TxId>, selected: set<TxId>)
    ensures forall t :: t in Unselected(hashes, selected) <==> t in hashes && t !in selected
    ensures Distinct(hashes) ==> Distinct(Unselected(hashes, selected))
  {
    if hashes != [] {
      var before, t := hashes[..|hashes| - 1], hashes[|hashes| - 1];
      assert hashes == before + [t];
      UnselectedAre(before, selected);
      DistinctAppend(before, t);
      DistinctAppend(Unselected(before, selected), t);
    }
  }

  lemma {:induction false} NothingSelected(hashes: seq<TxId>)
    ensures Unselected(hashes, {}) == hashes
  {
    if hashes != [] {
      NothingSelected(hashes[..|hashes| - 1]);
      assert hashes == hashes[..|hashes| - 1] + [hashes[|hashes| - 1]];
    }
  }

  /** What is selected after the next candidate: its package joins when it is new and fits. */
  ghost function Considered(chosen: seq<TxId>, t: TxId, package: seq<TxId>, limit: nat): (r: seq<TxId>)
  {
    if Takes(chosen, t, package, limit) then chosen + Unselected(package, Elements(chosen)) else chosen
  }

  ghost predicate Takes(chosen: seq<TxId>, t: TxId, package: seq<TxId>, limit: nat)
  {
    t !in chosen && |chosen| + |Unselected(package, Elements(chosen))| <= limit
  }

  /** The selection from the candidates in their order. */
  ghost function Chosen(packages: TxId -> seq<TxId>, ranked: seq<TxId>, limit: nat): seq<TxId>
  {
    if ranked == [] then []
    else
      var last := ranked[|ranked| - 1];
      Considered(Chosen(packages, ranked[..|ranked| - 1], limit), last, packages(last), limit)
  }

  lemma {:induction false} NothingChosen(packages: TxId -> seq<TxId>, links: set<Link>, limit: nat)
    ensures Chosen(packages, [], limit) == [] && ParentsBefore(links, [])
  {}

  lemma {:induction false} ChosenStep(packages: TxId -> seq<TxId>, ranked: seq<TxId>, i: nat, limit: nat)
    requires i < |ranked|
    ensures Chosen(packages, ranked[..i + 1], limit)
            == Considered(Chosen(packages, ranked[..i], limit), ranked[i], packages(ranked[i]), limit)
  {
    assert ranked[..i + 1][..i] == ranked[..i];
  }

  /** Nothing joins a full selection. */
  lemma {:induction false} FullStays(packages: TxId -> seq<TxId>, ranked: seq<TxId>, j: nat, limit: nat)
    requires j <= |ranked| && |Chosen(packages, ranked[..j], limit)| == limit
    requires forall k :: 0 <= k < |ranked| ==> ranked[k] in packages(ranked[k])
    ensures Chosen(packages, ranked, limit) == Chosen(packages, ranked[..j], limit)
  {
    if j == |ranked| {
      assert ranked[..j] == ranked;
    } else {
      var before, last := ranked[..|ranked| - 1], ranked[|ranked| - 1];
      assert before[..j] == ranked[..j];
      FullStays(packages, before, j, limit);
      UnselectedAre(packages(last), Elements(Chosen(packages, before, limit)));
      assert last in packages(last);
    }
  }

  lemma {:induction false} ChosenGrows(packages: TxId -> seq<TxId>, ranked: seq<TxId>, i: nat, limit: nat)
    requires i <= |ranked|
    ensures Chosen(packages, ranked[..i], limit) <= Chosen(packages, ranked, limit)
  {
    if i == |ranked| {
      assert ranked[..i] == ranked;
    } else {
      var before := ranked[..|ranked| - 1];
      assert before[..i] == ranked[..i];
      ChosenGrows(packages, before, i, limit);
    }
  }

  /** A candidate is left out only if what its package would add does not fit any more. */
  lemma {:induction false} LeftOutOnlyIfTooLarge(packages: TxId -> seq<TxId>, ranked: seq<TxId>, i: nat, limit: nat)
    requires i < |ranked| && ranked[i] in packages(ranked[i]) && Distinct(packages(ranked[i]))
    ensures var so := Chosen(packages, ranked[..i], limit);
            ranked[i] in Chosen(packages, ranked, limit)
            || |so| + |Elements(packages(ranked[i])) - Elements(so)| > limit
  {
    var so, package := Chosen(packages, ranked[..i], limit), packages(ranked[i]);
    hide Chosen, Unselected;
    ChosenStep(packages, ranked, i, limit);
    ChosenGrows(packages, ranked, i + 1, limit);
    PrefixOfDistinct(Chosen(packages, ranked, limit), Chosen(packages, ranked[..i + 1], limit));
    UnselectedAre(package, Elements(so));
    DistinctSize(Unselected(package, Elements(so)));
    assert Elements(Unselected(package, Elements(so))) == Elements(package) - Elements(so);
  }

  lemma {:induction false} UnselectedOrder(links: set<Link>, hashes: seq<TxId>, selected: set<TxId>)
    requires ParentsBefore(links, hashes)
    ensures forall k, l :: 0 <= k < |Unselected(hashes, selected)| && l in links
                           && l.child == Unselected(hashes, selected)[k] ==>
              l.parent in selected || l.parent in Unselected(hashes, selected)[..k]
  {
    if hashes != [] {
      var n := |hashes| - 1;
      var before, t := hashes[..n], hashes[n];
      assert ParentsBefore(links, before) by {
        forall k, l | 0 <= k < n && l in links && l.child == before[k] ensures l.parent in before[..k] {
          assert before[..k] == hashes[..k];
        }
      }
      UnselectedOrder(links, before, selected);
      UnselectedAre(before, selected);
      var left, more := Unselected(before, selected), Unselected(hashes, selected);
      forall k, l | 0 <= k < |more| && l in links && l.child == more[k]
        ensures l.parent in selected || l.parent in more[..k]
      {
        if k < |left| { assert more[..k] == left[..k]; } else { assert more[..k] == left && l.parent in before; }
      }
    }
  }

  /** Packages that list parents first add up to a selection that does. */
  lemma ConsideredOrder(links: set<Link>, chosen: seq<TxId>, t: TxId, package: seq<TxId>, limit: nat)
    requires ParentsBefore(links, chosen) && ParentsBefore(links, package)
    ensures ParentsBefore(links, Considered(chosen, t, package, limit))
  {
    UnselectedOrder(links, package, Elements(chosen));
    var added := Unselected(package, Elements(chosen));
    var r := chosen + added;
    forall k, l | 0 <= k < |r| && l in links && l.child == r[k] ensures l.parent in r[..k] {
      if k < |chosen| {
        assert r[..k] == chosen[..k];
      } else {
        assert r[..k] == chosen + added[..k - |chosen|];
      }
    }
  }

  lemma {:induction false} ChosenOrder(links: set<Link>, packages: TxId -> seq<TxId>, ranked: seq<TxId>, limit: nat)
    requires forall k :: 0 <= k < |ranked| ==> ParentsBefore(links, packages(ranked[k]))
    ensures ParentsBefore(links, Chosen(packages, ranked, limit))
  {
    if ranked != [] {
      var before, last := ranked[..|ranked| - 1], ranked[|ranked| - 1];
      ChosenOrder(links, packages, before, limit);
      ConsideredOrder(links, Chosen(packages, before, limit), last, packages(last), limit);
    }
  }

  // ---------------------------------------------------------------- over a tracker's state

  ghost function Packages(nodes: seq<TxId>, edges: seq<Edge>, indices: map<TxId, nat>): TxId -> seq<TxId>
    requires Mirrors(indices, nodes) && InRange(edges, |nodes|)
  {
    t => Package(nodes, edges, indices, t)
  }

  ghost predicate Ranking(nodes: seq<TxId>, ranked: seq<TxId>)
  {
    Distinct(ranked) && forall t :: t in ranked <==> t in nodes
  }

  /** Every selection is in a valid inclusion order. */
  ghost predicate AlwaysOrdered(nodes: seq<TxId>, edges: seq<Edge>, indices: map<TxId, nat>)
    requires Mirrors(indices, nodes) && InRange(edges, |nodes|)
  {
    forall ranked, limit :: Ranking(nodes, ranked) ==>
      ParentsBefore(LinksOf(nodes, edges), Chosen(Packages(nodes, edges, indices), ranked, limit))
  }

  ghost predicate AllClean(edges: seq<Edge>, n: nat) { forall x :: 0 <= x < n ==> CleanAt(edges, x) }

  lemma CleanAbove(nodes: seq<TxId>, edges: seq<Edge>, start: nat)
    requires InRange(edges, |nodes|) && start < |nodes| && AllClean(edges, |nodes|)
    ensures OrderKept(edges, start)
  {
    hide CleanAt;
    forall x: nat | InClosure(edges, x, start) ensures CleanAt(edges, x) {
      if x != start {
        var w :| Walk(edges, w) && w[0] == x && w[|w| - 1] == start;
        assert Edge(w[0], w[1]) in edges;
      }
    }
  }

  /** With all nodes clean, every selection lists parents before children. */
  lemma {:induction false} CleanSelection(nodes: seq<TxId>, edges: seq<Edge>, indices: map<TxId, nat>,
                                          ranked: seq<TxId>, limit: nat)
    requires Mirrors(indices, nodes) && InRange(edges, |nodes|) && Acyclic(edges, |nodes|)
    requires AllClean(edges, |nodes|) && forall k :: 0 <= k < |ranked| ==> ranked[k] in nodes
    ensures ParentsBefore(LinksOf(nodes, edges), Chosen(Packages(nodes, edges, indices), ranked, limit))
  {
    hide LinksOf, ParentsBefore, OrderKept, AllClean, Acyclic, Package;
    forall k | 0 <= k < |ranked|
      ensures ParentsBefore(LinksOf(nodes, edges), Packages(nodes, edges, indices)(ranked[k]))
    {
      assert ranked[k] in indices;
      CleanAbove(nodes, edges, indices[ranked[k]]);
      PackageOrderIff(nodes, edges, indices, ranked[k]);
    }
    ChosenOrder(LinksOf(nodes, edges), Packages(nodes, edges, indices), ranked, limit);
  }

  /** Ranking t first with a limit of its package selects that package and nothing else. */
  lemma {:induction false} FirstPackage(packages: TxId -> seq<TxId>, t: TxId, rest: seq<TxId>)
    requires forall k :: 0 <= k < |rest| ==> rest[k] in packages(rest[k])
    requires t in packages(t)
    ensures Chosen(packages, [t] + rest, |packages(t)|) == packages(t)
  {
    var ranked, limit := [t] + rest, |packages(t)|;
    var none: seq<TxId> := [];
    assert ranked[..1] == [t] && [t][..0] == none && Elements(none) == {};
    NothingSelected(packages(t));
    assert Chosen(packages, [t][..0], limit) == none;
    assert none + packages(t) == packages(t);
    assert Chosen(packages, ranked[..1], limit) == packages(t);
    forall k | 0 <= k < |ranked| ensures ranked[k] in packages(ranked[k]) {
      if k > 0 { assert ranked[k] == rest[k - 1]; }
    }
    FullStays(packages, ranked, 1, limit);
  }

  lemma MovedFirst(nodes: seq<TxId>, x: nat)
    requires Distinct(nodes) && x < |nodes|
    ensures Ranking(nodes, [nodes[x]] + (nodes[..x] + nodes[x + 1..]))
  {
    var ranked := [nodes[x]] + (nodes[..x] + nodes[x + 1..]);
    assert nodes == nodes[..x] + [nodes[x]] + nodes[x + 1..];
    forall i, j | 0 <= i < j < |ranked| ensures ranked[i] != ranked[j] {
      assert ranked[j] == if j <= x then nodes[j - 1] else nodes[j];
      assert i > 0 ==> ranked[i] == if i <= x then nodes[i - 1] else nodes[i];
    }
  }

  /** The selection lists parents before children under every ranking and limit exactly when
      every tracked node is clean. */
  lemma SelectionOrderIff(nodes: seq<TxId>, edges: seq<Edge>, indices: map<TxId, nat>)
    requires Distinct(nodes) && Mirrors(indices, nodes)
    requires InRange(edges, |nodes|) && Acyclic(edges, |nodes|)
    ensures AlwaysOrdered(nodes, edges, indices) <==> AllClean(edges, |nodes|)
  {
    hide LinksOf, ParentsBefore, OrderKept, Acyclic, Package, CleanAt, Chosen;
    if AllClean(edges, |nodes|) {
      forall ranked, limit | Ranking(nodes, ranked)
        ensures ParentsBefore(LinksOf(nodes, edges), Chosen(Packages(nodes, edges, indices), ranked, limit))
      {
        CleanSelection(nodes, edges, indices, ranked, limit);
      }
    } else {
      var x :| 0 <= x < |nodes| && !CleanAt(edges, x);
      UncleanSelection(nodes, edges, indices, x);
    }
  }

  /** Ranking a node that is not clean first gives a child before its parent. */
  lemma UncleanSelection(nodes: seq<TxId>, edges: seq<Edge>, indices: map<TxId, nat>, x: nat)
    requires Distinct(nodes) && Mirrors(indices, nodes) && InRange(edges, |nodes|) && Acyclic(edges, |nodes|)
    requires x < |nodes| && !CleanAt(edges, x)
    ensures !AlwaysOrdered(nodes, edges, indices)
  {
    hide LinksOf, ParentsBefore, Acyclic, Package, CleanAt, Chosen;
    var packages, rest := Packages(nodes, edges, indices), nodes[..x] + nodes[x + 1..];
    var ranked, limit := [nodes[x]] + rest, |packages(nodes[x])|;
    MovedFirst(nodes, x);
    forall k | 0 <= k < |ranked| ensures ranked[k] in packages(ranked[k]) {
      assert ranked[k] in ranked;
      PackageHolds(nodes, edges, indices, ranked[k]);
    }
    forall k | 0 <= k < |rest| ensures rest[k] in packages(rest[k]) { assert ranked[k + 1] == rest[k]; }
    assert ranked[0] == nodes[x];
    FirstPackage(packages, nodes[x], rest);
    PackageOrderIff(nodes, edges, indices, nodes[x]);
    assert InClosure(edges, x, x);
    assert !ParentsBefore(LinksOf(nodes, edges), Chosen(packages, ranked, limit));
  }

  // ---------------------------------------------------------------- one ranking and limit

  ghost predicate LinkClosed(links: set<Link>, chosen: seq<TxId>)
  {
    forall l :: l in links && l.child in chosen ==> l.parent in chosen
  }

  /** The nodes of the transactions selected so far. */
  ghost function NodesOf(nodes: seq<TxId>, chosen: seq<TxId>): (done: set<nat>)
    ensures forall i: nat :: i in done <==> i < |nodes| && nodes[i] in chosen
  {
    set i: nat | i < |nodes| && nodes[i] in chosen
  }

  /** Candidate i, when it is taken, has its order kept along the links that do not come from
      what is selected already. */
  ghost predicate TakenInOrder(nodes: seq<TxId>, edges: seq<Edge>, indices: map<TxId, nat>, ranked: seq<TxId>,
                               limit: nat, i: nat)
    requires Mirrors(indices, nodes) && InRange(edges, |nodes|) && i < |ranked| && ranked[i] in indices
  {
    var chosen := Chosen(Packages(nodes, edges, indices), ranked[..i], limit);
    Takes(chosen, ranked[i], Package(nodes, edges, indices, ranked[i]), limit) ==>
      OrderKept(Outside(edges, NodesOf(nodes, chosen)), indices[ranked[i]])
  }

  lemma {:induction false} UnselectedWeights(nodes: seq<TxId>, at: seq<nat>, chosen: seq<TxId>)
    requires Within(at, |nodes|)
    ensures Within(Without(at, NodesOf(nodes, chosen)), |nodes|)
    ensures Unselected(Weights(nodes, at), Elements(chosen)) == Weights(nodes, Without(at, NodesOf(nodes, chosen)))
  {
    WithoutWithin(at, NodesOf(nodes, chosen), |nodes|);
    if at != [] {
      var before, x := at[..|at| - 1], at[|at| - 1];
      assert Within(before, |nodes|);
      assert Weights(nodes, at)[..|at| - 1] == Weights(nodes, before);
      UnselectedWeights(nodes, before, chosen);
    }
  }

  lemma {:induction false} LinksOutside(nodes: seq<TxId>, edges: seq<Edge>, chosen: seq<TxId>)
    requires InRange(edges, |nodes|)
    ensures InRange(Outside(edges, NodesOf(nodes, chosen)), |nodes|)
    ensures LinksOf(nodes, Outside(edges, NodesOf(nodes, chosen)))
            == set l | l in LinksOf(nodes, edges) && l.parent !in chosen
  {}

  lemma ClosedNodes(nodes: seq<TxId>, edges: seq<Edge>, chosen: seq<TxId>)
    requires InRange(edges, |nodes|) && LinkClosed(LinksOf(nodes, edges), chosen)
    ensures ParentClosed(edges, NodesOf(nodes, chosen))
  {
    forall e | e in edges && e.target in NodesOf(nodes, chosen) ensures e.source in NodesOf(nodes, chosen) {
      assert Link(nodes[e.source], nodes[e.target]) in LinksOf(nodes, edges);
    }
  }

  /** What a package adds to a closed selection is the package along the remaining links. */
  lemma {:induction false} PackageOutside(nodes: seq<TxId>, edges: seq<Edge>, indices: map<TxId, nat>,
                                          chosen: seq<TxId>, t: TxId)
    requires Mirrors(indices, nodes) && InRange(edges, |nodes|) && Acyclic(edges, |nodes|)
    requires LinkClosed(LinksOf(nodes, edges), chosen) && t in indices && t !in chosen
    ensures InRange(Outside(edges, NodesOf(nodes, chosen)), |nodes|)
    ensures Unselected(Package(nodes, edges, indices, t), Elements(chosen))
            == Package(nodes, Outside(edges, NodesOf(nodes, chosen)), indices, t)
  {
    hide LinksOf, Acyclic, Gathering;
    ClosedNodes(nodes, edges, chosen);
    GatheringOutside(edges, |nodes|, indices[t], NodesOf(nodes, chosen));
    UnselectedWeights(nodes, Gathering(edges, |nodes|, indices[t]), chosen);
  }

  lemma {:induction false} AcyclicOutside(edges: seq<Edge>, n: nat, done: set<nat>)
    requires Acyclic(edges, n)
    ensures Acyclic(Outside(edges, done), n)
  {
    var rank :| |rank| == n && Ranked(edges, rank);
    RankedOutside(edges, rank, done);
  }

  lemma AppendOrder(links: set<Link>, chosen: seq<TxId>, added: seq<TxId>)
    ensures ParentsBefore(links, chosen + added) <==>
            && ParentsBefore(links, chosen)
            && ParentsBefore((set l | l in links && l.parent !in chosen), added)
  {
    var r, left := chosen + added, set l | l in links && l.parent !in chosen;
    assert forall k :: 0 <= k < |chosen| ==> r[..k] == chosen[..k] && r[k] == chosen[k];
    assert forall k :: 0 <= k < |added| ==> r[..|chosen| + k] == chosen + added[..k] && r[|chosen| + k] == added[k];
    if ParentsBefore(links, r) {
      forall k, l | 0 <= k < |added| && l in left && l.child == added[k] ensures l.parent in added[..k] {
        assert l.child == r[|chosen| + k];
      }
    }
    if ParentsBefore(links, chosen) && ParentsBefore(left, added) {
      forall k, l | 0 <= k < |r| && l in links && l.child == r[k] ensures l.parent in r[..k] {
        if k >= |chosen| {
          assert l.child == added[k - |chosen|];
          assert l.parent !in chosen ==> l in left;
        }
      }
    }
  }

  lemma {:induction false} PackageClosed(nodes: seq<TxId>, edges: seq<Edge>, indices: map<TxId, nat>, t: TxId)
    requires Mirrors(indices, nodes) && InRange(edges, |nodes|) && t in indices
    ensures LinkClosed(LinksOf(nodes, edges), Package(nodes, edges, indices, t))
  {
    hide LinksOf, Gathering;
    var at := Gathering(edges, |nodes|, indices[t]);
    GatheringClosed(edges, |nodes|, indices[t]);
    WeightsKeep(nodes, at, indices);
    forall l | l in LinksOf(nodes, edges) && l.child in Package(nodes, edges, indices, t)
      ensures l.parent in Package(nodes, edges, indices, t)
    {
      LinkEnds(nodes, edges, indices, l);
    }
  }

  lemma ConsideredClosed(links: set<Link>, chosen: seq<TxId>, t: TxId, package: seq<TxId>, limit: nat)
    requires LinkClosed(links, chosen) && LinkClosed(links, package)
    ensures LinkClosed(links, Considered(chosen, t, package, limit))
  {
    UnselectedAre(package, Elements(chosen));
  }

  lemma {:induction false} ChosenClosed(nodes: seq<TxId>, edges: seq<Edge>, indices: map<TxId, nat>,
                                        ranked: seq<TxId>, limit: nat)
    requires Mirrors(indices, nodes) && InRange(edges, |nodes|)
    requires forall k :: 0 <= k < |ranked| ==> ranked[k] in indices
    ensures LinkClosed(LinksOf(nodes, edges), Chosen(Packages(nodes, edges, indices), ranked, limit))
  {
    hide LinksOf, Package, Considered;
    if ranked != [] {
      var before, last := ranked[..|ranked| - 1], ranked[|ranked| - 1];
      ChosenClosed(nodes, edges, indices, before, limit);
      PackageClosed(nodes, edges, indices, last);
      ConsideredClosed(LinksOf(nodes, edges), Chosen(Packages(nodes, edges, indices), before, limit), last,
                       Package(nodes, edges, indices, last), limit);
    }
  }

  lemma {:induction false} TakingIff(nodes: seq<TxId>, edges: seq<Edge>, indices: map<TxId, nat>,
                                     chosen: seq<TxId>, t: TxId, limit: nat)
    requires Mirrors(indices, nodes) && InRange(edges, |nodes|) && Acyclic(edges, |nodes|) && t in indices
    requires LinkClosed(LinksOf(nodes, edges), chosen)
    ensures ParentsBefore(LinksOf(nodes, edges), Considered(chosen, t, Package(nodes, edges, indices, t), limit)) <==>
            && ParentsBefore(LinksOf(nodes, edges), chosen)
            && (Takes(chosen, t, Package(nodes, edges, indices, t), limit) ==>
                  OrderKept(Outside(edges, NodesOf(nodes, chosen)), indices[t]))
  {
    hide LinksOf, ParentsBefore, OrderKept, Acyclic, Package, LinkClosed;
    if Takes(chosen, t, Package(nodes, edges, indices, t), limit) {
      var done := NodesOf(nodes, chosen);
      PackageOutside(nodes, edges, indices, chosen, t);
      AppendOrder(LinksOf(nodes, edges), chosen, Unselected(Package(nodes, edges, indices, t), Elements(chosen)));
      LinksOutside(nodes, edges, chosen);
      AcyclicOutside(edges, |nodes|, done);
      PackageOrderIff(nodes, Outside(edges, done), indices, t);
    }
  }

  /** One selection lists parents before children exactly when every candidate it takes has its
      order kept along the links that do not come from what was selected before it. */
  lemma {:induction false} RankingOrderIff(nodes: seq<TxId>, edges: seq<Edge>, indices: map<TxId, nat>,
                                           ranked: seq<TxId>, limit: nat)
    requires Mirrors(indices, nodes) && InRange(edges, |nodes|) && Acyclic(edges, |nodes|)
    requires forall k :: 0 <= k < |ranked| ==> ranked[k] in indices
    ensures ParentsBefore(LinksOf(nodes, edges), Chosen(Packages(nodes, edges, indices), ranked, limit)) <==>
            forall i :: 0 <= i < |ranked| ==> TakenInOrder(nodes, edges, indices, ranked, limit, i)
  {
    hide LinksOf, ParentsBefore, OrderKept, Acyclic, Package, LinkClosed, Considered, Takes;
    if ranked == [] {
      NothingChosen(Packages(nodes, edges, indices), LinksOf(nodes, edges), limit);
    } else {
      var n := |ranked| - 1;
      var before, last := ranked[..n], ranked[n];
      var package := Package(nodes, edges, indices, last);
      var chosen := Chosen(Packages(nodes, edges, indices), before, limit);
      RankingOrderIff(nodes, edges, indices, before, limit);
      forall i: nat | i < n
        ensures TakenInOrder(nodes, edges, indices, before, limit, i)
                <==> TakenInOrder(nodes, edges, indices, ranked, limit, i)
      {
        assert before[..i] == ranked[..i];
      }
      assert TakenInOrder(nodes, edges, indices, ranked, limit, n) <==>
        (Takes(chosen, last, package, limit) ==> OrderKept(Outside(edges, NodesOf(nodes, chosen)), indices[last]));
      ChosenClosed(nodes, edges, indices, before, limit);
      TakingIff(nodes, edges, indices, chosen, last, limit);
    }
  }

  // ---------------------------------------------------------------- over the tracker object

  ghost function PackagesOf(t: DependencyTracker): TxId -> seq<TxId>
    requires t.Valid()
    reads t
  {
    Packages(t.nodes, t.edges, t.indices)
  }

  ghost predicate TrackedClean(t: DependencyTracker)
    reads t
  {
    AllClean(t.edges, |t.nodes|)
  }

  ghost predicate TrackedInOrder(t: DependencyTracker, ranked: seq<TxId>, limit: nat)
    requires t.Valid()
    reads t
  {
    forall i :: 0 <= i < |ranked| && ranked[i] in t.indices ==>
      TakenInOrder(t.nodes, t.edges, t.indices, ranked, limit, i)
  }

  lemma TrackedPackages(t: DependencyTracker, ranked: seq<TxId>)
    requires t.Valid() && forall x :: x in ranked ==> x in t.Graph().txs
    ensures forall k :: 0 <= k < |ranked| ==> ranked[k] in PackagesOf(t)(ranked[k])
  {
    hide Package, LinksOf, Acyclic;
    forall k | 0 <= k < |ranked| ensures ranked[k] in PackagesOf(t)(ranked[k]) {
      assert ranked[k] in ranked && ranked[k] in t.nodes;
      PackageHolds(t.nodes, t.edges, t.indices, ranked[k]);
    }
  }

  lemma {:induction false} TrackedSelection(t: DependencyTracker, ranked: seq<TxId>, limit: nat)
    requires t.Valid() && forall x :: x in ranked ==> x in t.Graph().txs
    ensures TrackedClean(t) ==> ParentsBefore(t.Graph().links, Chosen(PackagesOf(t), ranked, limit))
    ensures ParentsBefore(t.Graph().links, Chosen(PackagesOf(t), ranked, limit)) <==> TrackedInOrder(t, ranked, limit)
  {
    hide Package, LinksOf, Acyclic, ParentsBefore, AllClean, Chosen, TakenInOrder;
    assert forall k :: 0 <= k < |ranked| ==> ranked[k] in ranked;
    RankingOrderIff(t.nodes, t.edges, t.indices, ranked, limit);
    if TrackedClean(t) { CleanSelection(t.nodes, t.edges, t.indices, ranked, limit); }
  }
}
