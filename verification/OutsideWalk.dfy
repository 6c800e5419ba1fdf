/** Gathering from a node and leaving out a set of nodes that is closed under parents is gathering
    along the edges that do not come out of that set. */
module OutsideWalk {
  import opened Collections
  import opened Digraph
  import opened ParentOrder

  function Without(list: seq<nat>, done: set<nat>): (r: seq<nat>)
    ensures forall x :: x in r <==> x in list && x !in done
  {
    if list == [] then []
    else
      var before, x := Without(list[..|list| - 1], done), list[|list| - 1];
      assert list == list[..|list| - 1] + [x];
      if x in done then before else before + [x]
  }

  function Outside(edges: seq<Edge>, done: set<nat>): (r: seq<Edge>)
    ensures forall e :: e in r <==> e in edges && e.source !in done
  {
    if edges == [] then []
    else
      var before, e := Outside(edges[..|edges| - 1], done), edges[|edges| - 1];
      assert edges == edges[..|edges| - 1] + [e];
      if e.source in done then before else before + [e]
  }

  ghost predicate ParentClosed(edges: seq<Edge>, done: set<nat>)
  {
    forall e :: e in edges && e.target in done ==> e.source in done
  }

  lemma {:induction false} WithoutAppend(xs: seq<nat>, ys: seq<nat>, done: set<nat>)
    ensures Without(xs + ys, done) == Without(xs, done) + Without(ys, done)
  {
    if ys == [] {
      assert xs + ys == xs;
    } else {
      assert (xs + ys)[..|xs + ys| - 1] == xs + ys[..|ys| - 1];
      WithoutAppend(xs, ys[..|ys| - 1], done);
    }
  }

  lemma {:induction false} WithoutOne(x: nat, done: set<nat>)
    ensures Without([x], done) == if x in done then [] else [x]
  {
    assert [x][..0] == [];
  }

  lemma {:induction false} WithoutReversed(list: seq<nat>, done: set<nat>)
    ensures Without(Reversed(list), done) == Reversed(Without(list, done))
  {
    if list != [] {
      var before, x := list[..|list| - 1], list[|list| - 1];
      assert list == before + [x];
      ReversedAppend(before, x);
      WithoutAppend([x], Reversed(before), done);
      WithoutOne(x, done);
      WithoutReversed(before, done);
      ReversedAppend(Without(before, done), x);
    } else {
      assert Reversed(list) == [];
    }
  }

  lemma {:induction false} SourcesOutside(edges: seq<Edge>, x: nat, done: set<nat>)
    ensures Sources(Outside(edges, done), x) == Without(Sources(edges, x), done)
  {
    if edges != [] {
      var before, e := edges[..|edges| - 1], edges[|edges| - 1];
      SourcesOutside(before, x, done);
      var kept := Outside(before, done);
      assert (kept + [e])[..|kept|] == kept;
      WithoutAppend([e.source], Sources(before, x), done);
      WithoutOne(e.source, done);
    }
  }

  lemma {:induction false} ParentsOutside(edges: seq<Edge>, x: nat, done: set<nat>)
    ensures Parents(Outside(edges, done), x) == Without(Parents(edges, x), done)
  {
    SourcesOutside(edges, x, done);
    WithoutReversed(Sources(edges, x), done);
  }

  lemma {:induction false} RankedOutside(edges: seq<Edge>, rank: seq<nat>, done: set<nat>)
    requires Ranked(edges, rank)
    ensures Ranked(Outside(edges, done), rank)
  {}

  lemma {:induction false} WithoutWithin(list: seq<nat>, done: set<nat>, n: nat)
    requires Within(list, n)
    ensures Within(Without(list, done), n)
  {
    var kept := Without(list, done);
    forall i | 0 <= i < |kept| ensures kept[i] < n { assert kept[i] in kept && kept[i] in list; }
  }

  lemma {:induction false} NothingLeft(list: seq<nat>, done: set<nat>)
    requires forall x :: x in list ==> x in done
    ensures Without(list, done) == []
  {
    if Without(list, done) != [] { assert Without(list, done)[0] in Without(list, done); }
  }

  /** The visit, seen outside the set, is the visit along the edges outside it. */
  lemma {:induction false} VisitOutside(edges: seq<Edge>, rank: seq<nat>, done: set<nat>, visited: seq<nat>,
                                        ps: seq<nat>)
    requires Ranked(edges, rank) && Within(ps, |rank|) && ParentClosed(edges, done)
    ensures Ranked(Outside(edges, done), rank) && Within(Without(ps, done), |rank|)
    ensures Without(VisitAll(edges, rank, visited, ps), done)
            == VisitAll(Outside(edges, done), rank, Without(visited, done), Without(ps, done))
    decreases MaxRank(rank, ps), |ps|
  {
    hide Ranked, Without, Outside, VisitAll, MaxRank, Parents, ParentClosed, Within;
    RankedOutside(edges, rank, done);
    WithoutWithin(ps, done, |rank|);
    if ps == [] {
      NothingVisited(edges, rank, done, visited);
    } else {
      var x, rest := ps[0], ps[1..];
      assert ps == [x] + rest;
      WithoutAppend([x], rest, done);
      WithoutOne(x, done);
      HeadRank(edges, rank, x, rest);
      VisitUnfolds(edges, rank, visited, x, rest);
      if x in visited {
        VisitOutside(edges, rank, done, visited, rest);
      } else {
        VisitOutside(edges, rank, done, visited + [x], Parents(edges, x));
        VisitOutside(edges, rank, done, VisitAll(edges, rank, visited + [x], Parents(edges, x)), rest);
        WithoutAppend(visited, [x], done);
        ParentsOutside(edges, x, done);
        if x in done { ClosedParents(edges, rank, done, x, visited); }
      }
      assert [] + Without(rest, done) == Without(rest, done);
      assert Without(visited, done) + [] == Without(visited, done);
      if x !in done {
        assert x in Without(visited, done) <==> x in visited by { WithoutHas(visited, done, x); }
        VisitUnfolds(Outside(edges, done), rank, Without(visited, done), x, Without(rest, done));
      }
    }
  }

  lemma {:induction false} WithoutHas(list: seq<nat>, done: set<nat>, x: nat)
    requires x !in done
    ensures x in Without(list, done) <==> x in list
  {}

  lemma {:induction false} NothingVisited(edges: seq<Edge>, rank: seq<nat>, done: set<nat>, visited: seq<nat>)
    requires Ranked(edges, rank) && Ranked(Outside(edges, done), rank)
    ensures Within([], |rank|) && Without([], done) == []
    ensures VisitAll(edges, rank, visited, []) == visited
    ensures VisitAll(Outside(edges, done), rank, Without(visited, done), []) == Without(visited, done)
  {}

  lemma {:induction false} HeadRank(edges: seq<Edge>, rank: seq<nat>, x: nat, rest: seq<nat>)
    requires Ranked(edges, rank) && Within([x] + rest, |rank|)
    ensures x < |rank| && Within(rest, |rank|) && Within(Parents(edges, x), |rank|)
    ensures MaxRank(rank, Parents(edges, x)) < MaxRank(rank, [x] + rest)
    ensures MaxRank(rank, rest) <= MaxRank(rank, [x] + rest)
  {
    var ps := [x] + rest;
    assert ps[0] == x && ps[1..] == rest;
    assert forall i :: 0 <= i < |rest| ==> rest[i] == ps[i + 1];
    ParentsRank(edges, rank, x);
  }

  /** The parents of a node of the set are all left out. */
  lemma {:induction false} ClosedParents(edges: seq<Edge>, rank: seq<nat>, done: set<nat>, x: nat, visited: seq<nat>)
    requires Ranked(edges, rank) && ParentClosed(edges, done) && x in done
    ensures Without(Parents(edges, x), done) == []
    ensures Ranked(Outside(edges, done), rank) && Within([], |rank|)
    ensures VisitAll(Outside(edges, done), rank, Without(visited, done), []) == Without(visited, done)
  {
    RankedOutside(edges, rank, done);
    ParentsAre(edges, x);
    NothingLeft(Parents(edges, x), done);
  }

  /** Gathering outside a closed set. */
  lemma {:induction false} GatheringOutside(edges: seq<Edge>, n: nat, start: nat, done: set<nat>)
    requires Acyclic(edges, n) && start < n && ParentClosed(edges, done) && start !in done
    ensures InRange(edges, n) && InRange(Outside(edges, done), n)
    ensures Without(Gathering(edges, n, start), done) == Gathering(Outside(edges, done), n, start)
  {
    var rank :| |rank| == n && Ranked(edges, rank);
    RankedOutside(edges, rank, done);
    var none: seq<nat> := [];
    StartGathered(edges, n, start);
    StartGathered(Outside(edges, done), n, start);
    assert Reversed([start]) == [start];
    GatherIsVisit(edges, rank, start, none, [start]);
    GatherIsVisit(Outside(edges, done), rank, start, none, [start]);
    VisitOutside(edges, rank, done, none, [start]);
    WithoutOne(start, done);
    assert Without(none, done) == none;
    WithoutReversed(GatherOrder(edges, n, start, none, [start]), done);
  }
}
