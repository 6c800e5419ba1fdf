/** When gathering a node with its ancestors lists every parent before its child. */
module ParentOrder {
  import opened Primitives
  import opened Collections
  import opened Digraph

  // ---------------------------------------------------------------- the condition

  ghost predicate InClosure(edges: seq<Edge>, a: nat, x: nat) { a == x || Reaches(edges, a, x) }

  ghost predicate InUnion(edges: seq<Edge>, a: nat, ps: seq<nat>) { exists p :: p in ps && InClosure(edges, a, p) }

  /** The parents of a node in the order in which the walk takes them. */
  function Parents(edges: seq<Edge>, x: nat): seq<nat> { Reversed(Sources(edges, x)) }

  /** Taken after the nodes of base and the closures of ps[..j], the closure of ps[j] is
      either done already or shares nothing with them. */
  ghost predicate Apart(edges: seq<Edge>, base: set<nat>, ps: seq<nat>, j: nat)
    requires j < |ps|
  {
    || ps[j] in base || InUnion(edges, ps[j], ps[..j])
    || forall a: nat :: InClosure(edges, a, ps[j]) ==> a !in base && !InUnion(edges, a, ps[..j])
  }

  ghost predicate ListClean(edges: seq<Edge>, base: set<nat>, ps: seq<nat>)
  {
    forall j :: 0 <= j < |ps| ==> Apart(edges, base, ps, j)
  }

  /** No parent of x that is new brings in an ancestor that an earlier parent brought in. */
  ghost predicate CleanAt(edges: seq<Edge>, x: nat) { ListClean(edges, {}, Parents(edges, x)) }

  ghost predicate OrderKept(edges: seq<Edge>, start: nat)
  {
    forall x: nat :: InClosure(edges, x, start) ==> CleanAt(edges, x)
  }

  /** Every listed node comes after all its parents. */
  ghost predicate ParentFirst(edges: seq<Edge>, list: seq<nat>)
  {
    forall k, e :: 0 <= k < |list| && e in edges && e.target == list[k] ==> e.source in list[..k]
  }

  // ---------------------------------------------------------------- closures

  lemma ParentsAre(edges: seq<Edge>, x: nat)
    ensures forall p: nat :: p in Parents(edges, x) <==> Edge(p, x) in edges
  {
    ReversedKeeps(Sources(edges, x));
  }

  lemma LastEdge(edges: seq<Edge>, a: nat, x: nat) returns (s: nat)
    requires Reaches(edges, a, x)
    ensures Edge(s, x) in edges && InClosure(edges, a, s)
  {
    var w :| Walk(edges, w) && w[0] == a && w[|w| - 1] == x;
    s := w[|w| - 2];
    assert Edge(w[|w| - 2], w[|w| - 1]) in edges;
    if |w| > 2 {
      var v := w[..|w| - 1];
      assert forall i :: 0 <= i < |v| - 1 ==> Edge(v[i], v[i + 1]) == Edge(w[i], w[i + 1]);
      assert Walk(edges, v);
    }
  }

  /** The closure of x is x and the closures of its parents. */
  lemma ClosureUnfolds(edges: seq<Edge>, a: nat, x: nat)
    ensures InClosure(edges, a, x) <==> a == x || InUnion(edges, a, Parents(edges, x))
  {
    hide Reaches;
    ParentsAre(edges, x);
    if Reaches(edges, a, x) {
      var s := LastEdge(edges, a, x);
      assert s in Parents(edges, x);
    }
    if InUnion(edges, a, Parents(edges, x)) {
      var p: nat :| p in Parents(edges, x) && InClosure(edges, a, p);
      if a == p { ReachesByEdge(edges, a, x); } else { ReachesThenEdge(edges, a, p, x); }
    }
  }

  lemma SelfInClosure(edges: seq<Edge>, a: nat)
    ensures InClosure(edges, a, a)
  {}

  lemma UnionUnfolds(edges: seq<Edge>, a: nat, ps: seq<nat>)
    requires ps != []
    ensures InUnion(edges, a, ps) <==> InClosure(edges, a, ps[0]) || InUnion(edges, a, ps[1..])
  {
    assert forall p :: p in ps <==> p == ps[0] || p in ps[1..];
  }

  lemma {:induction false} RankGrows(edges: seq<Edge>, rank: seq<nat>, w: seq<nat>)
    requires Ranked(edges, rank) && Walk(edges, w)
    ensures w[0] < |rank| && w[|w| - 1] < |rank| && rank[w[0]] < rank[w[|w| - 1]]
    decreases |w|
  {
    var last := Edge(w[|w| - 2], w[|w| - 1]);
    assert last in edges;
    if |w| > 2 {
      var v := w[..|w| - 1];
      assert forall i :: 0 <= i < |v| - 1 ==> Edge(v[i], v[i + 1]) == Edge(w[i], w[i + 1]);
      RankGrows(edges, rank, v);
    }
  }

  lemma ReachesUp(edges: seq<Edge>, rank: seq<nat>, a: nat, b: nat)
    requires Ranked(edges, rank) && Reaches(edges, a, b)
    ensures a < |rank| && b < |rank| && rank[a] < rank[b] && a != b
  {
    var w :| Walk(edges, w) && w[0] == a && w[|w| - 1] == b;
    RankGrows(edges, rank, w);
  }

  /** No parent of x has x in its closure. */
  lemma NotOwnAncestor(edges: seq<Edge>, rank: seq<nat>, x: nat)
    requires Ranked(edges, rank)
    ensures !InUnion(edges, x, Parents(edges, x))
  {
    if InUnion(edges, x, Parents(edges, x)) {
      ParentsAre(edges, x);
      var p: nat :| p in Parents(edges, x) && InClosure(edges, x, p);
      LoopReaches(edges, x, p);
      ReachesUp(edges, rank, x, x);
    }
  }

  lemma LoopReaches(edges: seq<Edge>, x: nat, p: nat)
    requires Edge(p, x) in edges && InClosure(edges, x, p)
    ensures Reaches(edges, x, x)
  {
    hide Reaches;
    if x == p { ReachesByEdge(edges, x, x); } else { ReachesThenEdge(edges, x, p, x); }
  }

  // ---------------------------------------------------------------- the walk, one closure at a time

  function MaxRank(rank: seq<nat>, ps: seq<nat>): nat
    requires Within(ps, |rank|)
  {
    if ps == [] then 0
    else
      var rest := MaxRank(rank, ps[1..]);
      if rank[ps[0]] + 1 > rest then rank[ps[0]] + 1 else rest
  }

  lemma {:induction false} MaxRankAtMost(rank: seq<nat>, ps: seq<nat>, top: nat)
    requires forall i :: 0 <= i < |ps| ==> ps[i] < |rank| && rank[ps[i]] < top
    ensures MaxRank(rank, ps) <= top
  {
    if ps != [] { MaxRankAtMost(rank, ps[1..], top); }
  }

  lemma {:induction false} ParentsRank(edges: seq<Edge>, rank: seq<nat>, x: nat)
    requires Ranked(edges, rank) && x < |rank|
    ensures Within(Parents(edges, x), |rank|)
    ensures MaxRank(rank, Parents(edges, x)) <= rank[x]
  {
    ParentsAre(edges, x);
    forall i | 0 <= i < |Parents(edges, x)|
      ensures Parents(edges, x)[i] < |rank| && rank[Parents(edges, x)[i]] < rank[x]
    {
      assert Parents(edges, x)[i] in Parents(edges, x);
      assert Edge(Parents(edges, x)[i], x) in edges;
    }
    MaxRankAtMost(rank, Parents(edges, x), rank[x]);
  }

  /** Visits the listed nodes in order, each with everything above it not visited yet. */
  ghost function VisitAll(edges: seq<Edge>, rank: seq<nat>, visited: seq<nat>, ps: seq<nat>): seq<nat>
    requires Ranked(edges, rank) && Within(ps, |rank|)
    decreases MaxRank(rank, ps), |ps|
  {
    if ps == [] then visited
    else if ps[0] in visited then VisitAll(edges, rank, visited, ps[1..])
    else
      ParentsRank(edges, rank, ps[0]);
      VisitAll(edges, rank, VisitAll(edges, rank, visited + [ps[0]], Parents(edges, ps[0])), ps[1..])
  }

  lemma {:induction false} VisitAppend(edges: seq<Edge>, rank: seq<nat>, visited: seq<nat>, xs: seq<nat>, ys: seq<nat>)
    requires Ranked(edges, rank) && Within(xs, |rank|) && Within(ys, |rank|)
    ensures Within(xs + ys, |rank|)
    ensures VisitAll(edges, rank, visited, xs + ys) == VisitAll(edges, rank, VisitAll(edges, rank, visited, xs), ys)
    decreases |xs|
  {
    if xs == [] {
      assert xs + ys == ys;
    } else {
      assert (xs + ys)[1..] == xs[1..] + ys;
      if xs[0] in visited {
        VisitAppend(edges, rank, visited, xs[1..], ys);
      } else {
        ParentsRank(edges, rank, xs[0]);
        VisitAppend(edges, rank, VisitAll(edges, rank, visited + [xs[0]], Parents(edges, xs[0])), xs[1..], ys);
      }
    }
  }

  lemma {:induction false} VisitUnfolds(edges: seq<Edge>, rank: seq<nat>, visited: seq<nat>, x: nat, rest: seq<nat>)
    requires Ranked(edges, rank) && Within([x] + rest, |rank|)
    ensures Within(rest, |rank|) && Within(Parents(edges, x), |rank|)
    ensures VisitAll(edges, rank, visited, [x] + rest) ==
            if x in visited then VisitAll(edges, rank, visited, rest)
            else VisitAll(edges, rank, VisitAll(edges, rank, visited + [x], Parents(edges, x)), rest)
  {
    var ps := [x] + rest;
    assert ps[0] == x && ps[1..] == rest;
    assert forall i :: 0 <= i < |rest| ==> rest[i] == ps[i + 1];
    ParentsRank(edges, rank, x);
  }

  lemma {:induction false} VisitNext(edges: seq<Edge>, rank: seq<nat>, visited: seq<nat>, x: nat, rest: seq<nat>)
    requires Ranked(edges, rank) && Within([x] + rest, |rank|) && x !in visited
    ensures Within(Parents(edges, x) + rest, |rank|)
    ensures VisitAll(edges, rank, visited, [x] + rest)
            == VisitAll(edges, rank, visited + [x], Parents(edges, x) + rest)
  {
    VisitUnfolds(edges, rank, visited, x, rest);
    VisitAppend(edges, rank, visited + [x], Parents(edges, x), rest);
  }

  /** The stack walk visits in this order, taking the stack from its top. */
  lemma {:induction false} GatherIsVisit(edges: seq<Edge>, rank: seq<nat>, start: nat, visited: seq<nat>,
                                         stack: seq<nat>)
    requires Ranked(edges, rank) && Gathered(edges, |rank|, start, visited, stack)
    ensures Within(Reversed(stack), |rank|)
    ensures GatherOrder(edges, |rank|, start, visited, stack) == VisitAll(edges, rank, visited, Reversed(stack))
    decreases |rank| - |visited|, |stack|
  {
    StackWithin(edges, |rank|, start, visited, stack);
    if stack != [] {
      hide Gathered, GatherOrder, VisitAll, Within, Sources, Ranked;
      assert InRange(edges, |rank|) by { RankedInRange(edges, rank); }
      var node, rest := stack[|stack| - 1], stack[..|stack| - 1];
      assert stack == rest + [node] && Reversed(stack) == [node] + Reversed(rest);
      if node in visited {
        Skip(edges, |rank|, start, visited, rest, node);
        GatherIsVisit(edges, rank, start, visited, rest);
        VisitUnfolds(edges, rank, visited, node, Reversed(rest));
      } else {
        var sources := Sources(edges, node);
        Visit(edges, |rank|, start, visited, rest, node);
        GatheredBelow(edges, |rank|, start, visited + [node], rest + sources);
        GatherIsVisit(edges, rank, start, visited + [node], rest + sources);
        ReversedSplit(rest, sources);
        VisitNext(edges, rank, visited, node, Reversed(rest));
      }
    }
  }

  lemma RankedInRange(edges: seq<Edge>, rank: seq<nat>)
    requires Ranked(edges, rank)
    ensures InRange(edges, |rank|)
  {}

  lemma ReversedSplit(xs: seq<nat>, ys: seq<nat>)
    ensures Reversed(xs + ys) == Reversed(ys) + Reversed(xs)
  {}

  lemma StackWithin(edges: seq<Edge>, n: nat, start: nat, visited: seq<nat>, stack: seq<nat>)
    requires Gathered(edges, n, start, visited, stack)
    ensures Within(Reversed(stack), n)
    ensures stack == [] ==> Reversed(stack) == []
  {
    var ps := Reversed(stack);
    assert forall b :: b in stack ==> b < n;
    forall i | 0 <= i < |ps| ensures ps[i] < n {
      assert ps[i] == stack[|stack| - 1 - i];
      assert stack[|stack| - 1 - i] in stack;
    }
    assert Within(ps, n);
  }

  // ---------------------------------------------------------------- what a visit adds

  /** A visited node that is not on the path being walked has its parents visited and closed. */
  ghost predicate Settled(edges: seq<Edge>, visited: seq<nat>, open: set<nat>)
  {
    forall e :: e in edges && e.target in visited && e.target !in open ==> e.source in visited && e.source !in open
  }

  /** No node of the path being walked is above any of ps. */
  ghost predicate Clear(edges: seq<Edge>, open: set<nat>, ps: seq<nat>)
  {
    forall g :: g in open ==> !InUnion(edges, g, ps)
  }

  lemma ClosedAbove(edges: seq<Edge>, visited: seq<nat>, open: set<nat>, x: nat)
    requires Settled(edges, visited, open) && x in visited && x !in open
    ensures forall a: nat :: InClosure(edges, a, x) ==> a in visited && a !in open
  {
    var closed := Elements(visited) - open;
    forall a: nat | InClosure(edges, a, x) ensures a in closed {
      if a != x {
        var w :| Walk(edges, w) && w[0] == a && w[|w| - 1] == x;
        BackwardClosed(edges, closed, w);
      }
    }
  }

  lemma ClearParents(edges: seq<Edge>, rank: seq<nat>, open: set<nat>, ps: seq<nat>)
    requires Ranked(edges, rank) && Clear(edges, open, ps) && ps != []
    ensures ps[0] !in open && Clear(edges, open, ps[1..])
    ensures forall g :: g in open ==> !InClosure(edges, g, ps[0])
    ensures Clear(edges, open + {ps[0]}, Parents(edges, ps[0]))
  {
    hide Ranked;
    var x := ps[0];
    forall g | g in open ensures g != x && !InClosure(edges, g, x) && !InUnion(edges, g, ps[1..])
                              && !InUnion(edges, g, Parents(edges, x)) {
      UnionUnfolds(edges, g, ps);
      ClosureUnfolds(edges, g, x);
    }
    NotOwnAncestor(edges, rank, x);
  }

  /** The whole closure of each listed node, and nothing else, joins the visited nodes. */
  lemma {:induction false} VisitAdds(edges: seq<Edge>, rank: seq<nat>, visited: seq<nat>, open: set<nat>,
                                     ps: seq<nat>)
    requires Ranked(edges, rank) && Within(ps, |rank|)
    requires Settled(edges, visited, open) && Clear(edges, open, ps)
    ensures visited <= VisitAll(edges, rank, visited, ps)
    ensures forall a: nat :: a in VisitAll(edges, rank, visited, ps) <==> a in visited || InUnion(edges, a, ps)
    ensures Settled(edges, VisitAll(edges, rank, visited, ps), open)
    ensures Distinct(visited) ==> Distinct(VisitAll(edges, rank, visited, ps))
    decreases MaxRank(rank, ps), |ps|
  {
    if ps != [] {
      var x, rest := ps[0], ps[1..];
      assert ps == [x] + rest;
      ParentsRank(edges, rank, x);
      ClearParents(edges, rank, open, ps);
      VisitUnfolds(edges, rank, visited, x, rest);
      if x in visited {
        hide VisitAll, Within, Ranked, InClosure, Clear, Settled;
        VisitAdds(edges, rank, visited, open, rest);
        ClosedAbove(edges, visited, open, x);
        forall a: nat ensures InUnion(edges, a, ps) <==> InClosure(edges, a, x) || InUnion(edges, a, rest) {
          UnionUnfolds(edges, a, ps);
        }
      } else {
        PushSettled(edges, visited, open, x);
        VisitAdds(edges, rank, visited + [x], open + {x}, Parents(edges, x));
        var above := VisitAll(edges, rank, visited + [x], Parents(edges, x));
        CloseSettled(edges, rank, visited, open, x, above);
        VisitAdds(edges, rank, above, open, rest);
        hide VisitAll, Within, Ranked, InClosure, Clear, Settled, Distinct;
        forall a: nat ensures InUnion(edges, a, ps) <==> InClosure(edges, a, x) || InUnion(edges, a, rest) {
          UnionUnfolds(edges, a, ps);
        }
        DistinctAppend(visited, x);
      }
    }
  }

  lemma PushSettled(edges: seq<Edge>, visited: seq<nat>, open: set<nat>, x: nat)
    requires Settled(edges, visited, open) && x !in visited && x !in open
    ensures Settled(edges, visited + [x], open + {x})
  {}

  lemma CloseSettled(edges: seq<Edge>, rank: seq<nat>, visited: seq<nat>, open: set<nat>, x: nat, above: seq<nat>)
    requires Ranked(edges, rank) && x !in open && Settled(edges, above, open + {x})
    requires forall g :: g in open ==> !InClosure(edges, g, x)
    requires forall a: nat :: a in above <==> a in visited + [x] || InUnion(edges, a, Parents(edges, x))
    ensures Settled(edges, above, open)
    ensures forall a: nat :: a in above <==> a in visited || InClosure(edges, a, x)
  {
    hide Ranked, InClosure;
    forall a: nat ensures InClosure(edges, a, x) <==> a == x || InUnion(edges, a, Parents(edges, x)) {
      ClosureUnfolds(edges, a, x);
    }
    ParentsAre(edges, x);
    forall e | e in edges && e.target in above && e.target !in open ensures e.source in above && e.source !in open {
      if e.target == x {
        assert e == Edge(e.source, x) && e.source in Parents(edges, x);
        assert InClosure(edges, e.source, e.source) by { SelfInClosure(edges, e.source); }
      }
    }
  }

  // ---------------------------------------------------------------- when the order holds

  /** No node is visited before a node that it has an edge to: the order seen from the end of the list. */
  ghost predicate TargetsFirst(edges: seq<Edge>, visited: seq<nat>)
  {
    forall k, e :: 0 <= k < |visited| && e in edges && e.target == visited[k] ==> e.source !in visited[..k]
  }

  lemma TargetsFirstPrefix(edges: seq<Edge>, visited: seq<nat>, longer: seq<nat>)
    requires visited <= longer && TargetsFirst(edges, longer)
    ensures TargetsFirst(edges, visited)
  {
    forall k, e | 0 <= k < |visited| && e in edges && e.target == visited[k] ensures e.source !in visited[..k] {
      assert longer[k] == visited[k] && longer[..k] == visited[..k];
    }
  }

  lemma TargetsFirstPush(edges: seq<Edge>, visited: seq<nat>, x: nat)
    requires TargetsFirst(edges, visited) && forall a: nat :: InClosure(edges, a, x) ==> a !in visited
    ensures TargetsFirst(edges, visited + [x])
  {
    var longer := visited + [x];
    forall k, e | 0 <= k < |longer| && e in edges && e.target == longer[k] ensures e.source !in longer[..k] {
      if k < |visited| {
        assert longer[..k] == visited[..k];
      } else {
        assert longer[..k] == visited && e == Edge(e.source, x);
        ReachesByEdge(edges, e.source, x);
      }
    }
  }

  /** A walk from a visited node to one not visited yet crosses an edge whose source is listed first. */
  lemma {:induction false} Crossing(edges: seq<Edge>, visited: seq<nat>, longer: seq<nat>, w: seq<nat>)
    requires visited <= longer && Walk(edges, w) && w[0] in visited && w[|w| - 1] !in visited
    requires forall i :: 0 <= i < |w| ==> w[i] in longer
    ensures !TargetsFirst(edges, longer)
    decreases |w|
  {
    var s, t := w[|w| - 2], w[|w| - 1];
    assert Edge(s, t) in edges;
    if s in visited {
      var k :| 0 <= k < |longer| && longer[k] == t;
      var j :| 0 <= j < |visited| && visited[j] == s;
      assert longer[j] == s && k >= |visited|;
      assert s in longer[..k];
    } else {
      var v := w[..|w| - 1];
      assert forall i :: 0 <= i < |v| - 1 ==> Edge(v[i], v[i + 1]) == Edge(w[i], w[i + 1]);
      assert |w| > 2;
      Crossing(edges, visited, longer, v);
    }
  }

  lemma WalkInClosure(edges: seq<Edge>, w: seq<nat>, i: nat)
    requires Walk(edges, w) && i < |w|
    ensures InClosure(edges, w[i], w[|w| - 1])
  {
    if i < |w| - 1 {
      var v := w[i..];
      assert forall j :: 0 <= j < |v| - 1 ==> Edge(v[j], v[j + 1]) == Edge(w[i + j], w[i + j + 1]);
      assert Walk(edges, v);
    }
  }

  /** If the closure of an unvisited node meets the visited nodes, some parent gets listed too early. */
  lemma Clash(edges: seq<Edge>, visited: seq<nat>, longer: seq<nat>, x: nat, a: nat)
    requires visited <= longer && x !in visited && a in visited && InClosure(edges, a, x)
    requires forall b: nat :: InClosure(edges, b, x) ==> b in longer
    ensures !TargetsFirst(edges, longer)
  {
    var w :| Walk(edges, w) && w[0] == a && w[|w| - 1] == x;
    forall i | 0 <= i < |w| ensures w[i] in longer { WalkInClosure(edges, w, i); }
    Crossing(edges, visited, longer, w);
  }

  lemma CleanShift(edges: seq<Edge>, base: set<nat>, ps: seq<nat>)
    requires forall a :: a in base ==> !InUnion(edges, a, ps)
    ensures ListClean(edges, base, ps) <==> ListClean(edges, {}, ps)
  {
    hide InClosure;
    forall j | 0 <= j < |ps| ensures Apart(edges, base, ps, j) <==> Apart(edges, {}, ps, j) {
      SelfInClosure(edges, ps[j]);
      assert ps[j] in ps;
    }
  }

  lemma CleanUnfolds(edges: seq<Edge>, base: set<nat>, more: set<nat>, ps: seq<nat>)
    requires ps != [] && forall a: nat :: a in more <==> a in base || InClosure(edges, a, ps[0])
    ensures ListClean(edges, base, ps) <==> Apart(edges, base, ps, 0) && ListClean(edges, more, ps[1..])
  {
    hide InClosure, Apart;
    var rest := ps[1..];
    if ListClean(edges, base, ps) {
      forall j | 0 <= j < |rest| ensures Apart(edges, more, rest, j) { ApartShift(edges, base, more, ps, j + 1); }
    }
    if Apart(edges, base, ps, 0) && ListClean(edges, more, rest) {
      forall j | 0 <= j < |ps| ensures Apart(edges, base, ps, j) {
        if j > 0 { ApartShift(edges, base, more, ps, j); }
      }
    }
  }

  lemma ApartShift(edges: seq<Edge>, base: set<nat>, more: set<nat>, ps: seq<nat>, j: nat)
    requires 1 <= j < |ps| && forall a: nat :: a in more <==> a in base || InClosure(edges, a, ps[0])
    ensures Apart(edges, base, ps, j) <==> Apart(edges, more, ps[1..], j - 1)
  {
    hide InClosure, InUnion;
    assert ps[..j][0] == ps[0] && ps[..j][1..] == ps[1..][..j - 1];
    forall a: nat
      ensures InUnion(edges, a, ps[..j]) <==> InClosure(edges, a, ps[0]) || InUnion(edges, a, ps[1..][..j - 1]) {
      UnionUnfolds(edges, a, ps[..j]);
    }
  }

  /** All nodes that a visit adds are clean. */
  ghost predicate AddedClean(edges: seq<Edge>, visited: seq<nat>, longer: seq<nat>)
  {
    forall y :: y in longer && y !in visited ==> CleanAt(edges, y)
  }

  /** x is new and its closure shares nothing with what was visited before. */
  lemma ApartIff(edges: seq<Edge>, visited: seq<nat>, above: seq<nat>, whole: seq<nat>, ps: seq<nat>)
    requires ps != [] && visited + [ps[0]] <= above <= whole
    requires forall a: nat :: InClosure(edges, a, ps[0]) ==> a !in visited
    requires forall a: nat :: a in above <==> a in visited || InClosure(edges, a, ps[0])
    requires TargetsFirst(edges, above) <==> CleanAt(edges, ps[0]) && AddedClean(edges, visited + [ps[0]], above)
    requires TargetsFirst(edges, above) ==>
               (TargetsFirst(edges, whole) <==>
                ListClean(edges, Elements(above), ps[1..]) && AddedClean(edges, above, whole))
    ensures TargetsFirst(edges, whole) <==>
            ListClean(edges, Elements(visited), ps) && AddedClean(edges, visited, whole)
  {
    hide ListClean, CleanAt, InClosure;
    assert above[..|visited| + 1] == visited + [ps[0]] && whole[..|above|] == above;
    assert Apart(edges, Elements(visited), ps, 0) by { NothingBefore(edges, ps); }
    CleanUnfolds(edges, Elements(visited), Elements(above), ps);
    AddedCleanSplit(edges, visited, visited + [ps[0]], above);
    AddedCleanSplit(edges, visited, above, whole);
    assert AddedClean(edges, visited, visited + [ps[0]]) <==> CleanAt(edges, ps[0]) by {
      SelfInClosure(edges, ps[0]);
    }
    hide TargetsFirst, AddedClean, Apart;
    if TargetsFirst(edges, whole) { TargetsFirstPrefix(edges, above, whole); }
  }

  lemma NothingBefore(edges: seq<Edge>, ps: seq<nat>)
    ensures forall a: nat :: !InUnion(edges, a, ps[..0])
  {}

  lemma AddedCleanSplit(edges: seq<Edge>, visited: seq<nat>, above: seq<nat>, whole: seq<nat>)
    requires visited <= above <= whole
    ensures AddedClean(edges, visited, whole) <==>
            AddedClean(edges, visited, above) && AddedClean(edges, above, whole)
  {
    hide CleanAt;
    assert whole[..|above|] == above && above[..|visited|] == visited;
    assert forall y :: y in visited ==> y in above;
    assert forall y :: y in above ==> y in whole;
  }

  /** x is new and its closure meets what was visited before. */
  lemma MeetingIff(edges: seq<Edge>, visited: seq<nat>, whole: seq<nat>, ps: seq<nat>, a: nat)
    requires ps != [] && visited <= whole && ps[0] !in visited && a in visited && InClosure(edges, a, ps[0])
    requires forall b: nat :: InClosure(edges, b, ps[0]) ==> b in whole
    ensures !TargetsFirst(edges, whole) && !ListClean(edges, Elements(visited), ps)
  {
    hide InClosure;
    Clash(edges, visited, whole, ps[0], a);
    NothingBefore(edges, ps);
    assert !Apart(edges, Elements(visited), ps, 0);
  }

  lemma {:induction false} VisitIff(edges: seq<Edge>, rank: seq<nat>, visited: seq<nat>, open: set<nat>, ps: seq<nat>)
    requires Ranked(edges, rank) && Within(ps, |rank|)
    requires Settled(edges, visited, open) && Clear(edges, open, ps) && TargetsFirst(edges, visited)
    ensures TargetsFirst(edges, VisitAll(edges, rank, visited, ps)) <==>
            ListClean(edges, Elements(visited), ps)
            && AddedClean(edges, visited, VisitAll(edges, rank, visited, ps))
    decreases MaxRank(rank, ps), |ps|
  {
    if ps != [] {
      hide InClosure, Settled, ListClean, Ranked, VisitAll, TargetsFirst, AddedClean, CleanAt, Clear, Apart;
      var x, rest := ps[0], ps[1..];
      assert ps == [x] + rest;
      ParentsRank(edges, rank, x);
      ClearParents(edges, rank, open, ps);
      VisitUnfolds(edges, rank, visited, x, rest);
      if x in visited {
        ClosedAbove(edges, visited, open, x);
        VisitedFirst(edges, visited, ps);
        VisitIff(edges, rank, visited, open, rest);
      } else {
        PushSettled(edges, visited, open, x);
        VisitAdds(edges, rank, visited + [x], open + {x}, Parents(edges, x));
        var above := VisitAll(edges, rank, visited + [x], Parents(edges, x));
        CloseSettled(edges, rank, visited, open, x, above);
        VisitAdds(edges, rank, above, open, rest);
        var whole := VisitAll(edges, rank, above, rest);
        assert visited <= visited + [x];
        if a: nat :| InClosure(edges, a, x) && a in visited {
          MeetingIff(edges, visited, whole, ps, a);
        } else {
          TargetsFirstPush(edges, visited, x);
          VisitIff(edges, rank, visited + [x], open + {x}, Parents(edges, x));
          CleanPush(edges, rank, visited, x);
          if TargetsFirst(edges, above) { VisitIff(edges, rank, above, open, rest); }
          ApartIff(edges, visited, above, whole, ps);
        }
      }
    }
  }

  lemma VisitedFirst(edges: seq<Edge>, visited: seq<nat>, ps: seq<nat>)
    requires ps != [] && ps[0] in visited && forall a: nat :: InClosure(edges, a, ps[0]) ==> a in visited
    ensures ListClean(edges, Elements(visited), ps) <==> ListClean(edges, Elements(visited), ps[1..])
  {
    hide InClosure, ListClean;
    CleanUnfolds(edges, Elements(visited), Elements(visited), ps);
  }

  lemma CleanPush(edges: seq<Edge>, rank: seq<nat>, visited: seq<nat>, x: nat)
    requires Ranked(edges, rank) && forall a: nat :: InClosure(edges, a, x) ==> a !in visited
    ensures ListClean(edges, Elements(visited + [x]), Parents(edges, x)) <==> CleanAt(edges, x)
  {
    NotOwnAncestor(edges, rank, x);
    forall a | a in Elements(visited + [x]) ensures !InUnion(edges, a, Parents(edges, x)) {
      ClosureUnfolds(edges, a, x);
    }
    CleanShift(edges, Elements(visited + [x]), Parents(edges, x));
  }

  /** Gathering lists parents before children exactly when the order is kept above start. */
  lemma ParentFirstIff(edges: seq<Edge>, n: nat, start: nat)
    requires Acyclic(edges, n) && start < n
    ensures InRange(edges, n)
    ensures ParentFirst(edges, Gathering(edges, n, start)) <==> OrderKept(edges, start)
  {
    var rank :| |rank| == n && Ranked(edges, rank);
    StartGathered(edges, n, start);
    GatherIsVisit(edges, rank, start, [], [start]);
    FromStart(edges, rank, start);
    assert Reversed([start]) == [start];
    ParentFirstReversed(edges, rank, VisitAll(edges, rank, [], [start]));
  }

  lemma {:induction false} FromStart(edges: seq<Edge>, rank: seq<nat>, start: nat)
    requires Ranked(edges, rank) && start < |rank|
    ensures Within([start], |rank|)
    ensures Distinct(VisitAll(edges, rank, [], [start])) && Settled(edges, VisitAll(edges, rank, [], [start]), {})
    ensures TargetsFirst(edges, VisitAll(edges, rank, [], [start])) <==> OrderKept(edges, start)
  {
    var walk := VisitAll(edges, rank, [], [start]);
    VisitAdds(edges, rank, [], {}, [start]);
    VisitIff(edges, rank, [], {}, [start]);
    OneListClean(edges, start);
    hide VisitAll, InClosure, CleanAt, Settled, Distinct, Ranked, TargetsFirst;
    assert Elements<nat>([]) == {};
    forall a: nat ensures a in walk <==> InClosure(edges, a, start) { UnionOfOne(edges, a, start); }
  }

  lemma UnionOfOne(edges: seq<Edge>, a: nat, x: nat)
    ensures InUnion(edges, a, [x]) <==> InClosure(edges, a, x)
  {
    hide InClosure;
    assert x in [x];
  }

  lemma OneListClean(edges: seq<Edge>, x: nat)
    ensures ListClean(edges, {}, [x])
  {
    assert [x][..0] == [];
  }

  lemma ParentFirstReversed(edges: seq<Edge>, rank: seq<nat>, walk: seq<nat>)
    requires Distinct(walk) && Settled(edges, walk, {}) && Ranked(edges, rank)
    ensures ParentFirst(edges, Reversed(walk)) <==> TargetsFirst(edges, walk)
  {
    var list, n := Reversed(walk), |walk|;
    forall k, e | 0 <= k < n && e in edges && e.target == walk[k]
      ensures e.source in list[..n - 1 - k] <==> e.source !in walk[..k]
    {
      SideOfWalk(walk, k, e.source);
    }
    if TargetsFirst(edges, walk) {
      forall k, e | 0 <= k < n && e in edges && e.target == list[k] ensures e.source in list[..k] {
        assert e.target == walk[n - 1 - k];
      }
    }
    if ParentFirst(edges, list) {
      forall k, e | 0 <= k < n && e in edges && e.target == walk[k] ensures e.source !in walk[..k] {
        assert list[n - 1 - k] == e.target;
      }
    }
  }

  lemma SideOfWalk(walk: seq<nat>, k: nat, s: nat)
    requires Distinct(walk) && k < |walk| && s in walk && s != walk[k]
    ensures s in Reversed(walk)[..|walk| - 1 - k] <==> s !in walk[..k]
  {
    var j :| 0 <= j < |walk| && walk[j] == s;
    var list := Reversed(walk);
    assert list[|walk| - 1 - j] == s;
    if j < k {
      assert walk[..k][j] == s;
      forall i | 0 <= i < |walk| - 1 - k ensures list[i] != s { assert list[i] == walk[|walk| - 1 - i]; }
    } else {
      assert list[..|walk| - 1 - k][|walk| - 1 - j] == s;
    }
  }
}
