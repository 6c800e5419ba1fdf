/** Directed multigraphs over node numbers, and the walks the dependency code makes on them. */
module Digraph {
  import opened Primitives
  import opened Collections

  datatype Edge = Edge(source: nat, target: nat)

  predicate InRange(edges: seq<Edge>, n: nat)
  {
    forall e :: e in edges ==> e.source < n && e.target < n
  }

  /** A walk of at least one edge. */
  ghost predicate Walk(edges: seq<Edge>, p: seq<nat>)
  {
    |p| >= 2 && forall i :: 0 <= i < |p| - 1 ==> Edge(p[i], p[i + 1]) in edges
  }

  ghost predicate Reaches(edges: seq<Edge>, a: nat, b: nat)
  {
    exists p :: Walk(edges, p) && p[0] == a && p[|p| - 1] == b
  }

  lemma ReachesByEdge(edges: seq<Edge>, a: nat, b: nat)
    requires Edge(a, b) in edges
    ensures Reaches(edges, a, b)
  {
    assert Walk(edges, [a, b]);
  }

  lemma ReachesThenEdge(edges: seq<Edge>, a: nat, b: nat, c: nat)
    requires Reaches(edges, a, b) && Edge(b, c) in edges
    ensures Reaches(edges, a, c)
  {
    var p :| Walk(edges, p) && p[0] == a && p[|p| - 1] == b;
    assert Walk(edges, p + [c]);
  }

  lemma EdgeThenReaches(edges: seq<Edge>, a: nat, b: nat, c: nat)
    requires Edge(a, b) in edges && Reaches(edges, b, c)
    ensures Reaches(edges, a, c)
  {
    var p :| Walk(edges, p) && p[0] == b && p[|p| - 1] == c;
    assert Walk(edges, [a] + p);
  }

  /** A set that holds the successors of a and of its own members holds all a reaches. */
  lemma {:induction false} ForwardClosed(edges: seq<Edge>, s: set<nat>, a: nat, p: seq<nat>)
    requires forall e :: e in edges && (e.source == a || e.source in s) ==> e.target in s
    requires Walk(edges, p) && p[0] == a
    ensures p[|p| - 1] in s
    decreases |p|
  {
    var q := p[..|p| - 1];
    var last := Edge(q[|q| - 1], p[|p| - 1]);
    assert last in edges;
    if |q| >= 2 { ForwardClosed(edges, s, a, q); }
  }

  lemma {:induction false} BackwardClosed(edges: seq<Edge>, s: set<nat>, p: seq<nat>)
    requires forall e :: e in edges && e.target in s ==> e.source in s
    requires Walk(edges, p) && p[|p| - 1] in s
    ensures p[0] in s
    decreases |p|
  {
    assert Edge(p[0], p[1]) in edges;
    if |p| > 2 {
      assert forall i :: 0 <= i < |p[1..]| - 1 ==> Edge(p[1..][i], p[1..][i + 1]) == Edge(p[i + 1], p[i + 2]);
      BackwardClosed(edges, s, p[1..]);
    }
  }

  // ---------------------------------------------------------------- adjacency

  /** Targets of the edges out of a node, the latest edge first. */
  method Successors(edges: seq<Edge>, node: nat) returns (targets: seq<nat>)
    ensures forall t :: t in targets <==> Edge(node, t) in edges
  {
    targets := [];
    for i := 0 to |edges|
      invariant forall t :: t in targets <==> Edge(node, t) in edges[..i]
    {
      assert edges[..i + 1] == edges[..i] + [edges[i]];
      if edges[i].source == node { targets := [edges[i].target] + targets; }
    }
    assert edges[..|edges|] == edges;
  }

  /** Sources of the edges into a node, the latest edge first. */
  function Sources(edges: seq<Edge>, node: nat): (sources: seq<nat>)
    ensures forall s :: s in sources <==> Edge(s, node) in edges
  {
    if edges == [] then []
    else
      var last, before := edges[|edges| - 1], Sources(edges[..|edges| - 1], node);
      assert edges == edges[..|edges| - 1] + [last];
      if last.target == node then [last.source] + before else before
  }

  method Predecessors(edges: seq<Edge>, node: nat) returns (sources: seq<nat>)
    ensures sources == Sources(edges, node)
  {
    sources := [];
    for i := 0 to |edges|
      invariant sources == Sources(edges[..i], node)
    {
      assert edges[..i + 1][..i] == edges[..i];
      if edges[i].target == node { sources := [edges[i].source] + sources; }
    }
    assert edges[..|edges|] == edges;
  }

  // ---------------------------------------------------------------- breadth first

  /** Inner loop of the search: mark and queue the targets not met before. */
  method Discover(targets: seq<nat>, found: seq<nat>, queue: seq<nat>)
    returns (found': seq<nat>, queue': seq<nat>, ghost added: seq<nat>)
    requires Distinct(found)
    ensures found' == found + added && queue' == queue + added && Distinct(found')
    ensures forall t :: t in added ==> t in targets
    ensures forall t :: t in targets ==> t in found'
  {
    found', queue', added := found, queue, [];
    for i := 0 to |targets|
      invariant found' == found + added && queue' == queue + added && Distinct(found')
      invariant forall t :: t in added ==> t in targets
      invariant forall k :: 0 <= k < i ==> targets[k] in found'
    {
      var next := targets[i];
      if next !in found' {
        DistinctAppend(found', next);
        found', queue', added := found' + [next], queue' + [next], added + [next];
      }
    }
  }

  lemma FoundStep(edges: seq<Edge>, n: nat, start: nat, current: nat, targets: seq<nat>, found: seq<nat>,
                  added: seq<nat>)
    requires InRange(edges, n) && (current == start || current in found)
    requires forall t :: t in targets <==> Edge(current, t) in edges
    requires forall t :: t in added ==> t in targets
    requires forall t :: t in targets ==> t in found + added
    requires forall b :: b in found ==> b < n && Reaches(edges, start, b)
    ensures forall b :: b in found + added ==> b < n && Reaches(edges, start, b)
    ensures forall e :: e in edges && e.source == current ==> e.target in found + added
  {
    hide Reaches;
    forall b | b in added ensures b < n && Reaches(edges, start, b) {
      assert Edge(current, b) in edges;
      if current == start { ReachesByEdge(edges, start, b); } else { ReachesThenEdge(edges, start, current, b); }
    }
    forall e | e in edges && e.source == current ensures e.target in found + added {
      assert Edge(current, e.target) in edges;
    }
  }

  /** Nodes discovered from start, in breadth-first order; start itself is not marked. */
  method BreadthFirst(edges: seq<Edge>, n: nat, start: nat) returns (found: seq<nat>)
    requires InRange(edges, n)
    ensures Distinct(found) && forall b :: b in found <==> Reaches(edges, start, b)
  {
    found := [];
    var queue := [start];
    ghost var done: seq<nat> := [];
    while queue != []
      invariant done + queue == [start] + found
      invariant Distinct(found) && forall b :: b in found ==> b < n && Reaches(edges, start, b)
      invariant forall e :: e in edges && e.source in done ==> e.target in found
      decreases n - |found|, |queue|
    {
      hide Reaches, Distinct, InRange;
      var current := queue[0];
      ghost var was := found;
      assert current in done + queue;
      var targets := Successors(edges, current);
      ghost var added;
      found, queue, added := Discover(targets, found, queue[1..]);
      FoundStep(edges, n, start, current, targets, was, added);
      DistinctBelow(found, n);
      done := done + [current];
      assert done + queue == [start] + was + added;
    }
    forall b | Reaches(edges, start, b) ensures b in found {
      var p :| Walk(edges, p) && p[0] == start && p[|p| - 1] == b;
      forall e | e in edges && (e.source == start || e.source in Elements(found)) ensures e.target in Elements(found) {
        assert e.source in done + queue;
      }
      ForwardClosed(edges, Elements(found), start, p);
    }
  }

  // ---------------------------------------------------------------- depth first

  /** Ghost invariant of the ancestor walk. */
  ghost predicate Gathered(edges: seq<Edge>, n: nat, start: nat, visited: seq<nat>, stack: seq<nat>)
  {
    && Distinct(visited)
    && (forall b :: b in visited || b in stack ==> b < n && (b == start || Reaches(edges, b, start)))
    && (forall e :: e in edges && e.target in visited ==> e.source in visited || e.source in stack)
    && (start in visited || start in stack)
  }

  lemma GatherStep(edges: seq<Edge>, n: nat, start: nat, visited: seq<nat>, stack: seq<nat>, sources: seq<nat>)
    requires stack != [] && stack[|stack| - 1] !in visited && InRange(edges, n)
    requires Gathered(edges, n, start, visited, stack)
    requires forall s :: s in sources <==> Edge(s, stack[|stack| - 1]) in edges
    ensures Gathered(edges, n, start, visited + [stack[|stack| - 1]], stack[..|stack| - 1] + sources)
  {
    hide Reaches, Distinct;
    var node, rest := stack[|stack| - 1], stack[..|stack| - 1];
    assert stack == rest + [node];
    assert forall x :: x in stack <==> x in rest || x == node;
    DistinctAppend(visited, node);
    forall s | s in sources ensures s < n && Reaches(edges, s, start) {
      assert Edge(s, node) in edges;
      if node == start { ReachesByEdge(edges, s, start); } else { EdgeThenReaches(edges, s, node, start); }
    }
    forall e | e in edges && e.target in visited + [node]
      ensures e.source in visited + [node] || e.source in rest + sources
    {
      assert e == Edge(e.source, e.target);
    }
    assert forall b :: b in visited + [node] || b in rest + sources ==> b in visited || b in stack || b in sources;
  }

  /** The order in which the walk visits: depth first along the edges, latest edge on top. */
  ghost function GatherOrder(edges: seq<Edge>, n: nat, start: nat, visited: seq<nat>, stack: seq<nat>): seq<nat>
    requires InRange(edges, n) && Gathered(edges, n, start, visited, stack)
    decreases n - |visited|, |stack|
  {
    if stack == [] then visited
    else
      var node := stack[|stack| - 1];
      if node in visited then
        GatheredPop(edges, n, start, visited, stack);
        GatherOrder(edges, n, start, visited, stack[..|stack| - 1])
      else
        var sources := Sources(edges, node);
        GatherStep(edges, n, start, visited, stack, sources);
        GatheredBelow(edges, n, start, visited + [node], stack[..|stack| - 1] + sources);
        GatherOrder(edges, n, start, visited + [node], stack[..|stack| - 1] + sources)
  }

  /** Start and all that reaches it, each once, start last. */
  method GatherWithAncestors(edges: seq<Edge>, n: nat, start: nat) returns (result: seq<nat>)
    requires InRange(edges, n) && start < n
    ensures Distinct(result) && forall b :: b in result <==> b == start || Reaches(edges, b, start)
    ensures result != [] && result[|result| - 1] == start
    ensures result == Gathering(edges, n, start)
  {
    var visited: seq<nat> := [];
    var stack := [start];
    while stack != []
      invariant Gathered(edges, n, start, visited, stack)
      invariant GatherOrder(edges, n, start, visited, stack) == GatherOrder(edges, n, start, [], [start])
      invariant if visited == [] then stack == [start] else visited[0] == start
      decreases n - |visited|, |stack|
    {
      hide Gathered, Reaches;
      var node := stack[|stack| - 1];
      if node !in visited {
        var sources := Predecessors(edges, node);
        GatherStep(edges, n, start, visited, stack, sources);
        visited := visited + [node];
        stack := stack[..|stack| - 1] + sources;
        GatheredBelow(edges, n, start, visited, stack);
      } else {
        GatheredPop(edges, n, start, visited, stack);
        stack := stack[..|stack| - 1];
      }
    }
    forall b | Reaches(edges, b, start) ensures b in visited {
      var p :| Walk(edges, p) && p[0] == b && p[|p| - 1] == start;
      BackwardClosed(edges, Elements(visited), p);
    }
    result := Reversed(visited);
    ReversedKeeps(visited);
  }

  lemma GatheredPop(edges: seq<Edge>, n: nat, start: nat, visited: seq<nat>, stack: seq<nat>)
    requires stack != [] && stack[|stack| - 1] in visited && Gathered(edges, n, start, visited, stack)
    ensures Gathered(edges, n, start, visited, stack[..|stack| - 1])
  {
    hide Reaches, Distinct;
    var rest := stack[..|stack| - 1];
    assert stack == rest + [stack[|stack| - 1]];
    forall x | x in rest ensures x in stack {
      var i :| 0 <= i < |rest| && rest[i] == x;
      assert stack[i] == x;
    }
  }

  lemma GatheredBelow(edges: seq<Edge>, n: nat, start: nat, visited: seq<nat>, stack: seq<nat>)
    requires Gathered(edges, n, start, visited, stack)
    ensures |visited| <= n
  {
    DistinctBelow(visited, n);
  }

  /** The walk ends in the state its invariant describes, with nothing left on the stack. */
  lemma {:induction false} GatherEnds(edges: seq<Edge>, n: nat, start: nat, visited: seq<nat>, stack: seq<nat>)
    requires InRange(edges, n) && Gathered(edges, n, start, visited, stack)
    ensures Gathered(edges, n, start, GatherOrder(edges, n, start, visited, stack), [])
    decreases n - |visited|, |stack|
  {
    if stack != [] {
      hide Gathered, GatherOrder, Sources;
      var node, rest := stack[|stack| - 1], stack[..|stack| - 1];
      assert stack == rest + [node];
      if node in visited {
        Skip(edges, n, start, visited, rest, node);
        GatherEnds(edges, n, start, visited, rest);
      } else {
        Visit(edges, n, start, visited, rest, node);
        GatheredBelow(edges, n, start, visited + [node], rest + Sources(edges, node));
        GatherEnds(edges, n, start, visited + [node], rest + Sources(edges, node));
      }
    }
  }

  /** All listed nodes are below n. */
  predicate Within(ps: seq<nat>, n: nat) { forall i :: 0 <= i < |ps| ==> ps[i] < n }

  /** What gathering from start lists: the walk's nodes, the last visited first. */
  ghost function Gathering(edges: seq<Edge>, n: nat, start: nat): (list: seq<nat>)
    requires InRange(edges, n) && start < n
    ensures Distinct(list) && start in list && Within(list, n)
  {
    StartGathered(edges, n, start);
    GatherEnds(edges, n, start, [], [start]);
    var order := GatherOrder(edges, n, start, [], [start]);
    GatheredReversed(edges, n, start, order);
    Reversed(order)
  }

  /** With a node its parents are listed, too. */
  lemma GatheringClosed(edges: seq<Edge>, n: nat, start: nat)
    requires InRange(edges, n) && start < n
    ensures forall e :: e in edges && e.target in Gathering(edges, n, start) ==> e.source in Gathering(edges, n, start)
  {
    StartGathered(edges, n, start);
    GatherEnds(edges, n, start, [], [start]);
    hide GatherOrder;
    ReversedKeeps(GatherOrder(edges, n, start, [], [start]));
  }

  lemma GatheredReversed(edges: seq<Edge>, n: nat, start: nat, order: seq<nat>)
    requires Gathered(edges, n, start, order, [])
    ensures Distinct(Reversed(order)) && start in Reversed(order) && Within(Reversed(order), n)
  {
    ReversedKeeps(order);
    assert forall b :: b in order ==> b < n;
    var list: seq<nat> := Reversed(order);
    forall k | 0 <= k < |list| ensures list[k] < n {
      assert list[k] == order[|order| - 1 - k];
      assert order[|order| - 1 - k] in order;
    }
    assert Within(list, n);
  }

  const DIAMOND: seq<Edge> := [Edge(0, 1), Edge(0, 2), Edge(1, 2)]

  /** The result need not be parent-first. With edges 0 -> 1, 0 -> 2 and 1 -> 2, added in
      that order, gathering from 2 lists 1 before its own parent 0. */
  lemma {:induction false} GatherNotParentFirst()
    ensures Acyclic(DIAMOND, 3) && InRange(DIAMOND, 3) && Gathering(DIAMOND, 3, 2) == [1, 0, 2]
  {
    DiamondWalk();
    hide GatherOrder;
    assert Ranked(DIAMOND, [0, 1, 2]);
  }

  lemma {:induction false} DiamondWalk()
    ensures InRange(DIAMOND, 3) && Gathered(DIAMOND, 3, 2, [], [2])
    ensures GatherOrder(DIAMOND, 3, 2, [], [2]) == [2, 0, 1]
  {
    SmallSources();
    assert InRange(DIAMOND, 3);
    hide Gathered, GatherOrder, Sources, InRange, DIAMOND;
    StartGathered(DIAMOND, 3, 2);
    var none: seq<nat> := [];
    assert none + [2] == [2] && none + [1, 0] == [1] + [0];
    Visit(DIAMOND, 3, 2, none, none, 2);
    DiamondTail();
  }

  lemma {:induction false} DiamondTail()
    requires InRange(DIAMOND, 3) && Gathered(DIAMOND, 3, 2, [2], [1] + [0])
    ensures GatherOrder(DIAMOND, 3, 2, [2], [1] + [0]) == [2, 0, 1]
  {
    SmallSources();
    hide Gathered, GatherOrder, Sources, InRange, DIAMOND;
    var none: seq<nat> := [];
    assert [1] + none == none + [1] && none + [0] == [0] && [2] + [0] == [2, 0] && [2, 0] + [1] == [2, 0, 1];
    Visit(DIAMOND, 3, 2, [2], [1], 0);
    Visit(DIAMOND, 3, 2, [2, 0], none, 1);
    Skip(DIAMOND, 3, 2, [2, 0, 1], none, 0);
  }

  lemma {:induction false} SmallSources()
    ensures Sources(DIAMOND, 2) == [1, 0] && Sources(DIAMOND, 1) == [0] && Sources(DIAMOND, 0) == []
  {
    var three, two, one, none := DIAMOND, [Edge(0, 1), Edge(0, 2)], [Edge(0, 1)], [];
    assert three[..2] == two && two[..1] == one && one[..0] == none;
    assert Sources(none, 2) == [] && Sources(none, 1) == [] && Sources(none, 0) == [];
    assert Sources(one, 2) == [] && Sources(one, 1) == [0] && Sources(one, 0) == [];
    assert Sources(two, 2) == [0] && Sources(two, 1) == [0] && Sources(two, 0) == [];
  }

  lemma StartGathered(edges: seq<Edge>, n: nat, start: nat)
    requires start < n
    ensures Gathered(edges, n, start, [], [start])
  {}

  lemma {:induction false} Visit(edges: seq<Edge>, n: nat, start: nat, visited: seq<nat>, rest: seq<nat>, node: nat)
    requires InRange(edges, n) && Gathered(edges, n, start, visited, rest + [node]) && node !in visited
    ensures Gathered(edges, n, start, visited + [node], rest + Sources(edges, node))
    ensures GatherOrder(edges, n, start, visited, rest + [node])
            == GatherOrder(edges, n, start, visited + [node], rest + Sources(edges, node))
  {
    assert (rest + [node])[..|rest|] == rest;
    GatherStep(edges, n, start, visited, rest + [node], Sources(edges, node));
  }

  lemma {:induction false} Skip(edges: seq<Edge>, n: nat, start: nat, visited: seq<nat>, rest: seq<nat>, node: nat)
    requires InRange(edges, n) && Gathered(edges, n, start, visited, rest + [node]) && node in visited
    ensures Gathered(edges, n, start, visited, rest)
    ensures GatherOrder(edges, n, start, visited, rest + [node]) == GatherOrder(edges, n, start, visited, rest)
    ensures rest == [] ==> GatherOrder(edges, n, start, visited, rest) == visited
  {
    assert (rest + [node])[..|rest|] == rest;
    GatheredPop(edges, n, start, visited, rest + [node]);
  }

  // ---------------------------------------------------------------- topological order

  /** Numbers that grow along every edge. */
  ghost predicate Ranked(edges: seq<Edge>, rank: seq<nat>)
  {
    InRange(edges, |rank|) && forall e :: e in edges ==> rank[e.source] < rank[e.target]
  }

  ghost predicate Acyclic(edges: seq<Edge>, n: nat)
  {
    exists rank :: |rank| == n && Ranked(edges, rank)
  }

  /** A finishing order: every node after all its targets. */
  ghost predicate Finished(edges: seq<Edge>, stack: seq<nat>)
  {
    && Distinct(stack)
    && forall k, e :: 0 <= k < |stack| && e in edges && e.source == stack[k] ==> e.target in stack[..k]
  }

  ghost function Below(n: nat): (s: set<nat>)
    ensures forall x: nat :: x in s <==> x < n
  {
    if n == 0 then {} else Below(n - 1) + {n - 1}
  }

  /** State of the search between calls; visited nodes not on the stack are still open. */
  ghost predicate Searching(edges: seq<Edge>, rank: seq<nat>, visited: set<nat>, stack: seq<nat>)
  {
    && Ranked(edges, rank)
    && Elements(stack) <= visited <= Below(|rank|)
    && Finished(edges, stack)
  }

  lemma FinishNode(edges: seq<Edge>, stack: seq<nat>, node: nat)
    requires Finished(edges, stack) && node !in stack
    requires forall e :: e in edges && e.source == node ==> e.target in stack
    ensures Finished(edges, stack + [node])
  {
    DistinctAppend(stack, node);
    var longer := stack + [node];
    forall k, e | 0 <= k < |longer| && e in edges && e.source == longer[k] ensures e.target in longer[..k] {
      if k < |stack| { assert longer[..k] == stack[..k]; } else { assert longer[..k] == stack; }
    }
  }

  /** Post-order visit. Open nodes lie below this one in rank, so no edge leads back to them. */
  method DfsTopo(edges: seq<Edge>, node: nat, visited: set<nat>, stack: seq<nat>, ghost rank: seq<nat>)
    returns (visited': set<nat>, stack': seq<nat>)
    requires Searching(edges, rank, visited, stack) && node < |rank| && node !in visited
    requires forall g :: g in visited && g !in stack ==> rank[g] < rank[node]
    ensures Searching(edges, rank, visited', stack')
    ensures visited + {node} <= visited' && stack <= stack'
    ensures forall g :: g in visited' && g !in stack' <==> g in visited && g !in stack
    decreases Below(|rank|) - visited
  {
    hide Finished;
    visited', stack' := visited + {node}, stack;
    var targets := Successors(edges, node);
    for i := 0 to |targets|
      invariant Searching(edges, rank, visited', stack')
      invariant visited + {node} <= visited' && stack <= stack'
      invariant forall g :: g in visited' && g !in stack' <==> (g in visited && g !in stack) || g == node
      invariant forall k :: 0 <= k < i ==> targets[k] in stack'
    {
      assert targets[i] in targets && Edge(node, targets[i]) in edges;
      if targets[i] !in visited' {
        visited', stack' := DfsTopo(edges, targets[i], visited', stack', rank);
      }
    }
    forall e | e in edges && e.source == node ensures e.target in stack' {
      assert Edge(node, e.target) in edges;
    }
    FinishNode(edges, stack', node);
    stack' := stack' + [node];
  }

  /** All nodes, each once, every node before its targets. */
  method TopologicalSort(edges: seq<Edge>, n: nat) returns (result: seq<nat>)
    requires Acyclic(edges, n)
    ensures Distinct(result) && (forall x: nat :: x in result <==> x < n)
    ensures forall k, e :: 0 <= k < |result| && e in edges && e.source == result[k] ==> e.target in result[k + 1..]
  {
    ghost var rank :| |rank| == n && Ranked(edges, rank);
    var visited: set<nat>, stack: seq<nat> := {}, [];
    for idx := 0 to n
      invariant Searching(edges, rank, visited, stack) && visited <= Elements(stack)
      invariant forall x :: 0 <= x < idx ==> x in visited
    {
      hide Searching, Finished;
      if idx !in visited {
        SearchStart(edges, rank, visited, stack);
        visited, stack := DfsTopo(edges, idx, visited, stack, rank);
      }
    }
    result := Reversed(stack);
    ReversedKeeps(stack);
    assert forall x :: x in stack <==> x in Elements(stack);
    forall k, e | 0 <= k < |result| && e in edges && e.source == result[k] ensures e.target in result[k + 1..] {
      var j :| 0 <= j < |stack| - 1 - k && stack[j] == e.target;
      assert result[k + 1..][|stack| - 1 - j - (k + 1)] == e.target;
    }
  }

  lemma SearchStart(edges: seq<Edge>, rank: seq<nat>, visited: set<nat>, stack: seq<nat>)
    requires Searching(edges, rank, visited, stack) && visited <= Elements(stack)
    ensures forall g :: g in visited ==> g < |rank|
    ensures forall g :: g in visited ==> g in stack
  {}
}
