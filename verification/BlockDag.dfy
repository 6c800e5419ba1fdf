/** The in-block dependency graph: output index, ordering check and execution layers. */
module BlockDag {
  import opened Primitives
  import opened ChainTypes
  import opened Collections
  import opened Digraph
  import opened UtxoProcessor

  /** Every input of a transaction, whatever its kind. */
  function InputsOf(tx: Transaction): seq<OutPoint>
  {
    seq(|tx.data.inputs|, i requires 0 <= i < |tx.data.inputs| => tx.data.inputs[i].previousOutput)
  }

  function InputsInOrder(txs: seq<Transaction>): seq<OutPoint>
  {
    if txs == [] then [] else InputsInOrder(txs[..|txs| - 1]) + InputsOf(txs[|txs| - 1])
  }

  predicate Creates(txs: seq<Transaction>, i: nat, op: OutPoint) { i < |txs| && op in Outputs(txs[i]) }

  /** Transaction t uses an output of transaction s. */
  ghost predicate DependsOn(txs: seq<Transaction>, t: nat, s: nat)
  {
    t < |txs| && exists op :: op in InputsOf(txs[t]) && Creates(txs, s, op)
  }

  ghost predicate UniqueOutputs(txs: seq<Transaction>)
  {
    forall i: nat, j: nat, op :: Creates(txs, i, op) && Creates(txs, j, op) ==> i == j
  }

  /** Every in-block creator stands before its users. */
  ghost predicate Ordered(txs: seq<Transaction>)
  {
    forall t: nat, s: nat :: DependsOn(txs, t, s) ==> s < t
  }

  // ---------------------------------------------------------------- what the tables hold

  ghost predicate IndexOf(index: map<OutPoint, nat>, txs: seq<Transaction>, n: nat)
  {
    && (forall op :: op in index ==> index[op] < n && Creates(txs, index[op], op))
    && (forall i: nat, op :: i < n && Creates(txs, i, op) ==> op in index && index[op] == i)
  }

  ghost predicate EdgesOf(edges: seq<Edge>, txs: seq<Transaction>, n: nat)
  {
    forall t: nat, s: nat :: Edge(s, t) in edges <==> t < n && DependsOn(txs, t, s)
  }

  ghost predicate UsedOutside(txs: seq<Transaction>, n: nat, op: OutPoint)
  {
    (exists t: nat :: t < n && t < |txs| && op in InputsOf(txs[t])) && forall i: nat :: !Creates(txs, i, op)
  }

  ghost predicate ExternalOf(external: set<OutPoint>, txs: seq<Transaction>, n: nat)
  {
    forall op :: op in external <==> UsedOutside(txs, n, op)
  }

  lemma OutputKeys(tx: Transaction)
    ensures forall op :: op in Outputs(tx) <==> op == OutPoint(tx.data.Hash(), op.vout) && op.vout < |tx.data.outputs|
  {}

  lemma IndexClash(index: map<OutPoint, nat>, txs: seq<Transaction>, i: nat, op: OutPoint)
    requires i < |txs| && IndexOf(index, txs, i) && op in index
    requires op.txid == txs[i].data.Hash() && op.vout < |txs[i].data.outputs|
    ensures !UniqueOutputs(txs)
  {
    assert Creates(txs, index[op], op) && Creates(txs, i, op);
  }

  lemma IndexStep(index: map<OutPoint, nat>, longer: map<OutPoint, nat>, txs: seq<Transaction>, i: nat)
    requires i < |txs| && IndexOf(index, txs, i)
    requires forall op :: op in longer <==> op in index || op in Outputs(txs[i])
    requires forall op :: op in longer ==> longer[op] == if op in index then index[op] else i
    requires forall op :: op in Outputs(txs[i]) ==> op !in index
    ensures IndexOf(longer, txs, i + 1)
  {
    hide Outputs;
  }

  /** Inner indexing loop: the outputs of transaction i, stopping at one already indexed. */
  method IndexOutputs(index: map<OutPoint, nat>, txs: seq<Transaction>, i: nat)
    returns (r: Option<map<OutPoint, nat>>)
    requires i < |txs| && IndexOf(index, txs, i)
    ensures match r
            case Some(longer) => IndexOf(longer, txs, i + 1)
            case None => !UniqueOutputs(txs)
  {
    hide Outputs, FirstOutputs, IndexOf, Creates, UniqueOutputs;
    var id, count := txs[i].data.Hash(), |txs[i].data.outputs|;
    var longer := index;
    for vout := 0 to count
      invariant forall op :: op in longer <==> op in index || (op.txid == id && op.vout < vout)
      invariant forall op :: op in longer ==> longer[op] == if op in index then index[op] else i
      invariant forall v :: 0 <= v < vout ==> OutPoint(id, v) !in index
    {
      var op := OutPoint(id, vout);
      if op in longer {
        IndexClash(index, txs, i, op);
        return None;
      }
      longer := longer[op := i];
    }
    OutputKeys(txs[i]);
    IndexStep(index, longer, txs, i);
    r := Some(longer);
  }

  method IndexAll(txs: seq<Transaction>) returns (r: Option<map<OutPoint, nat>>)
    ensures r.Some? <==> UniqueOutputs(txs)
    ensures r.Some? ==> IndexOf(r.value, txs, |txs|)
  {
    hide Outputs;
    var index: map<OutPoint, nat> := map[];
    for i := 0 to |txs|
      invariant IndexOf(index, txs, i)
    {
      var longer := IndexOutputs(index, txs, i);
      if longer == None { return None; }
      index := longer.value;
    }
    r := Some(index);
  }

  /** Inner edge loop: the inputs of transaction t become edges or external inputs. */
  method LinkInputs(index: map<OutPoint, nat>, txs: seq<Transaction>, t: nat, edges: seq<Edge>, external: set<OutPoint>)
    returns (edges': seq<Edge>, external': set<OutPoint>)
    requires t < |txs| && IndexOf(index, txs, |txs|)
    requires EdgesOf(edges, txs, t) && ExternalOf(external, txs, t)
    ensures EdgesOf(edges', txs, t + 1) && ExternalOf(external', txs, t + 1)
  {
    hide Outputs;
    var ops := InputsOf(txs[t]);
    edges', external' := edges, external;
    for k := 0 to |ops|
      invariant forall e :: e in edges' <==>
                  e in edges || (e.target == t && exists op :: op in ops[..k] && Creates(txs, e.source, op))
      invariant forall op :: op in external' <==> op in external || (op in ops[..k] && op !in index)
    {
      var op := ops[k];
      assert forall x :: x in ops[..k + 1] <==> x in ops[..k] || x == op;
      if op in index {
        edges' := edges' + [Edge(index[op], t)];
      } else {
        external' := external' + {op};
      }
    }
    assert ops[..|ops|] == ops;
  }

  lemma {:induction false} InputsPrefix(txs: seq<Transaction>, n: nat)
    requires n <= |txs|
    ensures InputsInOrder(txs[..n]) <= InputsInOrder(txs)
  {
    if n == |txs| {
      assert txs[..n] == txs;
    } else {
      InputsPrefix(txs[..|txs| - 1], n);
      assert txs[..|txs| - 1][..n] == txs[..n];
    }
  }

  /** The outpoints can be inserted one after another without meeting one seen before. */
  ghost predicate Reservable(seen: set<OutPoint>, ops: seq<OutPoint>)
  {
    Distinct(ops) && Elements(ops) !! seen
  }

  lemma {:induction false} InputsStep(txs: seq<Transaction>, t: nat, seen: set<OutPoint>)
    requires t < |txs|
    ensures var before := InputsInOrder(txs[..t]);
            && Elements(InputsInOrder(txs[..t + 1])) == Elements(before) + Elements(InputsOf(txs[t]))
            && (Reservable(seen, InputsInOrder(txs[..t + 1])) <==>
                Reservable(seen, before) && Reservable(seen + Elements(before), InputsOf(txs[t])))
  {
    assert txs[..t + 1][..t] == txs[..t];
    assert InputsInOrder(txs[..t + 1]) == InputsInOrder(txs[..t]) + InputsOf(txs[t]);
    hide InputsInOrder, InputsOf;
    DistinctConcat(InputsInOrder(txs[..t]), InputsOf(txs[t]));
  }

  /** The inputs of the first t transactions, and nothing else, were reserved on top of seen. */
  ghost predicate ReservedUpTo(txs: seq<Transaction>, t: nat, seen: set<OutPoint>, spent: set<OutPoint>)
    requires t <= |txs|
  {
    Reservable(seen, InputsInOrder(txs[..t])) && spent == seen + Elements(InputsInOrder(txs[..t]))
  }

  lemma {:induction false} NothingReserved(txs: seq<Transaction>, seen: set<OutPoint>)
    ensures ReservedUpTo(txs, 0, seen, seen) && OrderedUpTo(txs, 0)
  {}

  lemma {:induction false} AllReserved(txs: seq<Transaction>, seen: set<OutPoint>, spent: set<OutPoint>)
    requires ReservedUpTo(txs, |txs|, seen, spent)
    ensures Reservable(seen, InputsInOrder(txs)) && spent == seen + Elements(InputsInOrder(txs))
  {
    assert txs[..|txs|] == txs;
  }

  /** What holds of the whole block holds of its first transactions. */
  lemma {:induction false} OrderedSoFar(txs: seq<Transaction>, t: nat, seen: set<OutPoint>)
    requires t <= |txs|
    ensures Reservable(seen, InputsInOrder(txs)) ==> Reservable(seen, InputsInOrder(txs[..t]))
    ensures Ordered(txs) ==> OrderedUpTo(txs, t)
  {
    hide InputsInOrder;
    InputsPrefix(txs, t);
    PrefixOfDistinct(InputsInOrder(txs), InputsInOrder(txs[..t]));
  }

  ghost predicate OrderedUpTo(txs: seq<Transaction>, n: nat)
  {
    forall t: nat, s: nat :: t < n && DependsOn(txs, t, s) ==> s < t
  }

  lemma OrderedWhole(txs: seq<Transaction>)
    ensures Ordered(txs) <==> OrderedUpTo(txs, |txs|)
  {}

  /** Looking the inputs of t up in the index decides whether t keeps the order. */
  lemma OrderStep(index: map<OutPoint, nat>, txs: seq<Transaction>, t: nat)
    requires t < |txs| && IndexOf(index, txs, |txs|)
    ensures OrderedUpTo(txs, t + 1) <==>
            && OrderedUpTo(txs, t)
            && forall op :: op in InputsOf(txs[t]) && op in index ==> index[op] < t
  {
    hide Outputs, InputsOf;
    forall op | op in InputsOf(txs[t]) && op in index ensures DependsOn(txs, t, index[op]) {
      assert Creates(txs, index[op], op);
    }
  }

  // ---------------------------------------------------------------- levels

  /** A hash contains its preimage, so what a transaction depends on is smaller. */
  lemma DependsSmaller(txs: seq<Transaction>, t: nat, s: nat)
    requires DependsOn(txs, t, s)
    ensures s < |txs| && (txs[t].data decreases to txs[s].data)
  {
    var op :| op in InputsOf(txs[t]) && Creates(txs, s, op);
    var k :| 0 <= k < |txs[t].data.inputs| && txs[t].data.inputs[k].previousOutput == op;
    assert op.txid.preimage == txs[s].data;
    assert txs[t].data decreases to txs[t].data.inputs;
    assert txs[t].data.inputs decreases to txs[t].data.inputs[k];
  }

  /** Length of the longest dependency chain below t. */
  ghost function Level(txs: seq<Transaction>, t: nat): nat
    requires t < |txs|
    decreases txs[t].data, |txs| + 1
  {
    LevelOver(txs, t, |txs|)
  }

  ghost function LevelOver(txs: seq<Transaction>, t: nat, n: nat): nat
    requires t < |txs| && n <= |txs|
    decreases txs[t].data, n
  {
    if n == 0 then 0
    else if DependsOn(txs, t, n - 1) then
      DependsSmaller(txs, t, n - 1);
      var below, here := LevelOver(txs, t, n - 1), Level(txs, n - 1) + 1;
      if below < here then here else below
    else LevelOver(txs, t, n - 1)
  }

  lemma {:induction false} LevelOverBounds(txs: seq<Transaction>, t: nat, n: nat)
    requires t < |txs| && n <= |txs|
    ensures forall s: nat :: s < n && DependsOn(txs, t, s) ==> Level(txs, s) < LevelOver(txs, t, n)
    ensures LevelOver(txs, t, n) > 0 ==>
              exists s: nat :: s < n && DependsOn(txs, t, s) && Level(txs, s) + 1 == LevelOver(txs, t, n)
  {
    hide Level, DependsOn;
    if n > 0 { LevelOverBounds(txs, t, n - 1); }
  }

  /** A level is above exactly the levels of the dependencies, and just above one of them. */
  lemma {:induction false} LevelBounds(txs: seq<Transaction>, t: nat)
    requires t < |txs|
    ensures forall s: nat :: DependsOn(txs, t, s) ==> s < |txs| && Level(txs, s) < Level(txs, t)
    ensures Level(txs, t) > 0 ==> exists s: nat :: DependsOn(txs, t, s) && Level(txs, s) + 1 == Level(txs, t)
  {
    LevelOverBounds(txs, t, |txs|);
  }

  /** Levels have no gap: below a transaction of level at least g stands one of level g. */
  lemma {:induction false} LevelsReach(txs: seq<Transaction>, t: nat, g: nat) returns (u: nat)
    requires t < |txs| && Level(txs, t) >= g
    ensures u < |txs| && Level(txs, u) == g
    decreases Level(txs, t)
  {
    hide Level;
    if Level(txs, t) == g {
      u := t;
    } else {
      LevelBounds(txs, t);
      var s: nat :| DependsOn(txs, t, s) && Level(txs, s) + 1 == Level(txs, t);
      u := LevelsReach(txs, s, g);
    }
  }

  /** The first n transactions that have level g, in block order. */
  ghost function AtLevel(txs: seq<Transaction>, g: nat, n: nat): seq<nat>
    requires n <= |txs|
  {
    if n == 0 then []
    else AtLevel(txs, g, n - 1) + (if Level(txs, n - 1) == g then [n - 1] else [])
  }

  lemma {:induction false} AtLevelHolds(txs: seq<Transaction>, g: nat, n: nat)
    requires n <= |txs|
    ensures forall t: nat :: t in AtLevel(txs, g, n) <==> t < n && Level(txs, t) == g
    ensures forall i, j :: 0 <= i < j < |AtLevel(txs, g, n)| ==> AtLevel(txs, g, n)[i] < AtLevel(txs, g, n)[j]
  {
    hide Level;
    if n > 0 {
      AtLevelHolds(txs, g, n - 1);
      var before := AtLevel(txs, g, n - 1);
      assert forall i :: 0 <= i < |before| ==> before[i] in before;
    }
  }

  function Ready(edges: seq<Edge>, processed: set<nat>, n: nat): seq<nat>
  {
    if n == 0 then []
    else Ready(edges, processed, n - 1) +
         (if n - 1 !in processed && (forall e :: e in edges && e.target == n - 1 ==> e.source in processed)
          then [n - 1] else [])
  }

  lemma {:induction false} ReadyIsLevel(edges: seq<Edge>, txs: seq<Transaction>, processed: set<nat>, g: nat, n: nat)
    requires n <= |txs| && EdgesOf(edges, txs, |txs|)
    requires forall t: nat :: t in processed <==> t < |txs| && Level(txs, t) < g
    ensures Ready(edges, processed, n) == AtLevel(txs, g, n)
  {
    hide Level, DependsOn;
    if n > 0 {
      ReadyIsLevel(edges, txs, processed, g, n - 1);
      LevelBounds(txs, n - 1);
      forall e | e in edges && e.target == n - 1 ensures DependsOn(txs, n - 1, e.source) {
        assert e == Edge(e.source, n - 1);
      }
    }
  }

  /** While something is unprocessed, the next level is inhabited. */
  lemma {:induction false} SomeUnprocessed(txs: seq<Transaction>, processed: set<nat>, g: nat)
    requires forall t: nat :: t in processed <==> t < |txs| && Level(txs, t) < g
    requires |processed| < |txs|
    ensures AtLevel(txs, g, |txs|) != []
  {
    hide Level, AtLevel;
    BelowSize(processed, |txs|);
    var t: nat :| t < |txs| && t !in processed;
    var u := LevelsReach(txs, t, g);
    AtLevelHolds(txs, g, |txs|);
    assert u in AtLevel(txs, g, |txs|);
  }

  class DependencyGraph {
    var outputIndex: map<OutPoint, nat>
    var spentOutputs: set<OutPoint>
    var externalInputs: set<OutPoint>
    var nodes: nat
    var edges: seq<Edge>

    constructor (outputIndex: map<OutPoint, nat>, externalInputs: set<OutPoint>, nodes: nat, edges: seq<Edge>)
      ensures this.outputIndex == outputIndex && this.externalInputs == externalInputs
      ensures this.nodes == nodes && this.edges == edges && spentOutputs == {}
    {
      this.outputIndex, this.externalInputs, this.nodes, this.edges := outputIndex, externalInputs, nodes, edges;
      spentOutputs := {};
    }

    ghost predicate Represents(txs: seq<Transaction>)
      reads `outputIndex, `externalInputs, `nodes, `edges
    {
      && nodes == |txs|
      && IndexOf(outputIndex, txs, |txs|)
      && EdgesOf(edges, txs, |txs|)
      && ExternalOf(externalInputs, txs, |txs|)
    }

    static method Build(txs: seq<Transaction>) returns (r: Result<DependencyGraph, CoreError>)
      ensures r.Ok? <==> UniqueOutputs(txs)
      ensures r.Ok? ==> fresh(r.value) && r.value.Represents(txs) && r.value.spentOutputs == {}
    {
      hide UniqueOutputs, IndexOf, Outputs;
      var index := IndexAll(txs);
      if index == None { return Err(ValidationFailed); }
      var edges: seq<Edge>, external: set<OutPoint> := [], {};
      for t := 0 to |txs|
        invariant EdgesOf(edges, txs, t) && ExternalOf(external, txs, t)
      {
        edges, external := LinkInputs(index.value, txs, t, edges, external);
      }
      var g := new DependencyGraph(index.value, external, |txs|, edges);
      r := Ok(g);
    }

    /** Inner loop of validate_order: reserve the inputs of transaction t. */
    method ReserveInputs(ops: seq<OutPoint>, t: nat) returns (ok: bool)
      modifies this`spentOutputs
      ensures ok <==>
              && Reservable(old(spentOutputs), ops)
              && forall op :: op in ops && op in outputIndex ==> outputIndex[op] < t
      ensures ok ==> spentOutputs == old(spentOutputs) + Elements(ops)
    {
      for k := 0 to |ops|
        invariant spentOutputs == old(spentOutputs) + Elements(ops[..k])
        invariant Distinct(ops[..k]) && Elements(ops[..k]) !! old(spentOutputs)
        invariant forall op :: op in ops[..k] && op in outputIndex ==> outputIndex[op] < t
      {
        var op := ops[k];
        assert ops[..k + 1] == ops[..k] + [op];
        DistinctAppend(ops[..k], op);
        if op in spentOutputs {
          PrefixOfDistinct(ops, ops[..k + 1]);
          assert op in ops;
          return false;
        }
        spentOutputs := spentOutputs + {op};
        if op in outputIndex && outputIndex[op] >= t {
          assert op in ops;
          return false;
        }
      }
      assert ops[..|ops|] == ops;
      ok := true;
    }

    /** Transaction t joins the reservation of the transactions before it. */
    method ReserveTransaction(txs: seq<Transaction>, t: nat, ghost seen: set<OutPoint>) returns (ok: bool)
      requires t < |txs| && IndexOf(outputIndex, txs, |txs|)
      requires ReservedUpTo(txs, t, seen, spentOutputs) && OrderedUpTo(txs, t)
      modifies this`spentOutputs
      ensures ok <==> Reservable(seen, InputsInOrder(txs[..t + 1])) && OrderedUpTo(txs, t + 1)
      ensures ok ==> ReservedUpTo(txs, t + 1, seen, spentOutputs)
    {
      hide IndexOf, Reservable, OrderedUpTo, InputsInOrder, InputsOf;
      InputsStep(txs, t, seen);
      OrderStep(outputIndex, txs, t);
      ok := ReserveInputs(InputsOf(txs[t]), t);
    }

    /** Reserves every input in block order; the reservation outlives the call. */
    method ValidateOrder(txs: seq<Transaction>) returns (r: Result<(), CoreError>)
      requires Represents(txs)
      modifies this`spentOutputs
      ensures r.Ok? <==> Reservable(old(spentOutputs), InputsInOrder(txs)) && Ordered(txs)
      ensures r.Ok? ==> spentOutputs == old(spentOutputs) + Elements(InputsInOrder(txs))
      ensures Represents(txs)
    {
      hide Reservable, Ordered, OrderedUpTo, IndexOf, ReservedUpTo, InputsInOrder, EdgesOf, ExternalOf, Elements;
      NothingReserved(txs, spentOutputs);
      OrderedWhole(txs);
      for t := 0 to |txs|
        invariant ReservedUpTo(txs, t, old(spentOutputs), spentOutputs) && OrderedUpTo(txs, t)
      {
        OrderedSoFar(txs, t + 1, old(spentOutputs));
        var ok := ReserveTransaction(txs, t, old(spentOutputs));
        if !ok { return Err(ValidationFailed); }
      }
      AllReserved(txs, old(spentOutputs), spentOutputs);
      r := Ok(());
    }

    method GetTransactionDependencies(t: nat) returns (deps: seq<nat>)
      ensures forall s: nat :: s in deps <==> t < nodes && Edge(s, t) in edges
    {
      if t >= nodes { return []; }
      deps := Predecessors(edges, t);
    }

    /** One round: the unprocessed transactions all of whose dependencies are processed. */
    method ReadyTransactions(processed: set<nat>) returns (group: seq<nat>)
      ensures group == Ready(edges, processed, nodes)
    {
      group := [];
      for t := 0 to nodes
        invariant group == Ready(edges, processed, t)
      {
        if t !in processed {
          var deps := GetTransactionDependencies(t);
          if forall s :: s in deps ==> s in processed { group := group + [t]; }
        }
      }
    }

    /** The layering loop. Group g holds the transactions of level g in block order, no
        group is empty, and the loop ends on every block a graph was built for. */
    method GetParallelExecutionGroups(ghost txs: seq<Transaction>) returns (groups: seq<seq<nat>>)
      requires Represents(txs)
      ensures Layers(txs, groups) && forall g :: 0 <= g < |groups| ==> groups[g] != []
    {
      hide IndexOf, ExternalOf, EdgesOf, Level, Ready, AtLevel;
      groups := [];
      var processed: set<nat> := {};
      while |processed| < nodes
        invariant forall t: nat :: t in processed <==> t < |txs| && Level(txs, t) < |groups|
        invariant forall g: nat :: g < |groups| ==> groups[g] == AtLevel(txs, g, |txs|) && groups[g] != []
        decreases nodes - |processed|
      {
        var group := ReadyTransactions(processed);
        ReadyIsLevel(edges, txs, processed, |groups|, nodes);
        SomeUnprocessed(txs, processed, |groups|);
        AtLevelHolds(txs, |groups|, |txs|);
        assert group[0] in group && group[0] !in processed;
        StrictSubsetSize(processed, processed + Elements(group));
        processed := processed + Elements(group);
        if group != [] { groups := groups + [group]; }
        BelowSize(processed, |txs|);
      }
      BelowSize(processed, |txs|);
    }
  }
  ghost predicate Layers(txs: seq<Transaction>, groups: seq<seq<nat>>)
  {
    && (forall g: nat :: g < |groups| ==> groups[g] == AtLevel(txs, g, |txs|))
    && (forall t: nat :: t < |txs| ==> Level(txs, t) < |groups|)
  }

  ghost predicate Placed(groups: seq<seq<nat>>, t: nat)
  {
    exists g :: 0 <= g < |groups| && t in groups[g]
  }

  /** Every transaction is in the layers, at one place only. */
  lemma LayersPartition(txs: seq<Transaction>, groups: seq<seq<nat>>)
    requires Layers(txs, groups)
    ensures forall t: nat :: t < |txs| ==> Placed(groups, t)
    ensures forall g, h, i, j ::
              0 <= g < |groups| && 0 <= h < |groups| && 0 <= i < |groups[g]| && 0 <= j < |groups[h]| ==>
              groups[g][i] < |txs| && (groups[g][i] == groups[h][j] ==> g == h && i == j)
  {
    hide Level, AtLevel;
    forall t: nat | t < |txs| ensures Placed(groups, t) {
      AtLevelHolds(txs, Level(txs, t), |txs|);
      assert t in groups[Level(txs, t)];
    }
    forall g, h, i, j | 0 <= g < |groups| && 0 <= h < |groups| && 0 <= i < |groups[g]| && 0 <= j < |groups[h]|
      ensures groups[g][i] < |txs| && (groups[g][i] == groups[h][j] ==> g == h && i == j)
    {
      AtLevelHolds(txs, g, |txs|);
      AtLevelHolds(txs, h, |txs|);
      assert groups[g][i] in groups[g] && groups[h][j] in groups[h];
    }
  }

  /** A transaction's layer comes after the layers of all it depends on. */
  lemma LayersRespectDependencies(txs: seq<Transaction>, groups: seq<seq<nat>>, g: nat, h: nat, t: nat, s: nat)
    requires Layers(txs, groups) && g < |groups| && h < |groups|
    requires t in groups[g] && s in groups[h] && DependsOn(txs, t, s)
    ensures h < g
  {
    hide Level, AtLevel;
    AtLevelHolds(txs, g, |txs|);
    AtLevelHolds(txs, h, |txs|);
    LevelBounds(txs, t);
  }

  // ---------------------------------------------------------------- what the checks buy

  ghost predicate CreatedIn(txs: seq<Transaction>, op: OutPoint) { exists i: nat :: Creates(txs, i, op) }

  /** What validate_order lets through of a graph that could be built. */
  ghost predicate OrderOk(txs: seq<Transaction>)
  {
    UniqueOutputs(txs) && Distinct(InputsInOrder(txs)) && Ordered(txs)
  }

  lemma OrderPrefix(txs: seq<Transaction>)
    requires txs != [] && OrderOk(txs)
    ensures OrderOk(txs[..|txs| - 1])
  {
    hide Outputs;
    var before := txs[..|txs| - 1];
    PrefixOfDistinct(InputsInOrder(txs), InputsInOrder(before));
    assert forall i: nat, op :: Creates(before, i, op) ==> Creates(txs, i, op);
    assert forall t: nat, s: nat :: DependsOn(before, t, s) ==> DependsOn(txs, t, s);
  }

  lemma {:induction false} InputPosition(txs: seq<Transaction>, op: OutPoint) returns (t: nat)
    requires op in InputsInOrder(txs)
    ensures t < |txs| && op in InputsOf(txs[t])
  {
    if op in InputsOf(txs[|txs| - 1]) {
      t := |txs| - 1;
    } else {
      t := InputPosition(txs[..|txs| - 1], op);
    }
  }

  lemma {:induction false} InputsApartDistinct(txs: seq<Transaction>)
    requires forall t: nat :: t < |txs| ==> Distinct(InputsOf(txs[t]))
    requires forall t: nat, u: nat, op :: t < u < |txs| && op in InputsOf(txs[t]) ==> op !in InputsOf(txs[u])
    ensures Distinct(InputsInOrder(txs))
  {
    hide InputsOf;
    if txs != [] {
      var n := |txs| - 1;
      InputsApartDistinct(txs[..n]);
      DistinctConcat(InputsInOrder(txs[..n]), InputsOf(txs[n]));
      forall op | op in InputsInOrder(txs[..n]) ensures op !in InputsOf(txs[n]) {
        var t := InputPosition(txs[..n], op);
      }
    }
  }

  lemma {:induction false} NotAmongInputs(txs: seq<Transaction>, op: OutPoint)
    requires forall t: nat :: t < |txs| ==> op !in InputsOf(txs[t])
    ensures op !in InputsInOrder(txs)
  {
    if txs != [] { NotAmongInputs(txs[..|txs| - 1], op); }
  }

  lemma CreatorFirst(txs: seq<Transaction>, t: nat, s: nat, op: OutPoint)
    requires Ordered(txs) && t <= s < |txs| && op in Outputs(txs[s])
    ensures op !in InputsOf(txs[t])
  {
    assert Creates(txs, s, op);
    assert op in InputsOf(txs[t]) ==> DependsOn(txs, t, s);
  }

  /** The last transaction in order: fresh inputs, and outputs nobody before used. */
  lemma LastInOrder(txs: seq<Transaction>)
    requires txs != [] && OrderOk(txs)
    ensures var before, tx := txs[..|txs| - 1], txs[|txs| - 1];
            && Distinct(InputsOf(tx))
            && (forall op :: op in InputsOf(tx) ==> op !in InputsInOrder(before) && op !in Outputs(tx))
            && (forall op :: op in Outputs(tx) ==> op !in InputsInOrder(before) && !CreatedIn(before, op))
            && (forall op :: CreatedIn(txs, op) <==> CreatedIn(before, op) || op in Outputs(tx))
  {
    hide Outputs;
    var n := |txs| - 1;
    var before, tx := txs[..n], txs[n];
    DistinctConcat(InputsInOrder(before), InputsOf(tx));
    forall op | op in InputsOf(tx) ensures op !in InputsInOrder(before) {
      assert op in Elements(InputsOf(tx));
    }
    forall op | op in Outputs(tx)
      ensures op !in InputsInOrder(before) && op !in InputsOf(tx) && !CreatedIn(before, op)
    {
      assert Creates(txs, n, op);
      forall t: nat | t <= n ensures op !in InputsOf(txs[t]) { CreatorFirst(txs, t, n, op); }
      NotAmongInputs(before, op);
      assert forall i: nat :: Creates(before, i, op) ==> Creates(txs, i, op);
    }
    forall op ensures CreatedIn(txs, op) <==> CreatedIn(before, op) || op in Outputs(tx) {
      assert Creates(txs, n, op) <==> op in Outputs(tx);
      assert forall i: nat :: i < n ==> (Creates(before, i, op) <==> Creates(txs, i, op));
    }
  }

  /** Spending distinct outpoints not taken before. */
  lemma {:induction false} SpendDistinct(e: NetEffect, ops: seq<OutPoint>)
    requires Distinct(ops) && Distinct(e.external) && forall op :: op in ops ==> op !in e.external
    ensures var e' := NetSpendAll(e, ops);
            && e'.created == e.created - Elements(ops)
            && Distinct(e'.external)
            && forall op :: op in e'.external <==> op in e.external || (op in ops && op !in e.created)
  {
    hide Distinct, NetSpend, Elements;
    if ops == [] {
      assert e.created - Elements(ops) == e.created by { NoElements(ops); }
    } else {
      var before, op := ops[..|ops| - 1], ops[|ops| - 1];
      assert ops == before + [op];
      PrefixOfDistinct(ops, before);
      assert forall x :: x in ops <==> x in before || x == op;
      SpendDistinct(e, before);
      DistinctAppend(before, op);
      SpendOne(NetSpendAll(e, before), op);
      OneLess(e.created, before, op);
    }
  }

  lemma NoElements(ops: seq<OutPoint>)
    requires ops == []
    ensures Elements(ops) == {}
  {}

  lemma OneLess(m: UtxoSet, before: seq<OutPoint>, op: OutPoint)
    ensures m - Elements(before) - {op} == m - Elements(before + [op])
    ensures op in m - Elements(before) <==> op in m && op !in before
  {}

  lemma SpendOne(e: NetEffect, op: OutPoint)
    requires Distinct(e.external) && op !in e.external
    ensures var e' := NetSpend(e, op);
            && e'.created == e.created - {op} && Distinct(e'.external)
            && forall x :: x in e'.external <==> x in e.external || (x == op && op !in e.created)
  {
    DistinctAppend(e.external, op);
  }

  /** In order, the net effect takes from outside only what nothing in the block creates. */
  lemma {:induction false} OrderedEffect(txs: seq<Transaction>)
    requires OrderOk(txs)
    ensures var e := NetBlock(txs);
            && Distinct(e.external)
            && (forall op :: op in e.external ==> op in InputsInOrder(txs) && !CreatedIn(txs, op))
            && (forall op :: CreatedIn(txs, op) ==> op in e.created || op in InputsInOrder(txs))
  {
    hide OrderOk, CreatedIn, Outputs;
    if txs == [] {
      NothingCreated();
    } else {
      OrderPrefix(txs);
      OrderedEffect(txs[..|txs| - 1]);
      LastInOrder(txs);
      SpendDistinct(NetBlock(txs[..|txs| - 1]), Inputs(txs[|txs| - 1]));
    }
  }

  lemma NothingCreated()
    ensures forall op :: !CreatedIn([], op)
  {}

  /** If in addition the external inputs are stored, applying the block succeeds. */
  lemma OrderedBlockApplies(m: UtxoSet, txs: seq<Transaction>)
    requires OrderOk(txs) && forall op :: UsedOutside(txs, |txs|, op) ==> op in m
    ensures ApplyBlock(m, txs).Ok?
  {
    hide OrderOk, NetBlock, Outputs;
    OrderedEffect(txs);
    forall op | op in NetBlock(txs).external ensures op in m {
      var t := InputPosition(txs, op);
      assert UsedOutside(txs, |txs|, op);
    }
  }
}
