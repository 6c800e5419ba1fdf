/** The total value of the UTXO set: what an accepted block does to it. */
module Supply {
  import opened Primitives
  import opened ChainTypes
  import opened UtxoProcessor
  import opened BlockRules
  import opened Ledger
  import opened BlockDag
  import opened BlockValidation
  import opened CanonicalChain

  ghost function TotalValue(m: UtxoSet): nat
  {
    if m == map[] then 0 else var op :| op in m; m[op].value + TotalValue(m - {op})
  }

  lemma {:induction false} RemoveOne(m: UtxoSet, op: OutPoint)
    requires op in m
    ensures TotalValue(m) == m[op].value + TotalValue(m - {op})
    decreases |m|
  {
    var x :| x in m && TotalValue(m) == m[x].value + TotalValue(m - {x});
    if x != op {
      RemoveOne(m - {x}, op);
      RemoveOne(m - {op}, x);
      assert m - {x} - {op} == m - {op} - {x};
    }
  }

  lemma AddOne(m: UtxoSet, op: OutPoint, u: Utxo)
    requires op !in m
    ensures TotalValue(m[op := u]) == TotalValue(m) + u.value
  {
    RemoveOne(m[op := u], op);
    assert m[op := u] - {op} == m;
  }

  lemma AddToUnion(m: UtxoSet, part: UtxoSet, op: OutPoint, u: Utxo)
    requires op !in m && op !in part
    ensures TotalValue(m + part[op := u]) == TotalValue(m + part) + u.value
  {
    AddOne(m + part, op, u);
    assert m + part[op := u] == (m + part)[op := u];
  }

  lemma {:induction false} AddOutputs(m: UtxoSet, data: TransactionData, n: nat)
    requires n <= |data.outputs| && forall op :: op in FirstOutputs(data, n) ==> op !in m
    ensures TotalValue(m + FirstOutputs(data, n)) == TotalValue(m) + OutputSum(data.outputs[..n])
  {
    hide TotalValue, FirstOutputs;
    if n == 0 {
      assert m + FirstOutputs(data, 0) == m;
    } else {
      var op := OutPoint(data.Hash(), n - 1);
      assert op in FirstOutputs(data, n) && op !in FirstOutputs(data, n - 1);
      AddOutputs(m, data, n - 1);
      LastOutput(data, n);
      AddToUnion(m, FirstOutputs(data, n - 1), op, OutputUtxo(data, n - 1));
      assert data.outputs[..n][..n - 1] == data.outputs[..n - 1];
    }
  }

  lemma {:induction false} LastOutput(data: TransactionData, n: nat)
    requires 0 < n <= |data.outputs|
    ensures FirstOutputs(data, n) ==
            FirstOutputs(data, n - 1)[OutPoint(data.Hash(), n - 1) := OutputUtxo(data, n - 1)]
  {
  }

  lemma {:induction false} RemoveInputs(m: UtxoSet, ops: seq<OutPoint>)
    requires Distinct(ops) && forall op :: op in ops ==> op in m
    ensures TotalValue(m - Elements(ops)) + InputSum(m, ops) == TotalValue(m)
  {
    if ops == [] {
      assert m - Elements(ops) == m;
    } else {
      var before, op := ops[..|ops| - 1], ops[|ops| - 1];
      assert ops == before + [op];
      DistinctAppend(before, op);
      RemoveInputs(m, before);
      RemoveOne(m - Elements(before), op);
      assert m - Elements(before) - {op} == m - Elements(ops);
    }
  }

  function AllOutputs(txs: seq<Transaction>): UtxoSet
  {
    if txs == [] then map[] else AllOutputs(txs[..|txs| - 1]) + Outputs(txs[|txs| - 1])
  }

  function TotalOut(txs: seq<Transaction>): nat
  {
    if txs == [] then 0 else TotalOut(txs[..|txs| - 1]) + OutputSum(txs[|txs| - 1].data.outputs)
  }

  /** Value the non-payments create. */
  function Minted(txs: seq<Transaction>): nat
  {
    if txs == [] then 0
    else
      var tx := txs[|txs| - 1];
      Minted(txs[..|txs| - 1]) + (if tx.data.kind.Payment? then 0 else OutputSum(tx.data.outputs))
  }

  lemma {:induction false} AllOutputsCreated(txs: seq<Transaction>)
    ensures forall op :: op in AllOutputs(txs) <==> CreatedIn(txs, op)
  {
    hide Outputs;
    if txs == [] {
      NothingCreated();
    } else {
      var n := |txs| - 1;
      AllOutputsCreated(txs[..n]);
      forall op ensures CreatedIn(txs, op) <==> CreatedIn(txs[..n], op) || op in Outputs(txs[n]) {
        assert Creates(txs, n, op) <==> op in Outputs(txs[n]);
        assert forall i: nat :: i < n ==> (Creates(txs[..n], i, op) <==> Creates(txs, i, op));
      }
    }
  }

  lemma AddOutputsOf(m: UtxoSet, part: UtxoSet, tx: Transaction)
    requires forall op :: op in Outputs(tx) ==> op !in m && op !in part
    ensures TotalValue(m + (part + Outputs(tx))) == TotalValue(m + part) + OutputSum(tx.data.outputs)
  {
    AddOutputs(m + part, tx.data, |tx.data.outputs|);
    assert tx.data.outputs[..|tx.data.outputs|] == tx.data.outputs;
    hide *;
    UnionAssociates(m, part, Outputs(tx));
  }

  lemma UnionAssociates(a: UtxoSet, b: UtxoSet, c: UtxoSet)
    ensures a + (b + c) == a + b + c
  {}

  lemma {:induction false} AddAllOutputs(m: UtxoSet, txs: seq<Transaction>)
    requires OrderOk(txs) && forall op :: op in AllOutputs(txs) ==> op !in m
    ensures TotalValue(m + AllOutputs(txs)) == TotalValue(m) + TotalOut(txs)
  {
    hide OrderOk, CreatedIn, Outputs, TotalValue, OutputSum, InputsOf, InputsInOrder;
    if txs == [] {
      assert m + AllOutputs(txs) == m;
    } else {
      var before := txs[..|txs| - 1];
      OrderPrefix(txs);
      LastInOrder(txs);
      AllOutputsCreated(before);
      AddAllOutputs(m, before);
      AddOutputsOf(m, AllOutputs(before), txs[|txs| - 1]);
    }
  }

  // ---------------------------------------------------------------- accepted blocks

  /** No transaction uses an output of the same block. */
  ghost predicate Independent(txs: seq<Transaction>)
  {
    forall t: nat, s: nat :: !DependsOn(txs, t, s)
  }

  /** The validator never records the outputs of the block it is checking, so a payment that
      spends one of them is always rejected: accepted blocks have a single layer. */
  lemma AcceptedIndependent(b: Block, c: GenesisState, m: UtxoSet, recover: Recover)
    requires CompositionOk(b) && Accepts(b, c, m, recover)
    ensures Independent(b.txs)
    ensures forall t :: 0 <= t < |b.txs| ==> Level(b.txs, t) == 0
    ensures forall op :: op in SpentInOrder(b.txs) ==> op in m && !CreatedIn(b.txs, op)
  {
    hide Level, RewardOk, OrderOk, ValueRuleOk;
    var txs := b.txs;
    forall t: nat | t < |txs| ensures forall op :: op in InputsOf(txs[t]) ==> UsedOutside(txs, |txs|, op) {
      InputsResolved(txs, t, m, recover);
    }
    forall t: nat | t < |txs| ensures Level(txs, t) == 0 { LevelBounds(txs, t); }
    forall op | op in SpentInOrder(txs) ensures op in m && !CreatedIn(txs, op) {
      var t := SpenderPosition(txs, op);
    }
  }

  lemma InputsResolved(txs: seq<Transaction>, t: nat, m: UtxoSet, recover: Recover)
    requires t < |txs| && TxOk(Managed(m, txs), txs[t], recover)
    ensures forall op :: op in InputsOf(txs[t]) ==> UsedOutside(txs, |txs|, op)
  {}

  lemma {:induction false} SpenderPosition(txs: seq<Transaction>, op: OutPoint) returns (t: nat)
    requires op in SpentInOrder(txs)
    ensures t < |txs| && op in Inputs(txs[t]) && op in InputsOf(txs[t])
  {
    if op in Inputs(txs[|txs| - 1]) {
      t := |txs| - 1;
    } else {
      t := SpenderPosition(txs[..|txs| - 1], op);
    }
  }

  lemma {:induction false} SpendNothingCreated(e: NetEffect, ops: seq<OutPoint>)
    requires forall op :: op in ops ==> op !in e.created
    ensures NetSpendAll(e, ops) == NetEffect(e.created, e.external + ops)
  {
    if ops == [] {
      assert e.external + ops == e.external;
    } else {
      SpendNothingCreated(e, ops[..|ops| - 1]);
      assert e.external + ops[..|ops| - 1] + [ops[|ops| - 1]] == e.external + ops;
    }
  }

  lemma {:induction false} IndependentEffect(txs: seq<Transaction>)
    requires forall op :: op in SpentInOrder(txs) ==> op !in AllOutputs(txs)
    ensures NetBlock(txs) == NetEffect(AllOutputs(txs), SpentInOrder(txs))
  {
    hide Outputs, Inputs, NetSpendAll;
    if txs != [] {
      var before, tx := txs[..|txs| - 1], txs[|txs| - 1];
      assert SpentInOrder(txs) == SpentInOrder(before) + Inputs(tx);
      assert AllOutputs(txs) == AllOutputs(before) + Outputs(tx);
      IndependentEffect(before);
      SpendNothingCreated(NetBlock(before), Inputs(tx));
    }
  }

  lemma {:induction false} InputSumAppend(m: UtxoSet, xs: seq<OutPoint>, ys: seq<OutPoint>)
    requires forall op :: op in xs + ys ==> op in m
    ensures (forall op :: op in xs ==> op in m) && (forall op :: op in ys ==> op in m)
    ensures InputSum(m, xs + ys) == InputSum(m, xs) + InputSum(m, ys)
  {
    assert forall op :: op in xs || op in ys ==> op in xs + ys;
    if ys == [] {
      assert xs + ys == xs;
    } else {
      assert (xs + ys)[..|xs + ys| - 1] == xs + ys[..|ys| - 1];
      InputSumAppend(m, xs, ys[..|ys| - 1]);
    }
  }

  lemma {:induction false} InputSumOfPart(m: UtxoSet, part: UtxoSet, ops: seq<OutPoint>)
    requires forall op :: op in ops ==> op in part && op in m && part[op] == m[op]
    ensures InputSum(part, ops) == InputSum(m, ops)
  {
    if ops != [] { InputSumOfPart(m, part, ops[..|ops| - 1]); }
  }

  /** Fees are exactly what the payments take in and do not give out. */
  lemma {:induction false} FeeBalance(m: UtxoSet, txs: seq<Transaction>)
    requires FeeTotal(m, txs).Some?
    ensures forall op :: op in SpentInOrder(txs) ==> op in m
    ensures FeeTotal(m, txs).value + TotalOut(txs) == InputSum(m, SpentInOrder(txs)) + Minted(txs)
  {
    hide InputSum, OutputSum;
    if txs == [] {
      NoInputs(m);
    } else {
      var before, tx := txs[..|txs| - 1], txs[|txs| - 1];
      FeeBalance(m, before);
      if tx.data.kind.Payment? {
        InputSumAppend(m, SpentInOrder(before), Inputs(tx));
      } else {
        assert SpentInOrder(txs) == SpentInOrder(before);
      }
    }
  }

  lemma {:induction false} NoInputs(m: UtxoSet)
    ensures InputSum(m, []) == 0
  {}

  lemma {:induction false} MintedByFirst(txs: seq<Transaction>)
    requires txs != [] && !txs[0].data.kind.Payment?
    requires forall i :: 1 <= i < |txs| ==> txs[i].data.kind.Payment?
    ensures Minted(txs) == OutputSum(txs[0].data.outputs)
  {
    hide OutputSum;
    if |txs| == 1 {
      assert Minted(txs[..0]) == 0;
    } else {
      MintedByFirst(txs[..|txs| - 1]);
    }
  }

  lemma {:induction false} OneOutputSum(outs: seq<TransactionOut>)
    requires |outs| == 1
    ensures OutputSum(outs) == outs[0].value
  {
    assert OutputSum(outs[..0]) == 0;
  }

  /** Applying an accepted block: its payments' inputs out, all of its outputs in. */
  lemma {:induction false} AcceptedEffect(b: Block, c: GenesisState, m: UtxoSet, recover: Recover)
    requires CompositionOk(b) && Accepts(b, c, m, recover)
    ensures ApplyBlock(m, b.txs).Ok?
    ensures ApplyBlock(m, b.txs).value.utxos == m - Elements(SpentInOrder(b.txs)) + AllOutputs(b.txs)
    ensures NetBlock(b.txs) == NetEffect(AllOutputs(b.txs), SpentInOrder(b.txs))
    ensures Distinct(SpentInOrder(b.txs))
  {
    OrderedBlockApplies(m, b.txs);
    AcceptedIndependent(b, c, m, recover);
    AllOutputsCreated(b.txs);
    hide AllOutputs, SpentInOrder, NetBlock, Accepts, CreatedIn, CompositionOk, Restrict;
    IndependentEffect(b.txs);
  }

  lemma {:induction false} AcceptedFees(b: Block, c: GenesisState, m: UtxoSet, recover: Recover)
    requires CompositionOk(b) && !b.header.IsGenesis() && Accepts(b, c, m, recover)
    ensures |b.txs[0].data.outputs| == 1 && FeeTotal(Managed(m, b.txs), b.txs).Some?
    ensures forall op :: op in SpentInOrder(b.txs) ==> op in m
    ensures FeeTotal(Managed(m, b.txs), b.txs).value + TotalOut(b.txs) ==
            InputSum(m, SpentInOrder(b.txs)) + b.txs[0].data.outputs[0].value
    ensures b.txs[0].data.outputs[0].value <=
            BlockSubsidy(c, b.header.height) + FeeTotal(Managed(m, b.txs), b.txs).value
  {
    var managed := Managed(m, b.txs);
    assert TxOk(managed, b.txs[0], recover);
    hide ValueRuleOk, TxOk, FeeTotal, TotalOut, Minted, InputSum, SpentInOrder, OrderOk, BlockSubsidy, UsedOutside;
    FeeBalance(managed, b.txs);
    InputSumOfPart(m, managed, SpentInOrder(b.txs));
    MintedByFirst(b.txs);
    OneOutputSum(b.txs[0].data.outputs);
  }

  /** An accepted block that overwrites nothing changes the total value by its coinbase less
      its fees, so by at most its subsidy. */
  lemma {:induction false} ValueConserved(b: Block, c: GenesisState, m: UtxoSet, recover: Recover)
    requires CompositionOk(b) && !b.header.IsGenesis() && Accepts(b, c, m, recover)
    requires OverwritesNothing(m, b.txs)
    ensures ApplyBlock(m, b.txs).Ok? && |b.txs[0].data.outputs| == 1 && FeeTotal(Managed(m, b.txs), b.txs).Some?
    ensures var after, fees := ApplyBlock(m, b.txs).value.utxos, FeeTotal(Managed(m, b.txs), b.txs).value;
            && TotalValue(after) + fees == TotalValue(m) + b.txs[0].data.outputs[0].value
            && TotalValue(after) <= TotalValue(m) + BlockSubsidy(c, b.header.height)
  {
    hide TotalValue, FeeTotal, TotalOut, InputSum, AllOutputs, SpentInOrder, BlockSubsidy, NetBlock, ApplyBlock,
      Managed;
    AcceptedEffect(b, c, m, recover);
    AcceptedFees(b, c, m, recover);
    RemoveInputs(m, SpentInOrder(b.txs));
    AddAllOutputs(m - Elements(SpentInOrder(b.txs)), b.txs);
  }

  // ---------------------------------------------------------------- chains

  /** Subsidies of the heights 1 up to n - 1. */
  function Emission(c: GenesisState, n: nat): nat
    requires n <= U64_MAX + 1
  {
    if n <= 1 then 0 else Emission(c, n - 1) + BlockSubsidy(c, n - 1)
  }

  /** Above genesis every block was accepted against the set its parent left. */
  ghost predicate ChainAccepted(chain: seq<Block>, c: GenesisState, recover: Recover)
  {
    forall n :: 1 <= n < |chain| ==>
      Replay(chain[..n]).Ok? && AcceptedAfter(chain[n], c, Replay(chain[..n]).value.utxos, recover)
  }

  ghost predicate AcceptedAfter(b: Block, c: GenesisState, m: UtxoSet, recover: Recover)
  {
    CompositionOk(b) && Accepts(b, c, m, recover)
  }

  lemma {:induction false} GenesisEffect(g: Block)
    requires GenesisOk(g)
    ensures Replay([g]).Ok? && Replay([g]).value.utxos == Outputs(g.txs[0])
  {
    hide AllocationsOk, Outputs, NetBlock, ApplyBlock;
    GenesisUtxos(g);
    assert [g][..0] == [];
    assert ApplyBlocks(map[], [g][..0]) == Ok(Branch(map[], []));
  }

  lemma {:induction false} GenesisValue(g: Block)
    requires GenesisOk(g)
    ensures Replay([g]).Ok? && TotalValue(Replay([g]).value.utxos) == OutputSum(g.txs[0].data.outputs)
  {
    GenesisEffect(g);
    hide TotalValue, OutputSum, FirstOutputs, Replay, GenesisOk;
    var none: UtxoSet := map[];
    AddOutputsOf(none, none, g.txs[0]);
    EmptyValue();
    UnionAssociates(none, none, Outputs(g.txs[0]));
    assert none + Outputs(g.txs[0]) == Outputs(g.txs[0]);
  }

  lemma EmptyValue()
    ensures TotalValue(map[]) == 0
    ensures var none: UtxoSet := map[]; none + none == none
  {}

  lemma {:induction false} SupplyStep(chain: seq<Block>, n: nat, c: GenesisState, recover: Recover)
    requires WellFormedChain(chain) && ChainAccepted(chain, c, recover) && 1 <= n < |chain|
    requires Replay(chain[..n + 1]).Ok?
    ensures Replay(chain[..n]).Ok?
    ensures TotalValue(Replay(chain[..n + 1]).value.utxos)
            <= TotalValue(Replay(chain[..n]).value.utxos) + BlockSubsidy(c, chain[n].header.height)
  {
    hide WellFormed, GenesisOk, TotalValue, Accepts, BlockSubsidy, CompositionOk, OverwritesNothing, ApplyBlock,
      UniqueIds, AllTxs, ApplyBlocks;
    AllTxsPrefix(chain, n + 1);
    UniquePrefix(AllTxs(chain), AllTxs(chain[..n + 1]));
    var longer, m := chain[..n + 1], Replay(chain[..n]).value.utxos;
    assert longer[..n] == chain[..n];
    LastUndo(map[], longer);
    TipOverwritesNothing(longer);
    assert WellFormed(chain[n]);
    NotGenesis(chain[n]);
    ValueConserved(chain[n], c, m, recover);
  }

  /** The money supply: never more than the genesis allocations and the subsidies so far. */
  lemma {:induction false} SupplyBound(chain: seq<Block>, n: nat, c: GenesisState, recover: Recover)
    requires WellFormedChain(chain) && ChainAccepted(chain, c, recover)
    requires 1 <= n <= |chain| && Replay(chain[..n]).Ok?
    ensures n <= U64_MAX + 1
    ensures TotalValue(Replay(chain[..n]).value.utxos) <= OutputSum(chain[0].txs[0].data.outputs) + Emission(c, n)
  {
    hide WellFormed, GenesisOk, TotalValue, ChainAccepted, OutputSum, BlockSubsidy, Replay;
    assert chain[n - 1].header.height == n - 1;
    if n == 1 {
      assert chain[..1] == [chain[0]];
      GenesisValue(chain[0]);
    } else {
      SupplyStep(chain, n - 1, c, recover);
      SupplyBound(chain, n - 1, c, recover);
    }
  }
}
