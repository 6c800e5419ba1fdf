/** Applying a block to the UTXO set through its net effect, and undoing it. */
module UtxoProcessor {
  import opened Primitives
  import opened ChainTypes

  type UtxoSet = map<OutPoint, Utxo>

  // ---------------------------------------------------------------- net effect

  /** Outputs the block leaves behind, and the inputs it takes from outside, in order. */
  datatype NetEffect = NetEffect(created: UtxoSet, external: seq<OutPoint>)

  function OutputUtxo(data: TransactionData, vout: nat): Utxo
    requires vout < |data.outputs|
  {
    Utxo(data.Hash(), vout, data.outputs[vout].value, data.outputs[vout].recipient)
  }

  /** The first n outputs of a transaction, keyed by outpoint. */
  function FirstOutputs(data: TransactionData, n: nat): (m: UtxoSet)
    requires n <= |data.outputs|
    ensures forall op :: op in m <==> op.txid == data.Hash() && op.vout < n
    ensures forall op :: op in m ==> m[op] == OutputUtxo(data, op.vout)
  {
    if n == 0 then map[]
    else FirstOutputs(data, n - 1)[OutPoint(data.Hash(), n - 1) := OutputUtxo(data, n - 1)]
  }

  function Outputs(tx: Transaction): UtxoSet { FirstOutputs(tx.data, |tx.data.outputs|) }

  /** The outpoints a transaction spends: only payments spend. */
  function Inputs(tx: Transaction): (ops: seq<OutPoint>)
  {
    if tx.data.kind.Payment?
    then seq(|tx.data.inputs|, i requires 0 <= i < |tx.data.inputs| => tx.data.inputs[i].previousOutput)
    else []
  }

  /** An output created in the block and spent in it leaves no trace. */
  function NetSpend(e: NetEffect, op: OutPoint): NetEffect
  {
    if op in e.created then e.(created := e.created - {op}) else e.(external := e.external + [op])
  }

  function NetSpendAll(e: NetEffect, ops: seq<OutPoint>): NetEffect
  {
    if ops == [] then e else NetSpend(NetSpendAll(e, ops[..|ops| - 1]), ops[|ops| - 1])
  }

  function NetTx(e: NetEffect, tx: Transaction): NetEffect
  {
    var spent := NetSpendAll(e, Inputs(tx));
    spent.(created := spent.created + Outputs(tx))
  }

  function NetBlock(txs: seq<Transaction>): NetEffect
  {
    if txs == [] then NetEffect(map[], []) else NetTx(NetBlock(txs[..|txs| - 1]), txs[|txs| - 1])
  }

  /** The external inputs are live in m and none is taken twice. */
  ghost predicate Available(m: UtxoSet, e: NetEffect)
  {
    Distinct(e.external) && forall op :: op in e.external ==> op in m
  }

  function Restrict(m: UtxoSet, ops: set<OutPoint>): UtxoSet
  {
    map op | op in m && op in ops :: m[op]
  }

  // ---------------------------------------------------------------- apply and rewind

  datatype Applied = Applied(utxos: UtxoSet, undo: BlockUndo)

  ghost function ApplyBlock(m: UtxoSet, txs: seq<Transaction>): Result<Applied, StorageError>
  {
    var e := NetBlock(txs);
    var taken := Elements(e.external);
    if Available(m, e)
    then Ok(Applied(m - taken + e.created, BlockUndo(Restrict(m, taken), e.created.Keys)))
    else Err(UtxoNotFound)
  }

  /** Remove the outputs first, so an outpoint both created and spent ends restored. */
  function RewindBlock(m: UtxoSet, undo: BlockUndo): Result<UtxoSet, StorageError>
  {
    if undo.created <= m.Keys then Ok(m - undo.created + undo.spent) else Err(UtxoNotFound)
  }

  // ---------------------------------------------------------------- the loops of apply_block

  /** First loop of apply_block: one pass that accumulates the net effect. */
  method ComputeNetEffect(txs: seq<Transaction>) returns (e: NetEffect)
    ensures e == NetBlock(txs)
  {
    e := NetEffect(map[], []);
    for i := 0 to |txs|
      invariant e == NetBlock(txs[..i])
    {
      assert txs[..i + 1][..i] == txs[..i];
      e := AccumulateTx(e, txs[i]);
    }
    assert txs[..|txs|] == txs;
  }

  method AccumulateTx(e: NetEffect, tx: Transaction) returns (r: NetEffect)
    ensures r == NetTx(e, tx)
  {
    r := e;
    if tx.data.kind.Payment? {
      r := AccumulateInputs(r, tx);
    }
    var created := AccumulateOutputs(r.created, tx.data);
    r := NetEffect(created, r.external);
  }

  method AccumulateInputs(e: NetEffect, tx: Transaction) returns (r: NetEffect)
    requires tx.data.kind.Payment?
    ensures r == NetSpendAll(e, Inputs(tx))
  {
    ghost var ops := Inputs(tx);
    var created, external := e.created, e.external;
    for k := 0 to |tx.data.inputs|
      invariant NetEffect(created, external) == NetSpendAll(e, ops[..k])
    {
      var op := tx.data.inputs[k].previousOutput;
      assert ops[..k + 1][..k] == ops[..k];
      if op in created {
        created := created - {op};
      } else {
        external := external + [op];
      }
    }
    assert ops[..|ops|] == ops;
    r := NetEffect(created, external);
  }

  lemma {:induction false} OneMoreOutput(before: UtxoSet, data: TransactionData, vout: nat)
    requires vout < |data.outputs|
    ensures (before + FirstOutputs(data, vout))[OutPoint(data.Hash(), vout) := OutputUtxo(data, vout)]
            == before + FirstOutputs(data, vout + 1)
  {
    var part, op, u := FirstOutputs(data, vout), OutPoint(data.Hash(), vout), OutputUtxo(data, vout);
    assert FirstOutputs(data, vout + 1) == part[op := u];
    hide *;
    PutAfterUnion(before, part, op, u);
  }

  lemma PutAfterUnion(m: UtxoSet, part: UtxoSet, op: OutPoint, u: Utxo)
    ensures (m + part)[op := u] == m + part[op := u]
  {}

  method AccumulateOutputs(before: UtxoSet, data: TransactionData) returns (created: UtxoSet)
    ensures created == before + FirstOutputs(data, |data.outputs|)
  {
    created := before;
    for vout := 0 to |data.outputs|
      invariant created == before + FirstOutputs(data, vout)
    {
      OneMoreOutput(before, data, vout);
      hide *;
      created := created[OutPoint(data.Hash(), vout) := OutputUtxo(data, vout)];
    }
  }

  /** Second loop of apply_block: draining the fetched entries finds a repeated input. */
  method DrainSpent(existing: UtxoSet, external: seq<OutPoint>) returns (r: Result<UtxoSet, StorageError>)
    requires forall op :: op in external ==> op in existing
    ensures r.Ok? <==> Distinct(external)
    ensures r.Ok? ==> r.value == Restrict(existing, Elements(external))
    ensures r.Err? ==> r.error == UtxoNotFound
  {
    var left := existing;
    var spent: UtxoSet := map[];
    for i := 0 to |external|
      invariant Distinct(external[..i])
      invariant left == existing - Elements(external[..i])
      invariant spent == Restrict(existing, Elements(external[..i]))
    {
      var op := external[i];
      assert external[..i + 1] == external[..i] + [op];
      DistinctAppend(external[..i], op);
      if op !in left {
        assert !Distinct(external[..i + 1]);
        return Err(UtxoNotFound);
      }
      spent := spent[op := left[op]];
      left := left - {op};
    }
    assert external[..|external|] == external;
    r := Ok(spent);
  }

  // ---------------------------------------------------------------- per-transaction reference

  /** Spend one outpoint after another, failing on the first that is not live. */
  function FoldSpend(m: UtxoSet, ops: seq<OutPoint>): Option<UtxoSet>
  {
    if ops == [] then Some(m)
    else match FoldSpend(m, ops[..|ops| - 1])
         case None => None
         case Some(left) => var op := ops[|ops| - 1]; if op in left then Some(left - {op}) else None
  }

  function FoldTx(m: UtxoSet, tx: Transaction): Option<UtxoSet>
  {
    match FoldSpend(m, Inputs(tx))
    case None => None
    case Some(left) => Some(left + Outputs(tx))
  }

  /** The obvious meaning of a block: its transactions one at a time. */
  function FoldBlock(m: UtxoSet, txs: seq<Transaction>): Option<UtxoSet>
  {
    if txs == [] then Some(m)
    else match FoldBlock(m, txs[..|txs| - 1])
         case None => None
         case Some(left) => FoldTx(left, txs[|txs| - 1])
  }

  /** A transaction's outputs are not live at the moment it adds them. */
  ghost predicate FreshOutputs(m: UtxoSet, tx: Transaction)
  {
    var left := FoldSpend(m, Inputs(tx));
    left.Some? ==> Outputs(tx).Keys !! left.value.Keys
  }

  /** No transaction of the fold overwrites a live outpoint. */
  ghost predicate NoOverwrite(m: UtxoSet, txs: seq<Transaction>)
  {
    txs == [] ||
    var before := txs[..|txs| - 1];
    && NoOverwrite(m, before)
    && (FoldBlock(m, before).Some? ==> FreshOutputs(FoldBlock(m, before).value, txs[|txs| - 1]))
  }

  /** The set a net effect stands for, relative to the set it started from. */
  function Realize(m: UtxoSet, e: NetEffect): UtxoSet { m - Elements(e.external) + e.created }

  ghost predicate Separate(m: UtxoSet, e: NetEffect)
  {
    e.created.Keys !! m.Keys - Elements(e.external)
  }

  lemma SpendStep(m: UtxoSet, e: NetEffect, op: OutPoint)
    requires Available(m, e) && Separate(m, e)
    ensures op in Realize(m, e) <==> Available(m, NetSpend(e, op))
    ensures op in Realize(m, e) ==>
              && Separate(m, NetSpend(e, op))
              && Realize(m, NetSpend(e, op)) == Realize(m, e) - {op}
  {
    DistinctAppend(e.external, op);
    var e' := NetSpend(e, op);
    if op !in e.created {
      assert Elements(e'.external) == Elements(e.external) + {op};
      assert Distinct(e'.external) <==> op !in e.external;
    }
  }

  lemma {:induction false} UnavailableForever(m: UtxoSet, e: NetEffect, ops: seq<OutPoint>)
    requires !Available(m, e)
    ensures !Available(m, NetSpendAll(e, ops))
  {
    if ops != [] {
      UnavailableForever(m, e, ops[..|ops| - 1]);
      var e1, op := NetSpendAll(e, ops[..|ops| - 1]), ops[|ops| - 1];
      DistinctAppend(e1.external, op);
      if op !in e1.created {
        assert forall x :: x in e1.external ==> x in e1.external + [op];
      }
    }
  }

  lemma {:induction false} SpendAllSteps(m: UtxoSet, e: NetEffect, ops: seq<OutPoint>)
    requires Available(m, e) && Separate(m, e)
    ensures var r, e' := FoldSpend(Realize(m, e), ops), NetSpendAll(e, ops);
            && (r.Some? <==> Available(m, e'))
            && (r.Some? ==> Separate(m, e') && r.value == Realize(m, e'))
  {
    if ops != [] {
      var before, op := ops[..|ops| - 1], ops[|ops| - 1];
      SpendAllSteps(m, e, before);
      if FoldSpend(Realize(m, e), before).Some? {
        SpendStep(m, NetSpendAll(e, before), op);
      } else {
        UnavailableForever(m, NetSpendAll(e, before), [op]);
        assert [op][..0] == [];
      }
    }
  }

  lemma OutputsStep(m: UtxoSet, e: NetEffect, outs: UtxoSet)
    ensures Realize(m, e) + outs == Realize(m, e.(created := e.created + outs))
    ensures Available(m, e) ==> Available(m, e.(created := e.created + outs))
    ensures Separate(m, e) && outs.Keys !! Realize(m, e).Keys ==> Separate(m, e.(created := e.created + outs))
  {}

  lemma TxStep(m: UtxoSet, e: NetEffect, tx: Transaction)
    requires Available(m, e) && Separate(m, e)
    ensures var r, e' := FoldTx(Realize(m, e), tx), NetTx(e, tx);
            && (r.Some? <==> Available(m, e'))
            && (r.Some? ==> r.value == Realize(m, e'))
            && (r.Some? && FreshOutputs(Realize(m, e), tx) ==> Separate(m, e'))
  {
    SpendAllSteps(m, e, Inputs(tx));
    var spent := NetSpendAll(e, Inputs(tx));
    OutputsStep(m, spent, Outputs(tx));
  }

  /** While nothing live is overwritten the accumulated net effect stands for the folded set. */
  lemma {:induction false} NetTracksFold(m: UtxoSet, txs: seq<Transaction>)
    requires NoOverwrite(m, txs)
    ensures var r, e := FoldBlock(m, txs), NetBlock(txs);
            && (r.Some? <==> Available(m, e))
            && (r.Some? ==> Separate(m, e) && r.value == Realize(m, e))
  {
    if txs == [] {
      assert Realize(m, NetBlock(txs)) == m;
    } else {
      var before, tx := txs[..|txs| - 1], txs[|txs| - 1];
      NetTracksFold(m, before);
      if FoldBlock(m, before).Some? {
        TxStep(m, NetBlock(before), tx);
      } else {
        UnavailableForever(m, NetBlock(before), Inputs(tx));
      }
    }
  }

  /** apply_block refines the fold: same success, same final set. */
  lemma {:induction false} ApplyRefinesFold(m: UtxoSet, txs: seq<Transaction>)
    requires NoOverwrite(m, txs)
    ensures ApplyBlock(m, txs).Ok? <==> FoldBlock(m, txs).Some?
    ensures ApplyBlock(m, txs).Ok? ==> ApplyBlock(m, txs).value.utxos == FoldBlock(m, txs).value
  {
    NetTracksFold(m, txs);
  }

  // ---------------------------------------------------------------- undo

  /** The guard a caller can evaluate before applying: no output that survives the block
      lands on a live outpoint the block does not itself spend. */
  ghost predicate OverwritesNothing(m: UtxoSet, txs: seq<Transaction>)
  {
    var e := NetBlock(txs);
    forall op :: op in e.created && op in m ==> op in e.external
  }

  /** Rewinding always succeeds, and restores the set exactly when nothing live was overwritten. */
  lemma RewindRestoresIff(m: UtxoSet, txs: seq<Transaction>)
    requires ApplyBlock(m, txs).Ok?
    ensures var a := ApplyBlock(m, txs).value;
            && RewindBlock(a.utxos, a.undo).Ok?
            && (RewindBlock(a.utxos, a.undo) == Ok(m) <==> OverwritesNothing(m, txs))
  {
    var a, e := ApplyBlock(m, txs).value, NetBlock(txs);
    var back := RewindBlock(a.utxos, a.undo).value;
    if OverwritesNothing(m, txs) {
      assert back.Keys == m.Keys;
      assert back == m;
    } else {
      var op :| op in e.created && op in m && op !in e.external;
      assert op !in back;
    }
  }

  lemma {:induction false} NoOverwriteOverwritesNothing(m: UtxoSet, txs: seq<Transaction>)
    requires NoOverwrite(m, txs) && ApplyBlock(m, txs).Ok?
    ensures OverwritesNothing(m, txs)
  {
    NetTracksFold(m, txs);
  }

  /** Applying blocks in order, keeping every undo record. */
  datatype Branch = Branch(utxos: UtxoSet, undos: seq<BlockUndo>)

  ghost function ApplyBlocks(m: UtxoSet, blocks: seq<Block>): Result<Branch, StorageError>
  {
    if blocks == [] then Ok(Branch(m, []))
    else
      var before :- ApplyBlocks(m, blocks[..|blocks| - 1]);
      var a :- ApplyBlock(before.utxos, blocks[|blocks| - 1].txs);
      Ok(Branch(a.utxos, before.undos + [a.undo]))
  }

  /** Rewinding with the undo records, last first. */
  function RewindBlocks(m: UtxoSet, undos: seq<BlockUndo>): Result<UtxoSet, StorageError>
    decreases |undos|
  {
    if undos == [] then Ok(m)
    else
      var back :- RewindBlock(m, undos[|undos| - 1]);
      RewindBlocks(back, undos[..|undos| - 1])
  }

  ghost predicate BranchOverwritesNothing(m: UtxoSet, blocks: seq<Block>)
  {
    blocks == [] ||
    var before := blocks[..|blocks| - 1];
    && BranchOverwritesNothing(m, before)
    && (ApplyBlocks(m, before).Ok? ==>
          OverwritesNothing(ApplyBlocks(m, before).value.utxos, blocks[|blocks| - 1].txs))
  }

  lemma {:induction false} LastUndo(m: UtxoSet, blocks: seq<Block>)
    requires blocks != [] && ApplyBlocks(m, blocks).Ok?
    ensures var b, a := ApplyBlocks(m, blocks[..|blocks| - 1]).value, ApplyBlocks(m, blocks).value;
            && ApplyBlocks(m, blocks[..|blocks| - 1]).Ok?
            && ApplyBlock(b.utxos, blocks[|blocks| - 1].txs).Ok?
            && var last := ApplyBlock(b.utxos, blocks[|blocks| - 1].txs).value;
               && a.utxos == last.utxos && a.undos != []
               && a.undos[|a.undos| - 1] == last.undo && a.undos[..|a.undos| - 1] == b.undos
  {
    hide ApplyBlock;
  }

  lemma {:induction false} RewindUnfolds(m: UtxoSet, undos: seq<BlockUndo>)
    requires undos != []
    ensures var back := RewindBlock(m, undos[|undos| - 1]);
            RewindBlocks(m, undos) ==
            if back.Ok? then RewindBlocks(back.value, undos[..|undos| - 1]) else Err(back.error)
  {
    hide RewindBlock;
  }

  /** Undoing a block brings no outpoint back that the block did not spend. */
  lemma LostStep(m: UtxoSet, txs: seq<Transaction>, from: UtxoSet, op: OutPoint)
    requires ApplyBlock(m, txs).Ok? && op in ApplyBlock(m, txs).value.utxos && op !in from
    ensures var back := RewindBlock(from, ApplyBlock(m, txs).value.undo);
            back.Ok? ==> op in m && op !in back.value
  {}

  /** An outpoint lost on the way back stays lost: no rewind from there ends at m. */
  lemma {:induction false} LostStaysLost(m: UtxoSet, blocks: seq<Block>, from: UtxoSet, op: OutPoint)
    requires ApplyBlocks(m, blocks).Ok? && op in ApplyBlocks(m, blocks).value.utxos && op !in from
    ensures RewindBlocks(from, ApplyBlocks(m, blocks).value.undos) != Ok(m)
  {
    if blocks == [] {
      assert ApplyBlocks(m, blocks).value == Branch(m, []);
    } else {
      hide ApplyBlocks, ApplyBlock, RewindBlock, RewindBlocks;
      LastUndo(m, blocks);
      var before, undos := blocks[..|blocks| - 1], ApplyBlocks(m, blocks).value.undos;
      RewindUnfolds(from, undos);
      LostStep(ApplyBlocks(m, before).value.utxos, blocks[|blocks| - 1].txs, from, op);
      var back := RewindBlock(from, undos[|undos| - 1]);
      if back.Ok? { LostStaysLost(m, before, back.value, op); }
    }
  }

  /** Rewinding a whole branch, last block first, restores the set it started from exactly
      when no block of the branch overwrote a live outpoint. */
  lemma {:induction false} RewindBlocksRestoresIff(m: UtxoSet, blocks: seq<Block>)
    requires ApplyBlocks(m, blocks).Ok?
    ensures var a := ApplyBlocks(m, blocks).value;
            RewindBlocks(a.utxos, a.undos) == Ok(m) <==> BranchOverwritesNothing(m, blocks)
  {
    if blocks != [] {
      LastUndo(m, blocks);
      var before, txs := blocks[..|blocks| - 1], blocks[|blocks| - 1].txs;
      var b := ApplyBlocks(m, before).value;
      RewindRestoresIff(b.utxos, txs);
      RewindBlocksRestoresIff(m, before);
      if !OverwritesNothing(b.utxos, txs) {
        var op := OverwrittenIsLost(b.utxos, txs);
        var a := ApplyBlock(b.utxos, txs).value;
        LostStaysLost(m, before, RewindBlock(a.utxos, a.undo).value, op);
      }
    }
  }

  lemma OverwrittenIsLost(m: UtxoSet, txs: seq<Transaction>) returns (op: OutPoint)
    requires ApplyBlock(m, txs).Ok? && !OverwritesNothing(m, txs)
    ensures var a := ApplyBlock(m, txs).value;
            op in m && (RewindBlock(a.utxos, a.undo).Ok? ==> op !in RewindBlock(a.utxos, a.undo).value)
  {
    var e := NetBlock(txs);
    op :| op in e.created && op in m && op !in e.external;
  }

  lemma {:induction false} ApplyBlocksSplit(m: UtxoSet, xs: seq<Block>, ys: seq<Block>)
    ensures ApplyBlocks(m, xs + ys).Ok? <==>
            ApplyBlocks(m, xs).Ok? && ApplyBlocks(ApplyBlocks(m, xs).value.utxos, ys).Ok?
    ensures ApplyBlocks(m, xs + ys).Ok? ==>
              var a := ApplyBlocks(m, xs).value;
              var b := ApplyBlocks(a.utxos, ys).value;
              ApplyBlocks(m, xs + ys).value == Branch(b.utxos, a.undos + b.undos)
  {
    hide ApplyBlock;
    if ys == [] {
      assert xs + ys == xs;
    } else {
      assert (xs + ys)[..|xs + ys| - 1] == xs + ys[..|ys| - 1];
      ApplyBlocksSplit(m, xs, ys[..|ys| - 1]);
    }
  }

  lemma {:induction false} UndoPerBlock(m: UtxoSet, blocks: seq<Block>)
    requires ApplyBlocks(m, blocks).Ok?
    ensures |ApplyBlocks(m, blocks).value.undos| == |blocks|
  {
    if blocks != [] { UndoPerBlock(m, blocks[..|blocks| - 1]); }
  }
}
