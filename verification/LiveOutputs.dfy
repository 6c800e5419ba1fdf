/** What the UTXO set holds, said of transaction fields alone. */
module LiveOutputs {
  import opened Primitives
  import opened ChainTypes
  import opened UtxoProcessor
  import opened BlockRules
  import opened Ledger
  import opened Storage
  import opened CanonicalChain

  /** u is output op.vout of the transaction, with its value and its recipient. */
  predicate IsOutput(tx: Transaction, op: OutPoint, u: Utxo)
  {
    && op.txid == TxId(tx.data) && op.vout < |tx.data.outputs|
    && u.txid == op.txid && u.vout == op.vout
    && u.value == tx.data.outputs[op.vout].value && u.owner == tx.data.outputs[op.vout].recipient
  }

  predicate MakesOutput(tx: Transaction, op: OutPoint) { op.txid == TxId(tx.data) && op.vout < |tx.data.outputs| }

  /** A payment that names op as an input. */
  predicate TakesInput(tx: Transaction, op: OutPoint)
  {
    tx.data.kind.Payment? && exists k :: 0 <= k < |tx.data.inputs| && tx.data.inputs[k].previousOutput == op
  }

  predicate Entered(txs: seq<Transaction>, op: OutPoint, u: Utxo) { exists tx :: tx in txs && IsOutput(tx, op, u) }

  predicate Made(txs: seq<Transaction>, op: OutPoint) { exists tx :: tx in txs && MakesOutput(tx, op) }

  predicate Taken(txs: seq<Transaction>, op: OutPoint) { exists tx :: tx in txs && TakesInput(tx, op) }

  lemma OutputsLiterally(tx: Transaction)
    ensures forall op :: op in Outputs(tx) <==> MakesOutput(tx, op)
    ensures forall op :: op in Outputs(tx) ==> IsOutput(tx, op, Outputs(tx)[op])
  {}

  lemma InputsLiterally(tx: Transaction)
    ensures forall op :: op in Inputs(tx) <==> TakesInput(tx, op)
  {
    if tx.data.kind.Payment? {
      forall k | 0 <= k < |tx.data.inputs| ensures tx.data.inputs[k].previousOutput in Inputs(tx) {
        assert Inputs(tx)[k] == tx.data.inputs[k].previousOutput;
      }
    }
  }

  // ---------------------------------------------------------------- one block, over any set

  lemma {:induction false} SpendKeeps(e: NetEffect, ops: seq<OutPoint>)
    ensures var e' := NetSpendAll(e, ops);
            && (forall op :: op in e'.created ==> op in e.created && e'.created[op] == e.created[op])
            && (forall op :: op in e'.external ==> op in e.external || op in ops)
            && (forall op :: op in e.external ==> op in e'.external)
            && (forall op :: op in ops ==> op in e'.external || op in e.created)
  {
    if ops != [] {
      SpendKeeps(e, ops[..|ops| - 1]);
      assert ops == ops[..|ops| - 1] + [ops[|ops| - 1]];
    }
  }

  ghost predicate NetMeans(txs: seq<Transaction>, e: NetEffect)
  {
    && (forall op :: op in e.created ==> Entered(txs, op, e.created[op]))
    && (forall op :: op in e.external ==> Taken(txs, op))
    && (forall op :: Taken(txs, op) ==> op in e.external || Made(txs, op))
  }

  lemma {:induction false} NetIsLiteral(txs: seq<Transaction>)
    ensures NetMeans(txs, NetBlock(txs))
  {
    hide NetTx;
    if txs != [] {
      var before, tx := txs[..|txs| - 1], txs[|txs| - 1];
      assert txs == before + [tx];
      NetIsLiteral(before);
      NetStep(before, NetBlock(before), tx);
    }
  }

  lemma {:induction false} NetStep(txs: seq<Transaction>, e: NetEffect, tx: Transaction)
    requires NetMeans(txs, e)
    ensures NetMeans(txs + [tx], NetTx(e, tx))
  {
    hide NetSpendAll, Inputs, Outputs, MakesOutput, TakesInput, IsOutput;
    SpendKeeps(e, Inputs(tx));
    OutputsLiterally(tx);
    InputsLiterally(tx);
    EnteredMade(txs);
    var longer := txs + [tx];
    assert forall t :: t in longer <==> t in txs || t == tx;
    forall op, u | Entered(txs, op, u) ensures Entered(longer, op, u) {
      var t :| t in txs && IsOutput(t, op, u);
      assert t in longer;
    }
    forall op | op in Outputs(tx) ensures Entered(longer, op, Outputs(tx)[op]) {
      assert tx in longer;
    }
    forall op ensures Taken(longer, op) <==> Taken(txs, op) || TakesInput(tx, op) {
      assert tx in longer;
      if Taken(txs, op) {
        var t :| t in txs && TakesInput(t, op);
        assert t in longer;
      }
    }
    forall op | Made(txs, op) ensures Made(longer, op) {
      var t :| t in txs && MakesOutput(t, op);
      assert t in longer;
    }
  }

  lemma EnteredMade(txs: seq<Transaction>)
    ensures forall op, u :: Entered(txs, op, u) ==> Made(txs, op)
  {
    forall op, u | Entered(txs, op, u) ensures Made(txs, op) {
      var tx :| tx in txs && IsOutput(tx, op, u);
      assert MakesOutput(tx, op);
    }
  }

  /** Applying a block over any set: an entry afterwards is an old one as it was, or an output of the
      block with its own value and recipient. What the block does not make stays exactly if no payment
      of the block takes it, and what a payment takes was there or made by the block. */
  lemma AppliedLiterally(m: UtxoSet, txs: seq<Transaction>)
    requires ApplyBlock(m, txs).Ok?
    ensures var after := ApplyBlock(m, txs).value.utxos;
            && (forall op :: op in after ==> Entered(txs, op, after[op]) || (op in m && after[op] == m[op]))
            && (forall op :: !Made(txs, op) ==> (op in after <==> op in m && !Taken(txs, op)))
            && (forall op :: Taken(txs, op) ==> op in m || Made(txs, op))
  {
    NetIsLiteral(txs);
    EnteredMade(txs);
    hide NetBlock, Entered, Made, Taken, Restrict;
    var e := NetBlock(txs);
    assert ApplyBlock(m, txs).value.utxos == m - Elements(e.external) + e.created;
  }

  // ---------------------------------------------------------------- a whole history

  /** Exactly the outputs the history made and no payment of it took, each as it was made. */
  ghost predicate LiveExactly(hist: seq<Transaction>, m: UtxoSet)
  {
    && (forall op :: op in m <==> Made(hist, op) && !Taken(hist, op))
    && (forall op :: op in m ==> Entered(hist, op, m[op]))
    && (forall op :: Taken(hist, op) ==> Made(hist, op))
  }

  lemma {:induction false} LiveStep(hist: seq<Transaction>, m: UtxoSet, tx: Transaction)
    requires LiveExactly(hist, m) && FoldTx(m, tx).Some?
    requires tx.data.Hash() !in Ids(hist)
    ensures LiveExactly(hist + [tx], FoldTx(m, tx).value)
  {
    hide Inputs, Outputs, FoldTx, IsOutput, MakesOutput, TakesInput, Entered, Made, Taken, Ids, Elements;
    FoldTxIs(m, tx);
    OutputsLiterally(tx);
    InputsLiterally(tx);
    NewIdMakesNew(hist, tx);
    HistoryGrows(hist, tx);
    var after := FoldTx(m, tx).value;
    forall op ensures op in after <==> (op in m && !TakesInput(tx, op)) || MakesOutput(tx, op) {}
    forall op | op in after ensures after[op] == if MakesOutput(tx, op) then Outputs(tx)[op] else m[op] {}
  }

  lemma {:induction false} FoldTxIs(m: UtxoSet, tx: Transaction)
    requires FoldTx(m, tx).Some?
    ensures forall op :: op in Inputs(tx) ==> op in m
    ensures var after := FoldTx(m, tx).value;
            && (forall op :: op in after <==> (op in m && op !in Inputs(tx)) || op in Outputs(tx))
            && (forall op :: op in after ==> after[op] == if op in Outputs(tx) then Outputs(tx)[op] else m[op])
  {
    hide Inputs, Outputs, FoldSpend;
    FoldSpendSpends(m, Inputs(tx));
  }

  lemma NewIdMakesNew(hist: seq<Transaction>, tx: Transaction)
    requires tx.data.Hash() !in Ids(hist)
    ensures forall op :: MakesOutput(tx, op) ==> !Made(hist, op)
  {
    forall op | MakesOutput(tx, op) ensures !Made(hist, op) {
      forall t | t in hist ensures !MakesOutput(t, op) { assert t.data.Hash() in Ids(hist); }
    }
  }

  lemma HistoryGrows(hist: seq<Transaction>, tx: Transaction)
    ensures forall op :: Made(hist + [tx], op) <==> Made(hist, op) || MakesOutput(tx, op)
    ensures forall op :: Taken(hist + [tx], op) <==> Taken(hist, op) || TakesInput(tx, op)
    ensures forall op, u :: Entered(hist + [tx], op, u) <==> Entered(hist, op, u) || IsOutput(tx, op, u)
  {
    hide IsOutput, MakesOutput, TakesInput;
    var longer := hist + [tx];
    assert tx in longer && forall t :: t in longer <==> t in hist || t == tx;
    forall op ensures Made(longer, op) <==> Made(hist, op) || MakesOutput(tx, op) {}
    forall op ensures Taken(longer, op) <==> Taken(hist, op) || TakesInput(tx, op) {}
    forall op, u ensures Entered(longer, op, u) <==> Entered(hist, op, u) || IsOutput(tx, op, u) {}
  }

  lemma {:induction false} ListLive(hist: seq<Transaction>, m: UtxoSet, txs: seq<Transaction>)
    requires LiveExactly(hist, m) && UniqueIds(hist + txs) && FoldBlock(m, txs).Some?
    ensures LiveExactly(hist + txs, FoldBlock(m, txs).value)
  {
    hide LiveExactly, UniqueIds, FoldTx;
    if txs == [] {
      assert hist + txs == hist;
    } else {
      var before, tx := txs[..|txs| - 1], txs[|txs| - 1];
      assert before + [tx] == txs && hist + before + [tx] == hist + txs;
      UniqueAppend(hist + before, tx);
      ListLive(hist, m, before);
      LiveStep(hist + before, FoldBlock(m, before).value, tx);
    }
  }

  /** Replaying a chain of distinct transaction ids leaves exactly its unspent outputs. */
  lemma {:induction false} ChainLive(chain: seq<Block>)
    requires UniqueIds(AllTxs(chain)) && ApplyBlocks(map[], chain).Ok?
    ensures LiveExactly(AllTxs(chain), ApplyBlocks(map[], chain).value.utxos)
  {
    hide ApplyBlock, UniqueIds, LiveExactly;
    if chain == [] {
      NothingLive();
    } else {
      var before, b := chain[..|chain| - 1], chain[|chain| - 1];
      assert chain == before + [b];
      AllTxsExtend(before, b);
      UniquePrefix(AllTxs(chain), AllTxs(before));
      ChainLive(before);
      ChainAccounts(before);
      hide Accounts;
      BlockLive(AllTxs(before), ApplyBlocks(map[], before).value.utxos, b.txs);
    }
  }

  lemma NothingLive()
    ensures LiveExactly([], map[])
  {}

  lemma BlockLive(hist: seq<Transaction>, m: UtxoSet, txs: seq<Transaction>)
    requires LiveExactly(hist, m) && Accounts(hist, m) && UniqueIds(hist + txs) && ApplyBlock(m, txs).Ok?
    ensures LiveExactly(hist + txs, ApplyBlock(m, txs).value.utxos)
  {
    hide LiveExactly, Accounts, UniqueIds, FoldBlock, NetBlock;
    ListAccounts(hist, m, txs);
    ApplyRefinesFold(m, txs);
    ListLive(hist, m, txs);
  }

  lemma {:induction false} OnSomeBlock(chain: seq<Block>, tx: Transaction)
    ensures tx in AllTxs(chain) <==> exists i :: 0 <= i < |chain| && tx in chain[i].txs
  {
    if chain != [] {
      var n := |chain| - 1;
      OnSomeBlock(chain[..n], tx);
      if tx in AllTxs(chain[..n]) {
        var i :| 0 <= i < n && tx in chain[..n][i].txs;
        assert tx in chain[i].txs;
      }
      if i :| 0 <= i < |chain| && tx in chain[i].txs {
        if i < n { assert tx in chain[..n][i].txs; }
      }
    }
  }

  ghost predicate MadeOn(chain: seq<Block>, op: OutPoint, u: Utxo)
  {
    exists i, tx :: 0 <= i < |chain| && tx in chain[i].txs && IsOutput(tx, op, u)
  }

  ghost predicate TakenOn(chain: seq<Block>, op: OutPoint)
  {
    exists i, tx :: 0 <= i < |chain| && tx in chain[i].txs && TakesInput(tx, op)
  }

  /** The committed set: an entry is there exactly if some canonical transaction has it as an output
      and no canonical payment takes it. */
  lemma {:induction false} CanonicalEntries(s: Snapshot, chain: seq<Block>, op: OutPoint, u: Utxo)
    requires Canonical(s, chain)
    ensures op in s.utxos && s.utxos[op] == u <==> MadeOn(chain, op, u) && !TakenOn(chain, op)
  {
    hide WellFormed, GenesisOk, UniqueIds, LocationsOf, UndosMatch, ApplyBlocks, IsOutput, TakesInput;
    ChainLive(chain);
    var hist := AllTxs(chain);
    forall tx ensures tx in hist <==> exists i :: 0 <= i < |chain| && tx in chain[i].txs { OnSomeBlock(chain, tx); }
    assert Entered(hist, op, u) <==> MadeOn(chain, op, u);
    assert Taken(hist, op) <==> TakenOn(chain, op);
    EnteredMade(hist);
    OneEntry(hist, op);
  }

  /** A history holds one output under each outpoint. */
  lemma OneEntry(hist: seq<Transaction>, op: OutPoint)
    ensures forall u, v :: Entered(hist, op, u) && Entered(hist, op, v) ==> u == v
  {}
}
