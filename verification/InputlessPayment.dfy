/** What the validator lets through: payments without inputs, whose ids may recur. */
module InputlessPayment {
  import opened Primitives
  import opened ChainTypes
  import opened UtxoProcessor
  import opened BlockRules
  import opened BlockDag
  import opened BlockValidation
  import opened Audit

  function ZeroPayment(signature: seq<nat>): Transaction {
    Transaction(TransactionData(1, Payment, [], [TransactionOut(0, 7)]), signature)
  }

  function CoinbaseAt(height: u64, parent: BlockHash, signature: seq<nat>): Transaction {
    Transaction(TransactionData(1, Coinbase(height, parent), [], [TransactionOut(50, 7)]), signature)
  }

  /** The header fields that time and proof of work constrain, and the signatures, are free. */
  datatype Mined = Mined(
    threshold: u256, timestamp: u64, nonce: u32, coinbaseSignature: seq<nat>, signature: seq<nat>)

  function BlockWithZeroPayment(height: u64, parent: BlockHash, mined: Mined): Block {
    var txs := [CoinbaseAt(height, parent, mined.coinbaseSignature), ZeroPayment(mined.signature)];
    Block(BlockHeader(1, MerkleRoot(txs), parent, height, mined.threshold, mined.timestamp, mined.nonce, None), txs)
  }

  lemma {:induction false} ZeroPaymentEffect(height: u64, parent: BlockHash, mined: Mined)
    ensures var txs := BlockWithZeroPayment(height, parent, mined).txs;
            && NetBlock(txs) == NetEffect(Outputs(txs[0]) + Outputs(txs[1]), [])
            && SpentInOrder(txs) == []
  {
    var txs := BlockWithZeroPayment(height, parent, mined).txs;
    assert txs[..1][..0] == [] && txs[..1] == [txs[0]];
    hide Outputs;
    assert NetBlock([]) == NetEffect(map[], []);
    assert NetBlock(txs[..1]) == NetTx(NetBlock([]), txs[0]);
    assert NetBlock(txs) == NetTx(NetBlock(txs[..1]), txs[1]);
    assert SpentInOrder(txs[..1]) == SpentInOrder([]) + Inputs(txs[0]);
  }

  lemma {:induction false} ZeroPaymentStatic(height: u64, parent: BlockHash, mined: Mined)
    requires height != 0 && mined.threshold != 0
    ensures var b := BlockWithZeroPayment(height, parent, mined); HeaderOk(b) && StructureOk(b)
  {
    ZeroPaymentEffect(height, parent, mined);
    hide NetBlock, Outputs;
  }

  /** Two different transactions without inputs are always in order. */
  lemma {:induction false} InputlessOrder(x: Transaction, y: Transaction)
    requires x.data != y.data && x.data.inputs == [] && y.data.inputs == []
    ensures InputsInOrder([x, y]) == [] && OrderOk([x, y])
  {
    var txs := [x, y];
    assert txs[..1] == [x] && [x][..0] == [];
    assert InputsInOrder([x]) == InputsInOrder([]) + InputsOf(x);
    hide InputsInOrder, FirstOutputs;
    OutputKeys(x);
    OutputKeys(y);
    assert forall t: nat :: t < 2 ==> InputsOf(txs[t]) == [];
    hide Outputs, InputsOf;
    assert x.data.Hash() != y.data.Hash();
  }

  lemma {:induction false} OneOutput(value: u64)
    ensures OutputSum([TransactionOut(value, 7)]) == value
  {
    assert [TransactionOut(value, 7)][..0] == [];
  }

  lemma {:induction false} ZeroPaymentChecks(height: u64, parent: BlockHash, mined: Mined, m: UtxoSet, recover: Recover)
    requires recover(ZeroPayment(mined.signature)).Some?
    ensures var txs := BlockWithZeroPayment(height, parent, mined).txs;
            TxOk(m, txs[0], recover) && TxOk(m, txs[1], recover) && FeeTotal(m, txs) == Some(0)
  {
    OneOutput(0);
    hide OutputSum;
    var txs := BlockWithZeroPayment(height, parent, mined).txs;
    assert txs[..1][..0] == [] && txs[..1] == [txs[0]];
    assert FeeTotal(m, []) == Some(0) && FeeTotal(m, txs[..1]) == Some(0);
    assert Inputs(txs[1]) == [];
  }

  /** The whole validator accepts the block, over any stored set, if the subsidy covers its
      coinbase and its payment carries a recoverable signature. */
  lemma {:induction false} ZeroPaymentAccepted(height: u64, parent: BlockHash, mined: Mined, c: GenesisState,
                                               m: UtxoSet, recover: Recover)
    requires height != 0 && mined.threshold != 0
    requires 50 <= BlockSubsidy(c, height) && recover(ZeroPayment(mined.signature)).Some?
    ensures Validates(BlockWithZeroPayment(height, parent, mined), c, m, recover)
  {
    var b := BlockWithZeroPayment(height, parent, mined);
    ZeroPaymentStatic(height, parent, mined);
    InputlessOrder(b.txs[0], b.txs[1]);
    assert b.txs == [b.txs[0], b.txs[1]];
    ZeroPaymentChecks(height, parent, mined, Managed(m, b.txs), recover);
    hide TxOk, OrderOk, FeeTotal, HeaderOk, StructureOk, BlockSubsidy;
    forall op ensures !UsedOutside(b.txs, |b.txs|, op) {
      assert forall t: nat :: t < 2 ==> InputsOf(b.txs[t]) == [];
    }
    assert CompositionOk(b);
    assert RewardOk(Managed(m, b.txs), b.txs, BlockSubsidy(c, height));
  }

  lemma {:induction false} ZeroBlockApplies(height: u64, parent: BlockHash, mined: Mined, m: UtxoSet, op: OutPoint)
    requires op == OutPoint(ZeroPayment(mined.signature).data.Hash(), 0)
    ensures var txs := BlockWithZeroPayment(height, parent, mined).txs;
            && ApplyBlock(m, txs).Ok? && op in ApplyBlock(m, txs).value.utxos
            && (op in m ==> !OverwritesNothing(m, txs))
  {
    var txs := BlockWithZeroPayment(height, parent, mined).txs;
    ZeroPaymentEffect(height, parent, mined);
    assert op in Outputs(txs[1]);
    hide Outputs, NetBlock;
    assert op in NetBlock(txs).created;
  }

  /** Two successive accepted blocks can carry the same input-less payment, over any stored
      set; rewinding the second then loses the output the first one made. */
  lemma {:induction false} InputlessPaymentBreaksUndo(height: u64, parent: BlockHash, first: Mined, second: Mined,
                                                      c: GenesisState, m: UtxoSet, recover: Recover)
    requires 0 < height < U64_MAX && first.threshold != 0 && second.threshold != 0
    requires 50 <= BlockSubsidy(c, height) && 50 <= BlockSubsidy(c, height + 1)
    requires recover(ZeroPayment(first.signature)).Some? && recover(ZeroPayment(second.signature)).Some?
    ensures var b1 := BlockWithZeroPayment(height, parent, first);
            var b2 := BlockWithZeroPayment(height + 1, b1.Hash(), second);
            var r1 := ApplyBlock(m, b1.txs);
            && Validates(b1, c, m, recover) && r1.Ok?
            && Validates(b2, c, r1.value.utxos, recover)
            && var r2 := ApplyBlock(r1.value.utxos, b2.txs);
               r2.Ok? && RewindBlock(r2.value.utxos, r2.value.undo) != Ok(r1.value.utxos)
  {
    var b1 := BlockWithZeroPayment(height, parent, first);
    var b2 := BlockWithZeroPayment(height + 1, b1.Hash(), second);
    hide NetBlock, BlockSubsidy, Validates, ApplyBlock, RewindBlock;
    var op := OutPoint(ZeroPayment(first.signature).data.Hash(), 0);
    ZeroBlockApplies(height, parent, first, m, op);
    var m1 := ApplyBlock(m, b1.txs).value.utxos;
    ZeroBlockApplies(height + 1, b1.Hash(), second, m1, op);
    ZeroPaymentAccepted(height, parent, first, c, m, recover);
    ZeroPaymentAccepted(height + 1, b1.Hash(), second, c, m1, recover);
    RewindRestoresIff(m1, b2.txs);
  }
}
