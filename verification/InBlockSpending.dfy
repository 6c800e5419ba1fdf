/** Spending an output of the same block: the documented rule against the one the code has. */
module InBlockSpending {
  import opened Primitives
  import opened ChainTypes
  import opened UtxoProcessor
  import opened BlockRules
  import opened BlockDag
  import opened BlockValidation
  import opened Supply

  /** What resolves an input under the documented rule: the stored entries the validator fetches,
      and every output the block creates. Only an earlier output can be meant, since the order
      check has put creators before users. */
  ghost function Resolvable(m: UtxoSet, txs: seq<Transaction>): UtxoSet { Managed(m, txs) + AllOutputs(txs) }

  /** The acceptance the validator documents. */
  ghost predicate Documented(b: Block, c: GenesisState, m: UtxoSet, recover: Recover)
    requires CompositionOk(b)
  {
    && OrderOk(b.txs)
    && (forall op :: UsedOutside(b.txs, |b.txs|, op) ==> op in m)
    && (forall t :: 0 <= t < |b.txs| ==> TxOk(Resolvable(m, b.txs), b.txs[t], recover))
    && (!b.header.IsGenesis() ==> RewardOk(Resolvable(m, b.txs), b.txs, BlockSubsidy(c, b.header.height)))
  }

  // ---------------------------------------------------------------- sets that agree

  ghost predicate AgreeOn(x: UtxoSet, y: UtxoSet, ops: seq<OutPoint>)
  {
    forall op :: op in ops ==> (op in x <==> op in y) && (op in x ==> x[op] == y[op])
  }

  lemma {:induction false} ValueAgrees(x: UtxoSet, y: UtxoSet, tx: Transaction)
    requires AgreeOn(x, y, Inputs(tx))
    ensures ValueRuleOk(x, tx) <==> ValueRuleOk(y, tx)
    ensures ValueRuleOk(x, tx) ==> InputSum(x, Inputs(tx)) == InputSum(y, Inputs(tx))
  {
    hide InputSum, Inputs;
    if forall op :: op in Inputs(tx) ==> op in x { InputSumOfPart(x, y, Inputs(tx)); }
  }

  lemma TxAgrees(x: UtxoSet, y: UtxoSet, tx: Transaction, recover: Recover)
    requires AgreeOn(x, y, Inputs(tx))
    ensures TxOk(x, tx, recover) <==> TxOk(y, tx, recover)
  {
    hide Inputs, OutputSum, InputSum;
    ValueAgrees(x, y, tx);
  }

  lemma {:induction false} FeesAgree(x: UtxoSet, y: UtxoSet, txs: seq<Transaction>)
    requires AgreeOn(x, y, SpentInOrder(txs))
    ensures FeeTotal(x, txs) == FeeTotal(y, txs)
  {
    hide Inputs, OutputSum, InputSum, ValueRuleOk;
    if txs != [] {
      assert SpentInOrder(txs) == SpentInOrder(txs[..|txs| - 1]) + Inputs(txs[|txs| - 1]);
      FeesAgree(x, y, txs[..|txs| - 1]);
      ValueAgrees(x, y, txs[|txs| - 1]);
    }
  }

  // ---------------------------------------------------------------- the exact condition

  lemma {:induction false} IndependentResolves(m: UtxoSet, txs: seq<Transaction>)
    requires Independent(txs)
    ensures forall t: nat :: t < |txs| ==> AgreeOn(Managed(m, txs), Resolvable(m, txs), Inputs(txs[t]))
    ensures AgreeOn(Managed(m, txs), Resolvable(m, txs), SpentInOrder(txs))
  {
    AllOutputsCreated(txs);
    hide AllOutputs, UsedOutside;
    forall t: nat, op | t < |txs| && op in InputsOf(txs[t]) ensures op !in AllOutputs(txs) {
      forall i: nat ensures !Creates(txs, i, op) { assert Creates(txs, i, op) ==> DependsOn(txs, t, i); }
    }
    forall t: nat, op | t < |txs| && op in Inputs(txs[t]) ensures op in InputsOf(txs[t]) {}
    hide Managed;
    forall op | op in SpentInOrder(txs) ensures op !in AllOutputs(txs) {
      var t := SpenderPosition(txs, op);
    }
  }

  /** The code meets the documented rule exactly on the blocks in which nothing spends an output
      of the same block. */
  lemma AcceptsIff(b: Block, c: GenesisState, m: UtxoSet, recover: Recover)
    requires CompositionOk(b)
    ensures Accepts(b, c, m, recover) <==> Documented(b, c, m, recover) && Independent(b.txs)
  {
    hide TxOk, OrderOk, UsedOutside, Level, CompositionOk, Managed, Resolvable, FeeTotal, BlockSubsidy;
    if Accepts(b, c, m, recover) { AcceptedIndependent(b, c, m, recover); }
    if Independent(b.txs) {
      IndependentResolves(m, b.txs);
      hide Independent;
      var x, y := Managed(m, b.txs), Resolvable(m, b.txs);
      forall t: nat | t < |b.txs| ensures TxOk(x, b.txs[t], recover) <==> TxOk(y, b.txs[t], recover) {
        TxAgrees(x, y, b.txs[t], recover);
      }
      FeesAgree(x, y, b.txs);
    }
  }

  /** Where no transaction uses another's output, what is fetched is what is stored. */
  lemma {:induction false} FetchedAgrees(m: UtxoSet, txs: seq<Transaction>)
    requires Independent(txs) && forall t: nat, op :: t < |txs| && op in InputsOf(txs[t]) ==> op in m
    requires forall t: nat :: t < |txs| ==> Inputs(txs[t]) == InputsOf(txs[t])
    ensures forall t: nat :: t < |txs| ==> AgreeOn(Managed(m, txs), m, Inputs(txs[t]))
    ensures AgreeOn(Managed(m, txs), m, SpentInOrder(txs))
  {
    hide InputsOf, Inputs, SpentInOrder;
    forall t: nat, op | t < |txs| && op in InputsOf(txs[t]) ensures op in Managed(m, txs) {
      forall i: nat ensures !Creates(txs, i, op) { assert Creates(txs, i, op) ==> DependsOn(txs, t, i); }
    }
    forall op | op in SpentInOrder(txs) ensures op in Managed(m, txs) { var t := SpenderPosition(txs, op); }
  }

  lemma OutsideStored(m: UtxoSet, txs: seq<Transaction>)
    requires forall t: nat, op :: t < |txs| && op in InputsOf(txs[t]) ==> op in m
    ensures forall op :: UsedOutside(txs, |txs|, op) ==> op in m
  {
    hide InputsOf;
  }

  // ---------------------------------------------------------------- a block the code turns away

  function Pay(from: OutPoint, value: u64, to: nat, signature: seq<nat>): Transaction
  {
    Transaction(TransactionData(1, Payment, [TransactionIn(from, 0)], [TransactionOut(value, to)]), signature)
  }

  function Reward(height: u64, parent: BlockHash, signature: seq<nat>): Transaction
  {
    Transaction(TransactionData(1, Coinbase(height, parent), [], [TransactionOut(0, 7)]), signature)
  }

  datatype Chained = Chained(
    height: u64, parent: BlockHash, threshold: u256, timestamp: u64, nonce: u32,
    from: OutPoint, value: u64, owner: nat, signatures: (seq<nat>, seq<nat>, seq<nat>))
  {
    function Payment(): Transaction { Pay(from, value, owner, signatures.1) }

    /** Spends the output of the payment before it. */
    function Respent(): Transaction { Pay(OutPoint(Payment().data.Hash(), 0), value, owner, signatures.2) }

    function Txs(): seq<Transaction> { [Reward(height, parent, signatures.0), Payment(), Respent()] }

    function Candidate(): Block
    {
      Block(BlockHeader(1, MerkleRoot(Txs()), parent, height, threshold, timestamp, nonce, None), Txs())
    }

    /** The payment spends an allocation that m holds, and both payments are signed by its owner. */
    ghost predicate Funded(m: UtxoSet, recover: Recover)
    {
      && 0 < height && threshold != 0
      && from in m && m[from].value == value && m[from].owner == owner
      && from.txid.preimage.kind == GenesisAllocation
      && recover(Payment()) == Some(owner) && recover(Respent()) == Some(owner)
    }
  }

  lemma ChainedInputs(x: Chained)
    requires x.from.txid.preimage.kind == GenesisAllocation
    ensures var txs := x.Txs();
            && InputsOf(txs[0]) == Inputs(txs[0]) == [] && InputsOf(txs[1]) == Inputs(txs[1]) == [x.from]
            && InputsOf(txs[2]) == Inputs(txs[2]) == [OutPoint(txs[1].data.Hash(), 0)]
    ensures forall i: nat, op :: Creates(x.Txs(), i, op) <==> i < 3 && op == OutPoint(x.Txs()[i].data.Hash(), 0)
    ensures x.Payment().data != x.Respent().data
  {
    var txs := x.Txs();
    OutputKeys(txs[0]);
    OutputKeys(txs[1]);
    OutputKeys(txs[2]);
    hide Outputs;
    assert x.Payment().data.inputs[0].previousOutput.txid.preimage.kind == GenesisAllocation;
    assert x.Respent().data.inputs[0].previousOutput.txid.preimage.kind == TransactionKind.Payment;
  }

  lemma {:induction false} ThreeInputs(txs: seq<Transaction>)
    requires |txs| == 3
    ensures InputsInOrder(txs) == InputsOf(txs[0]) + InputsOf(txs[1]) + InputsOf(txs[2])
    ensures SpentInOrder(txs) == Inputs(txs[0]) + Inputs(txs[1]) + Inputs(txs[2])
  {
    var two, one := txs[..2], txs[..1];
    assert two[..1] == one && one[..0] == [];
    hide InputsOf, Inputs;
    assert InputsInOrder(one[..0]) == [] && SpentInOrder(one[..0]) == [];
    assert InputsInOrder(one) == InputsOf(txs[0]) && SpentInOrder(one) == Inputs(txs[0]);
    assert InputsInOrder(two) == InputsInOrder(one) + InputsOf(txs[1]);
    assert SpentInOrder(two) == SpentInOrder(one) + Inputs(txs[1]);
  }

  lemma ChainedOrder(x: Chained)
    requires x.from.txid.preimage.kind == GenesisAllocation
    ensures OrderOk(x.Txs()) && DependsOn(x.Txs(), 2, 1)
    ensures Distinct(SpentInOrder(x.Txs()))
    ensures UsedOutside(x.Txs(), 3, x.from)
    ensures forall op :: UsedOutside(x.Txs(), 3, op) ==> op == x.from
  {
    hide InputsOf, Inputs, Creates, InputsInOrder, SpentInOrder;
    var txs := x.Txs();
    ChainedInputs(x);
    ThreeInputs(txs);
    var made := OutPoint(txs[1].data.Hash(), 0);
    assert InputsInOrder(txs) == [x.from, made] && SpentInOrder(txs) == [x.from, made] by {
      assert [] + [x.from] + [made] == [x.from, made];
    }
    assert made in InputsOf(txs[2]) && Creates(txs, 1, made);
    ChainedUnique(x);
    ChainedOrdered(x);
    ChainedOutside(x);
  }

  lemma ChainedUnique(x: Chained)
    requires x.from.txid.preimage.kind == GenesisAllocation
    ensures UniqueOutputs(x.Txs())
  {
    hide InputsOf, Inputs, Creates;
    ChainedInputs(x);
  }

  lemma ChainedOrdered(x: Chained)
    requires x.from.txid.preimage.kind == GenesisAllocation
    ensures Ordered(x.Txs())
  {
    hide InputsOf, Inputs, Creates;
    ChainedInputs(x);
    var txs := x.Txs();
    forall t: nat, s: nat | DependsOn(txs, t, s) ensures s < t {
      var op :| op in InputsOf(txs[t]) && Creates(txs, s, op);
    }
  }

  lemma ChainedOutside(x: Chained)
    requires x.from.txid.preimage.kind == GenesisAllocation
    ensures UsedOutside(x.Txs(), 3, x.from)
    ensures forall op :: UsedOutside(x.Txs(), 3, op) ==> op == x.from
  {
    hide InputsOf, Inputs, Creates;
    ChainedInputs(x);
    var txs := x.Txs();
    assert x.from in InputsOf(txs[1]);
    assert Creates(txs, 1, OutPoint(txs[1].data.Hash(), 0));
  }

  lemma {:induction false} ChainedResolves(x: Chained, m: UtxoSet)
    requires x.from.txid.preimage.kind == GenesisAllocation && x.from in m
    ensures var r, made := Resolvable(m, x.Txs()), OutPoint(x.Payment().data.Hash(), 0);
            && x.from in r && r[x.from] == m[x.from]
            && made in r && r[made].value == x.value && r[made].owner == x.owner
  {
    hide AllOutputs, UsedOutside, CreatedIn, InputsOf, Inputs;
    var txs := x.Txs();
    ChainedOutside(x);
    AllOutputsCreated(txs);
    MadeOutput(x);
    assert x.from !in AllOutputs(txs) by { NotMade(x); }
  }

  lemma NotMade(x: Chained)
    requires x.from.txid.preimage.kind == GenesisAllocation
    ensures !CreatedIn(x.Txs(), x.from)
  {
    hide Creates, InputsOf, Inputs;
    ChainedInputs(x);
  }

  lemma {:induction false} MadeOutput(x: Chained)
    requires x.from.txid.preimage.kind == GenesisAllocation
    ensures var all, made := AllOutputs(x.Txs()), OutPoint(x.Payment().data.Hash(), 0);
            made in all && all[made].value == x.value && all[made].owner == x.owner
  {
    var txs, made := x.Txs(), OutPoint(x.Payment().data.Hash(), 0);
    assert txs[..2][..1] == txs[..1];
    assert AllOutputs(txs[..2]) == AllOutputs(txs[..1]) + Outputs(txs[1]);
    assert AllOutputs(txs) == AllOutputs(txs[..2]) + Outputs(txs[2]);
    ChainedInputs(x);
    assert made in Outputs(txs[1]) && Outputs(txs[1])[made] == OutputUtxo(txs[1].data, 0);
    assert made !in Outputs(txs[2]);
  }

  lemma {:induction false} OneOut(value: u64, to: nat)
    ensures OutputSum([TransactionOut(value, to)]) == value
  {
    assert [TransactionOut(value, to)][..0] == [];
  }

  lemma {:induction false} OneIn(m: UtxoSet, op: OutPoint)
    requires op in m
    ensures InputSum(m, [op]) == m[op].value
  {
    assert [op][..0] == [];
  }

  lemma {:induction false} ChainedChecks(x: Chained, r: UtxoSet, recover: Recover)
    requires x.from.txid.preimage.kind == GenesisAllocation
    requires recover(x.Payment()) == recover(x.Respent()) == Some(x.owner)
    requires var made := OutPoint(x.Payment().data.Hash(), 0);
             && x.from in r && r[x.from].value == x.value && r[x.from].owner == x.owner
             && made in r && r[made].value == x.value && r[made].owner == x.owner
    ensures forall t :: 0 <= t < 3 ==> TxOk(r, x.Txs()[t], recover)
    ensures FeeTotal(r, x.Txs()) == Some(0)
  {
    var txs := x.Txs();
    ChainedInputs(x);
    OneOut(x.value, x.owner);
    OneIn(r, x.from);
    OneIn(r, OutPoint(x.Payment().data.Hash(), 0));
    hide Inputs, InputSum, OutputSum, Creates;
    assert ValueRuleOk(r, txs[1]) && ValueRuleOk(r, txs[2]);
    assert TxOk(r, txs[0], recover) && TxOk(r, txs[1], recover) && TxOk(r, txs[2], recover);
    hide TxOk, ValueRuleOk;
    assert txs[..2][..1] == txs[..1] && txs[..1][..0] == [];
    assert FeeTotal(r, txs[..1][..0]) == Some(0);
    assert FeeTotal(r, txs[..1]) == Some(0);
    assert FeeTotal(r, txs[..2]) == Some(0);
  }

  lemma ChainedStatic(x: Chained)
    requires 0 < x.height && x.threshold != 0 && x.from.txid.preimage.kind == GenesisAllocation
    ensures HeaderOk(x.Candidate()) && StructureOk(x.Candidate())
  {
    ChainedOrder(x);
    ChainedInputs(x);
    hide Inputs, InputsOf, SpentInOrder, Creates, UsedOutside, OrderOk;
  }

  /** A coinbase, a payment of a stored output and a payment of that payment's output: the block
      passes the header and structure checks and the documented rule, and the code rejects it. */
  lemma ChainedPaymentsRejected(x: Chained, c: GenesisState, m: UtxoSet, recover: Recover)
    requires x.Funded(m, recover)
    ensures var b := x.Candidate();
            && HeaderOk(b) && StructureOk(b)
            && Documented(b, c, m, recover) && !Accepts(b, c, m, recover)
  {
    hide HeaderOk, OrderOk, UsedOutside, Resolvable, TxOk, FeeTotal, Accepts, DependsOn, SpentInOrder, Distinct,
      Managed, AllOutputs, BlockSubsidy;
    var b := x.Candidate();
    ChainedStatic(x);
    ChainedOrder(x);
    ChainedResolves(x, m);
    ChainedChecks(x, Resolvable(m, b.txs), recover);
    AcceptsIff(b, c, m, recover);
  }
}
