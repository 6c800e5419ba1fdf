/** What the validator accepts, as rules over the fields of the block and the stored entries, and
    who may spend. */
module AcceptanceRules {
  import opened Primitives
  import opened Collections
  import opened ChainTypes
  import opened UtxoProcessor
  import opened BlockRules
  import opened BlockDag
  import opened BlockValidation
  import opened CanonicalChain
  import opened Supply
  import opened InBlockSpending
  import opened LiveOutputs

  // ---------------------------------------------------------------- the rules

  function Sum(values: seq<nat>): nat
  {
    if values == [] then 0 else Sum(values[..|values| - 1]) + values[|values| - 1]
  }

  function OutValues(outs: seq<TransactionOut>): (values: seq<nat>)
    ensures |values| == |outs| && forall k :: 0 <= k < |outs| ==> values[k] == outs[k].value
  {
    seq(|outs|, k requires 0 <= k < |outs| => outs[k].value)
  }

  function GivenOut(tx: Transaction): nat { Sum(OutValues(tx.data.outputs)) }

  predicate InputsStored(m: UtxoSet, tx: Transaction)
  {
    forall k :: 0 <= k < |tx.data.inputs| ==> tx.data.inputs[k].previousOutput in m
  }

  function InValues(m: UtxoSet, tx: Transaction): (values: seq<nat>)
    requires InputsStored(m, tx)
    ensures |values| == |tx.data.inputs|
    ensures forall k :: 0 <= k < |values| ==> values[k] == m[tx.data.inputs[k].previousOutput].value
  {
    seq(|tx.data.inputs|, k requires 0 <= k < |tx.data.inputs| => m[tx.data.inputs[k].previousOutput].value)
  }

  function TakenIn(m: UtxoSet, tx: Transaction): nat
    requires InputsStored(m, tx)
  {
    Sum(InValues(m, tx))
  }

  /** Signed by the owner of everything it takes, which covers what it gives out. */
  predicate PaymentRule(m: UtxoSet, tx: Transaction, recover: Recover)
  {
    && InputsStored(m, tx)
    && recover(tx).Some?
    && (forall k :: 0 <= k < |tx.data.inputs| ==> m[tx.data.inputs[k].previousOutput].owner == recover(tx).value)
    && GivenOut(tx) <= TakenIn(m, tx) <= U64_MAX
  }

  /** No outpoint is named by two inputs of the block. */
  predicate NamedOnce(txs: seq<Transaction>)
  {
    forall t, k, u, l ::
      && 0 <= t < |txs| && 0 <= k < |txs[t].data.inputs|
      && 0 <= u < |txs| && 0 <= l < |txs[u].data.inputs|
      && txs[t].data.inputs[k].previousOutput == txs[u].data.inputs[l].previousOutput
      ==> t == u && k == l
  }

  /** No two transactions of the block make the same outputs. */
  predicate NoTwins(txs: seq<Transaction>)
  {
    forall t, u :: 0 <= t < u < |txs| && txs[t].data == txs[u].data ==> txs[t].data.outputs == []
  }

  /** Every input is stored and none is made by the block. */
  predicate FromOutside(m: UtxoSet, txs: seq<Transaction>)
  {
    forall t, k :: 0 <= t < |txs| && 0 <= k < |txs[t].data.inputs| ==>
      txs[t].data.inputs[k].previousOutput in m && !Made(txs, txs[t].data.inputs[k].previousOutput)
  }

  /** What the payments take in and do not give out. */
  function Surplus(m: UtxoSet, txs: seq<Transaction>): int
    requires forall t :: 0 <= t < |txs| ==> InputsStored(m, txs[t])
  {
    if txs == [] then 0
    else
      var tx := txs[|txs| - 1];
      Surplus(m, txs[..|txs| - 1]) + if tx.data.kind.Payment? then TakenIn(m, tx) - GivenOut(tx) else 0
  }

  /** The rules for a block of a coinbase and payments. */
  ghost predicate MeetsRules(b: Block, c: GenesisState, m: UtxoSet, recover: Recover)
    requires CompositionOk(b) && !b.header.IsGenesis()
  {
    && NoTwins(b.txs) && NamedOnce(b.txs) && FromOutside(m, b.txs)
    && b.txs[0].data.inputs == [] && |b.txs[0].data.outputs| == 1
    && (forall t :: 1 <= t < |b.txs| ==> PaymentRule(m, b.txs[t], recover))
    && var most := BlockSubsidy(c, b.header.height) + Surplus(m, b.txs);
       b.txs[0].data.outputs[0].value <= most <= U64_MAX
  }

  // ---------------------------------------------------------------- over what is stored

  /** The acceptance without the fetched entries and the layers. */
  ghost predicate AcceptsStored(b: Block, c: GenesisState, m: UtxoSet, recover: Recover)
    requires CompositionOk(b) && !b.header.IsGenesis()
  {
    && Independent(b.txs) && OrderOk(b.txs)
    && (forall t: nat, op :: t < |b.txs| && op in InputsOf(b.txs[t]) ==> op in m)
    && (forall t: nat :: t < |b.txs| ==> TxOk(m, b.txs[t], recover))
    && RewardOk(m, b.txs, BlockSubsidy(c, b.header.height))
  }

  lemma PaymentInputs(b: Block)
    requires CompositionOk(b) && !b.header.IsGenesis()
    ensures b.txs != []
    ensures forall t: nat :: 1 <= t < |b.txs| ==> Inputs(b.txs[t]) == InputsOf(b.txs[t])
    ensures InputsOf(b.txs[0]) == [] ==> Inputs(b.txs[0]) == InputsOf(b.txs[0])
  {}

  lemma NoInputsListed(tx: Transaction)
    ensures InputsOf(tx) == [] <==> tx.data.inputs == []
  {}

  lemma CoinbaseTakesNothing(m: UtxoSet, b: Block, recover: Recover)
    requires CompositionOk(b) && !b.header.IsGenesis() && b.txs != [] && TxOk(m, b.txs[0], recover)
    ensures b.txs[0].data.inputs == [] && InputsOf(b.txs[0]) == []
  {}

  lemma PaymentTakesFrom(m: UtxoSet, tx: Transaction, recover: Recover)
    requires TxOk(m, tx, recover)
    ensures forall op :: op in Inputs(tx) ==> op in m
  {}

  lemma AcceptsOverStored(b: Block, c: GenesisState, m: UtxoSet, recover: Recover)
    requires CompositionOk(b) && !b.header.IsGenesis()
    ensures Accepts(b, c, m, recover) <==> AcceptsStored(b, c, m, recover)
  {
    hide TxOk, OrderOk, UsedOutside, Level, CompositionOk, FeeTotal, BlockSubsidy, Independent, InputsOf, Inputs;
    PaymentInputs(b);
    if Accepts(b, c, m, recover) {
      AcceptedIndependent(b, c, m, recover);
      CoinbaseTakesNothing(Managed(m, b.txs), b, recover);
      forall t: nat, op | t < |b.txs| && op in InputsOf(b.txs[t]) ensures op in m {
        PaymentTakesFrom(Managed(m, b.txs), b.txs[t], recover);
      }
      StoredAgree(b, m, recover);
    }
    if AcceptsStored(b, c, m, recover) {
      CoinbaseTakesNothing(m, b, recover);
      StoredAgree(b, m, recover);
      OutsideStored(m, b.txs);
    }
  }

  lemma {:induction false} StoredAgree(b: Block, m: UtxoSet, recover: Recover)
    requires CompositionOk(b) && !b.header.IsGenesis() && b.txs != [] && Independent(b.txs)
    requires InputsOf(b.txs[0]) == []
    requires forall t: nat, op :: t < |b.txs| && op in InputsOf(b.txs[t]) ==> op in m
    ensures forall t: nat :: t < |b.txs| ==>
              (TxOk(Managed(m, b.txs), b.txs[t], recover) <==> TxOk(m, b.txs[t], recover))
    ensures FeeTotal(Managed(m, b.txs), b.txs) == FeeTotal(m, b.txs)
  {
    hide TxOk, InputsOf, Inputs, Managed, FeeTotal, Independent, CompositionOk;
    PaymentInputs(b);
    FetchedAgrees(m, b.txs);
    FeesAgree(Managed(m, b.txs), m, b.txs);
    forall t: nat | t < |b.txs| ensures TxOk(Managed(m, b.txs), b.txs[t], recover) <==> TxOk(m, b.txs[t], recover) {
      TxAgrees(Managed(m, b.txs), m, b.txs[t], recover);
    }
  }

  // ---------------------------------------------------------------- rule by rule

  lemma {:induction false} OutputsAddUp(outs: seq<TransactionOut>)
    ensures Sum(OutValues(outs)) == OutputSum(outs)
  {
    if outs != [] {
      OutputsAddUp(outs[..|outs| - 1]);
      assert OutValues(outs)[..|outs| - 1] == OutValues(outs[..|outs| - 1]);
    }
  }

  function At(m: UtxoSet, ops: seq<OutPoint>): (values: seq<nat>)
    requires forall op :: op in ops ==> op in m
    ensures |values| == |ops| && forall k :: 0 <= k < |ops| ==> ops[k] in m && values[k] == m[ops[k]].value
  {
    assert forall k :: 0 <= k < |ops| ==> ops[k] in ops;
    seq(|ops|, k requires 0 <= k < |ops| => m[ops[k]].value)
  }

  lemma {:induction false} InputsAddUp(m: UtxoSet, ops: seq<OutPoint>)
    requires forall op :: op in ops ==> op in m
    ensures Sum(At(m, ops)) == InputSum(m, ops)
  {
    if ops != [] {
      assert forall op :: op in ops[..|ops| - 1] ==> op in ops;
      InputsAddUp(m, ops[..|ops| - 1]);
      assert At(m, ops)[..|ops| - 1] == At(m, ops[..|ops| - 1]);
    }
  }

  lemma InputsListed(tx: Transaction)
    ensures |InputsOf(tx)| == |tx.data.inputs|
    ensures forall k :: 0 <= k < |tx.data.inputs| ==> InputsOf(tx)[k] == tx.data.inputs[k].previousOutput
    ensures forall op :: op in InputsOf(tx) <==>
              exists k :: 0 <= k < |tx.data.inputs| && tx.data.inputs[k].previousOutput == op
    ensures tx.data.kind.Payment? ==> Inputs(tx) == InputsOf(tx)
  {
    forall k | 0 <= k < |tx.data.inputs| ensures tx.data.inputs[k].previousOutput in InputsOf(tx) {
      assert InputsOf(tx)[k] == tx.data.inputs[k].previousOutput;
    }
  }

  lemma {:induction false} StoredIff(m: UtxoSet, tx: Transaction)
    ensures InputsStored(m, tx) <==> forall op :: op in InputsOf(tx) ==> op in m
    ensures InputsStored(m, tx) ==> TakenIn(m, tx) == InputSum(m, InputsOf(tx))
  {
    InputsListed(tx);
    hide InputsOf, InputSum;
    if InputsStored(m, tx) {
      InputsAddUp(m, InputsOf(tx));
      assert InValues(m, tx) == At(m, InputsOf(tx));
    }
  }

  lemma {:induction false} PaymentRuleIff(m: UtxoSet, tx: Transaction, recover: Recover)
    requires tx.data.kind.Payment?
    ensures PaymentRule(m, tx, recover) <==> TxOk(m, tx, recover)
    ensures TxOk(m, tx, recover) ==>
              InputsStored(m, tx)
              && InputSum(m, Inputs(tx)) == TakenIn(m, tx) && OutputSum(tx.data.outputs) == GivenOut(tx)
  {
    InputsListed(tx);
    StoredIff(m, tx);
    OutputsAddUp(tx.data.outputs);
    hide InputsOf, Inputs, InputSum, OutputSum, Sum;
  }

  lemma TwinsIff(txs: seq<Transaction>)
    ensures NoTwins(txs) <==> UniqueOutputs(txs)
  {
    forall i: nat, op ensures Creates(txs, i, op) <==> i < |txs| && MakesOutput(txs[i], op) {
      if i < |txs| { OutputsLiterally(txs[i]); }
    }
    hide Creates;
    if NoTwins(txs) {
      forall i: nat, j: nat, op | Creates(txs, i, op) && Creates(txs, j, op) ensures i == j {}
    }
    if !NoTwins(txs) {
      var t, u :| 0 <= t < u < |txs| && txs[t].data == txs[u].data && txs[t].data.outputs != [];
      assert Creates(txs, t, OutPoint(TxId(txs[t].data), 0)) && Creates(txs, u, OutPoint(TxId(txs[t].data), 0));
    }
  }

  lemma {:induction false} NamedOnceIff(txs: seq<Transaction>)
    ensures NamedOnce(txs) <==> Distinct(InputsInOrder(txs))
  {
    forall t: nat | t < |txs| ensures forall op :: op in InputsOf(txs[t]) <==>
      exists k :: 0 <= k < |txs[t].data.inputs| && txs[t].data.inputs[k].previousOutput == op
    {
      InputsListed(txs[t]);
    }
    if NamedOnce(txs) { NamedOnceDistinct(txs); }
    if Distinct(InputsInOrder(txs)) { DistinctNamedOnce(txs); }
  }

  lemma {:induction false} NamedOnceDistinct(txs: seq<Transaction>)
    requires NamedOnce(txs)
    ensures Distinct(InputsInOrder(txs))
  {
    forall t: nat | t < |txs| ensures Distinct(InputsOf(txs[t])) { InputsListed(txs[t]); }
    forall t: nat, u: nat, op | t < u < |txs| && op in InputsOf(txs[t]) ensures op !in InputsOf(txs[u]) {
      InputsListed(txs[t]);
      InputsListed(txs[u]);
    }
    InputsApartDistinct(txs);
  }

  lemma {:induction false} DistinctNamedOnce(txs: seq<Transaction>)
    requires Distinct(InputsInOrder(txs))
    ensures NamedOnce(txs)
  {
    forall t, k, u, l |
      && 0 <= t < |txs| && 0 <= k < |txs[t].data.inputs|
      && 0 <= u < |txs| && 0 <= l < |txs[u].data.inputs|
      && txs[t].data.inputs[k].previousOutput == txs[u].data.inputs[l].previousOutput
      ensures t == u && k == l
    {
      var op := txs[t].data.inputs[k].previousOutput;
      InputsListed(txs[t]);
      InputsListed(txs[u]);
      hide InputsOf;
      if t != u { InputsApart(txs, t, u, op); } else { InputAmong(txs, t, op); }
    }
  }

  lemma OutsideIff(m: UtxoSet, txs: seq<Transaction>)
    ensures FromOutside(m, txs) <==>
            Independent(txs) && forall t: nat, op :: t < |txs| && op in InputsOf(txs[t]) ==> op in m
  {
    forall op ensures Made(txs, op) <==> exists i: nat :: Creates(txs, i, op) { MadeIff(txs, op); }
    forall t: nat | t < |txs| ensures forall op :: op in InputsOf(txs[t]) <==>
      exists k :: 0 <= k < |txs[t].data.inputs| && txs[t].data.inputs[k].previousOutput == op
    {
      InputsListed(txs[t]);
    }
    hide InputsOf, Creates, Made;
    if FromOutside(m, txs) {
      forall t: nat, s: nat ensures !DependsOn(txs, t, s) {}
    }
    if Independent(txs) {
      forall t: nat, op | t < |txs| && op in InputsOf(txs[t]) ensures !Made(txs, op) {
        forall i: nat ensures !Creates(txs, i, op) { assert Creates(txs, i, op) ==> DependsOn(txs, t, i); }
      }
    }
  }

  lemma MadeIff(txs: seq<Transaction>, op: OutPoint)
    ensures Made(txs, op) <==> exists i: nat :: Creates(txs, i, op)
  {
    forall tx ensures op in Outputs(tx) <==> MakesOutput(tx, op) { OutputsLiterally(tx); }
    hide Outputs, MakesOutput;
    if Made(txs, op) {
      var tx :| tx in txs && MakesOutput(tx, op);
      var i :| 0 <= i < |txs| && txs[i] == tx;
      assert Creates(txs, i, op);
    }
  }

  /** Every payment among txs meets the payment rule, and whatever any of them names is stored. */
  predicate PaymentsOk(m: UtxoSet, txs: seq<Transaction>, recover: Recover)
  {
    forall t :: 0 <= t < |txs| ==>
      InputsStored(m, txs[t]) && (txs[t].data.kind.Payment? ==> PaymentRule(m, txs[t], recover))
  }

  /** While the payments meet their rule, the fees are the surplus as long as it fits. */
  lemma {:induction false} FeesAreSurplus(m: UtxoSet, txs: seq<Transaction>, recover: Recover)
    requires PaymentsOk(m, txs, recover)
    ensures Surplus(m, txs) >= 0
    ensures FeeTotal(m, txs) == if Surplus(m, txs) <= U64_MAX then Some(Surplus(m, txs)) else None
  {
    hide PaymentRule, InputSum, OutputSum, TakenIn, GivenOut, ValueRuleOk, Inputs;
    if txs != [] {
      var n := |txs| - 1;
      FeesAreSurplus(m, txs[..n], recover);
      if txs[n].data.kind.Payment? { PaymentValue(m, txs[n], recover); }
    }
  }

  lemma {:induction false} PaymentValue(m: UtxoSet, tx: Transaction, recover: Recover)
    requires tx.data.kind.Payment? && PaymentRule(m, tx, recover)
    ensures ValueRuleOk(m, tx) && GivenOut(tx) <= TakenIn(m, tx)
    ensures InputSum(m, Inputs(tx)) == TakenIn(m, tx) && OutputSum(tx.data.outputs) == GivenOut(tx)
  {
    PaymentRuleIff(m, tx, recover);
    hide InputSum, OutputSum, TakenIn, GivenOut, Inputs;
  }

  lemma {:induction false} RewardIff(m: UtxoSet, txs: seq<Transaction>, subsidy: u64, recover: Recover)
    requires txs != [] && |txs[0].data.outputs| == 1 && PaymentsOk(m, txs, recover)
    ensures RewardOk(m, txs, subsidy) <==>
            txs[0].data.outputs[0].value <= subsidy + Surplus(m, txs) <= U64_MAX
  {
    FeesAreSurplus(m, txs, recover);
    hide FeeTotal, Surplus, PaymentsOk;
  }

  lemma KindsChecked(b: Block, m: UtxoSet, recover: Recover)
    requires CompositionOk(b) && !b.header.IsGenesis()
    ensures (forall t: nat :: t < |b.txs| ==> TxOk(m, b.txs[t], recover)) <==>
            && b.txs[0].data.inputs == [] && |b.txs[0].data.outputs| == 1
            && forall t :: 1 <= t < |b.txs| ==> PaymentRule(m, b.txs[t], recover)
  {
    forall t | 1 <= t < |b.txs| ensures PaymentRule(m, b.txs[t], recover) <==> TxOk(m, b.txs[t], recover) {
      PaymentRuleIff(m, b.txs[t], recover);
    }
    assert TxOk(m, b.txs[0], recover) <==> b.txs[0].data.inputs == [] && |b.txs[0].data.outputs| == 1;
    hide TxOk, PaymentRule;
  }

  /** The validator accepts exactly the blocks that meet the rules. */
  lemma AcceptsIffRules(b: Block, c: GenesisState, m: UtxoSet, recover: Recover)
    requires CompositionOk(b) && !b.header.IsGenesis()
    ensures Accepts(b, c, m, recover) <==> MeetsRules(b, c, m, recover)
  {
    hide Accepts, TxOk, PaymentRule, UniqueOutputs, NoTwins, NamedOnce, FromOutside, RewardOk, BlockSubsidy,
      Independent, Surplus, InputsInOrder, Distinct, InputsOf, CompositionOk;
    assert b.txs != [] by { PaymentInputs(b); }
    AcceptsOverStored(b, c, m, recover);
    TwinsIff(b.txs);
    NamedOnceIff(b.txs);
    OutsideIff(m, b.txs);
    KindsChecked(b, m, recover);
    IndependentOrdered(b.txs);
    if (AcceptsStored(b, c, m, recover) || MeetsRules(b, c, m, recover)) {
      RewardSide(b, c, m, recover);
    }
  }

  lemma IndependentOrdered(txs: seq<Transaction>)
    ensures Independent(txs) ==> Ordered(txs)
  {
    hide DependsOn;
  }

  lemma {:induction false} RewardSide(b: Block, c: GenesisState, m: UtxoSet, recover: Recover)
    requires CompositionOk(b) && !b.header.IsGenesis()
    requires FromOutside(m, b.txs) && b.txs[0].data.inputs == [] && |b.txs[0].data.outputs| == 1
    requires forall t :: 1 <= t < |b.txs| ==> PaymentRule(m, b.txs[t], recover)
    ensures forall t :: 0 <= t < |b.txs| ==> InputsStored(m, b.txs[t])
    ensures RewardOk(m, b.txs, BlockSubsidy(c, b.header.height)) <==>
            b.txs[0].data.outputs[0].value <= BlockSubsidy(c, b.header.height) + Surplus(m, b.txs) <= U64_MAX
  {
    hide RewardOk, BlockSubsidy, Surplus;
    assert PaymentsOk(m, b.txs, recover);
    hide PaymentRule;
    RewardIff(m, b.txs, BlockSubsidy(c, b.header.height), recover);
  }

  lemma {:induction false} SpentIsInputs(txs: seq<Transaction>)
    requires forall t: nat :: t < |txs| ==> Inputs(txs[t]) == InputsOf(txs[t])
    ensures SpentInOrder(txs) == InputsInOrder(txs)
  {
    hide Inputs, InputsOf;
    if txs != [] { SpentIsInputs(txs[..|txs| - 1]); }
  }

  lemma RulesGiveUniqueInputs(b: Block, c: GenesisState, m: UtxoSet, recover: Recover)
    requires !b.header.IsGenesis() && CompositionOk(b) && MeetsRules(b, c, m, recover)
    ensures UniqueInputs(b)
  {
    hide InputsInOrder, SpentInOrder, Distinct, PaymentRule, Surplus, BlockSubsidy, NamedOnce;
    PaymentInputs(b);
    NoInputsListed(b.txs[0]);
    NamedOnceIff(b.txs);
    SpentIsInputs(b.txs);
  }

  // ---------------------------------------------------------------- who may spend

  /** Whatever an accepted block takes is stored, and its owner signed the payment that takes it. */
  lemma AcceptedAreSigned(b: Block, c: GenesisState, m: UtxoSet, recover: Recover, t: nat, k: nat)
    requires CompositionOk(b) && Accepts(b, c, m, recover)
    requires t < |b.txs| && b.txs[t].data.kind.Payment? && k < |b.txs[t].data.inputs|
    ensures var op := b.txs[t].data.inputs[k].previousOutput;
            op in m && recover(b.txs[t]) == Some(m[op].owner)
  {
    hide OrderOk, RewardOk, ValueRuleOk, BlockSubsidy;
    InputsListed(b.txs[t]);
    var op := b.txs[t].data.inputs[k].previousOutput;
    assert op in Inputs(b.txs[t]);
    assert TxOk(Managed(m, b.txs), b.txs[t], recover);
    PaymentTakesFrom(Managed(m, b.txs), b.txs[t], recover);
  }

  /** A payment of someone else's output, or of nothing stored, keeps the whole block out. */
  lemma ForeignInputRejected(b: Block, c: GenesisState, m: UtxoSet, recover: Recover, t: nat, k: nat)
    requires CompositionOk(b) && t < |b.txs| && b.txs[t].data.kind.Payment? && k < |b.txs[t].data.inputs|
    requires var op := b.txs[t].data.inputs[k].previousOutput;
             op !in m || recover(b.txs[t]) != Some(m[op].owner)
    ensures !Accepts(b, c, m, recover)
  {
    hide Accepts, CompositionOk;
    if Accepts(b, c, m, recover) { AcceptedAreSigned(b, c, m, recover, t, k); }
  }

  /** Along an accepted chain an entry leaves the set only by a payment that its owner signed. */
  lemma {:induction false} LeavesSigned(chain: seq<Block>, n: nat, c: GenesisState, recover: Recover, op: OutPoint)
    requires ChainAccepted(chain, c, recover) && 1 <= n < |chain| && Replay(chain[..n + 1]).Ok?
    requires op in Replay(chain[..n]).value.utxos && op !in Replay(chain[..n + 1]).value.utxos
    ensures exists tx :: tx in chain[n].txs && TakesInput(tx, op)
                         && recover(tx) == Some(Replay(chain[..n]).value.utxos[op].owner)
  {
    hide ApplyBlocks, ApplyBlock, Accepts, CompositionOk;
    var longer, m := chain[..n + 1], Replay(chain[..n]).value.utxos;
    assert longer[..n] == chain[..n];
    LastUndo(map[], longer);
    assert AcceptedAfter(chain[n], c, m, recover);
    LeavesByPayment(m, chain[n].txs, op);
    var tx :| tx in chain[n].txs && TakesInput(tx, op);
    var t :| 0 <= t < |chain[n].txs| && chain[n].txs[t] == tx;
    var k :| 0 <= k < |tx.data.inputs| && tx.data.inputs[k].previousOutput == op;
    AcceptedAreSigned(chain[n], c, m, recover, t, k);
  }

  lemma LeavesByPayment(m: UtxoSet, txs: seq<Transaction>, op: OutPoint)
    requires ApplyBlock(m, txs).Ok? && op in m && op !in ApplyBlock(m, txs).value.utxos
    ensures exists tx :: tx in txs && TakesInput(tx, op)
  {
    NetIsLiteral(txs);
    hide NetBlock, TakesInput, Made, Entered;
    assert op in NetBlock(txs).external;
  }
}
