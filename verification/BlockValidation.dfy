/** Validation of a block's transactions against the stored UTXO set, and what it buys:
    the block can be applied, and it mints no more than its subsidy. */
module BlockValidation {
  import opened Arithmetic
  import opened Primitives
  import opened Collections
  import opened ChainTypes
  import opened UtxoProcessor
  import opened BlockRules
  import opened BlockDag

  /** The address a signature commits to, or nothing for a bad signature. */
  type Recover = Transaction -> Option<nat>

  // ---------------------------------------------------------------- subsidy

  function SaturatingMul(a: u64, b: u64): u64 { if a * b <= U64_MAX then a * b else U64_MAX }

  function SaturatingSub(a: u64, b: u64): u64 { if b <= a then a - b else 0 }

  function BlockSubsidy(c: GenesisState, height: u64): u64
  {
    if c.decayInterval == 0 then c.initialSubsidy
    else
      QuotientBelow(height, c.decayInterval);
      SaturatingSub(c.initialSubsidy, SaturatingMul(height / c.decayInterval, c.decayStep))
  }

  /** The saturating u64 arithmetic computes the documented formula exactly. */
  lemma SubsidyIsFormula(c: GenesisState, height: u64)
    ensures c.decayInterval == 0 ==> BlockSubsidy(c, height) == c.initialSubsidy
    ensures c.decayInterval != 0 ==>
              var drop := (height / c.decayInterval) * c.decayStep;
              BlockSubsidy(c, height) == if drop <= c.initialSubsidy then c.initialSubsidy - drop else 0
  {
    if c.decayInterval != 0 { QuotientBelow(height, c.decayInterval); }
  }

  lemma DropMonotone(low: nat, high: nat, interval: nat, step: nat)
    requires low <= high && interval != 0
    ensures low / interval * step <= high / interval * step
  {
    DivMonotone(low, high, interval);
    QuotientBelow(low, interval);
    MulMonotone(low / interval, high / interval, step, step);
  }

  lemma SubsidyNeverGrows(c: GenesisState, low: u64, high: u64)
    requires low <= high
    ensures BlockSubsidy(c, high) <= BlockSubsidy(c, low) <= c.initialSubsidy
  {
    if c.decayInterval != 0 {
      SubsidyIsFormula(c, low);
      SubsidyIsFormula(c, high);
      hide BlockSubsidy;
      DropMonotone(low, high, c.decayInterval, c.decayStep);
      QuotientBelow(low, c.decayInterval);
      MulMonotone(0, low / c.decayInterval, 0, c.decayStep);
    }
  }

  // ---------------------------------------------------------------- one transaction

  /** What validate_transaction accepts when m resolves the inputs. */
  predicate TxOk(m: UtxoSet, tx: Transaction, recover: Recover)
  {
    match tx.data.kind
    case GenesisAllocation => tx.data.inputs == [] && tx.data.outputs != []
    case Coinbase(_, _) => tx.data.inputs == [] && |tx.data.outputs| == 1
    case Payment =>
      && recover(tx).Some?
      && ValueRuleOk(m, tx)
      && forall op :: op in Inputs(tx) ==> m[op].owner == recover(tx).value
  }

  lemma {:induction false} OutputSumMonotone(outs: seq<TransactionOut>, k: nat)
    requires k <= |outs|
    ensures OutputSum(outs[..k]) <= OutputSum(outs)
  {
    if k == |outs| {
      assert outs[..k] == outs;
    } else {
      OutputSumMonotone(outs[..|outs| - 1], k);
      assert outs[..|outs| - 1][..k] == outs[..k];
    }
  }

  lemma {:induction false} InputSumMonotone(m: UtxoSet, ops: seq<OutPoint>, k: nat)
    requires k <= |ops| && forall op :: op in ops ==> op in m
    ensures InputSum(m, ops[..k]) <= InputSum(m, ops)
  {
    if k == |ops| {
      assert ops[..k] == ops;
    } else {
      InputSumMonotone(m, ops[..|ops| - 1], k);
      assert ops[..|ops| - 1][..k] == ops[..k];
    }
  }

  /** try_fold with checked_add over the outputs. */
  method SumOutputs(outs: seq<TransactionOut>) returns (sum: Option<u64>)
    ensures sum == if OutputSum(outs) <= U64_MAX then Some(OutputSum(outs)) else None
  {
    var total: u64 := 0;
    for k := 0 to |outs|
      invariant total == OutputSum(outs[..k])
    {
      assert outs[..k + 1][..k] == outs[..k];
      OutputSumMonotone(outs, k + 1);
      if total + outs[k].value > U64_MAX { return None; }
      total := total + outs[k].value;
    }
    assert outs[..|outs|] == outs;
    sum := Some(total);
  }

  function Resolve(inBlock: UtxoSet, managed: UtxoSet, op: OutPoint): Option<Utxo>
  {
    if op in inBlock then Some(inBlock[op]) else if op in managed then Some(managed[op]) else None
  }

  /** Inputs a payment may take: unreserved, resolved, its author's, and summing to a u64. */
  ghost predicate InputsGood(m: UtxoSet, ops: seq<OutPoint>, spent: set<OutPoint>, author: nat)
  {
    && Distinct(ops) && Elements(ops) !! spent
    && (forall op :: op in ops ==> op in m && m[op].owner == author)
    && InputSum(m, ops) <= U64_MAX
  }

  lemma {:induction false} GoodStep(m: UtxoSet, ops: seq<OutPoint>, op: OutPoint, spent: set<OutPoint>, author: nat)
    requires InputsGood(m, ops, spent, author)
    ensures InputsGood(m, ops + [op], spent, author) <==>
            && op !in spent + Elements(ops)
            && op in m && m[op].owner == author
            && InputSum(m, ops) + m[op].value <= U64_MAX
    ensures InputsGood(m, ops + [op], spent, author) ==> InputSum(m, ops + [op]) == InputSum(m, ops) + m[op].value
  {
    var longer := ops + [op];
    assert longer[..|ops|] == ops && op in longer;
    assert forall x :: x in longer <==> x in ops || x == op;
    DistinctAppend(ops, op);
  }

  lemma GoodPrefix(m: UtxoSet, ops: seq<OutPoint>, k: nat, spent: set<OutPoint>, author: nat)
    requires k <= |ops| && InputsGood(m, ops, spent, author)
    ensures InputsGood(m, ops[..k], spent, author)
  {
    PrefixOfDistinct(ops, ops[..k]);
    InputSumMonotone(m, ops, k);
  }

  /** The input loop of validate_payment_tx: reserve, resolve, check the owner, add up. */
  method CheckInputs(ops: seq<OutPoint>, managed: UtxoSet, inBlock: UtxoSet, spent: set<OutPoint>, author: nat)
    returns (sum: Option<u64>, spent': set<OutPoint>)
    ensures sum.Some? <==> InputsGood(managed + inBlock, ops, spent, author)
    ensures sum.Some? ==> sum.value == InputSum(managed + inBlock, ops) && spent' == spent + Elements(ops)
  {
    ghost var m := managed + inBlock;
    spent' := spent;
    var total: u64 := 0;
    assert ops[..0] == [];
    for k := 0 to |ops|
      invariant InputsGood(m, ops[..k], spent, author)
      invariant spent' == spent + Elements(ops[..k]) && total == InputSum(m, ops[..k])
    {
      hide InputsGood, InputSum;
      var op := ops[k];
      assert ops[..k + 1] == ops[..k] + [op];
      GoodStep(m, ops[..k], op, spent, author);
      if !InputsGood(m, ops[..k + 1], spent, author) {
        assert !InputsGood(m, ops, spent, author) by {
          if InputsGood(m, ops, spent, author) { GoodPrefix(m, ops, k + 1, spent, author); }
        }
      }
      if op in spent' { return None, spent'; }
      spent' := spent' + {op};
      var utxo := Resolve(inBlock, managed, op);
      if utxo == None || utxo.value.owner != author { return None, spent'; }
      if total + utxo.value.value > U64_MAX { return None, spent'; }
      total := total + utxo.value.value;
    }
    assert ops[..|ops|] == ops;
    sum := Some(total);
  }

  method ValidateTransaction(tx: Transaction, managed: UtxoSet, inBlock: UtxoSet, spent: set<OutPoint>,
                             recover: Recover)
    returns (ok: bool, spent': set<OutPoint>)
    ensures ok <==> TxOk(managed + inBlock, tx, recover) && Distinct(Inputs(tx)) && Elements(Inputs(tx)) !! spent
    ensures ok ==> spent' == spent + Elements(Inputs(tx))
  {
    spent' := spent;
    match tx.data.kind {
      case GenesisAllocation => ok := tx.data.inputs == [] && tx.data.outputs != [];
      case Coinbase(_, _) => ok := tx.data.inputs == [] && |tx.data.outputs| == 1;
      case Payment =>
        var author := recover(tx);
        if author == None { return false, spent'; }
        var inSum, reserved := CheckInputs(Inputs(tx), managed, inBlock, spent, author.value);
        spent' := reserved;
        if inSum == None { return false, spent'; }
        var outSum := SumOutputs(tx.data.outputs);
        ok := outSum.Some? && outSum.value <= inSum.value;
    }
  }

  // ---------------------------------------------------------------- a layer

  /** Every reserved outpoint was reserved for one of the transactions in done. */
  ghost predicate ReservedFor(txs: seq<Transaction>, spent: set<OutPoint>, done: set<nat>)
  {
    forall op :: op in spent ==> exists t :: t in done && t < |txs| && op in InputsOf(txs[t])
  }

  lemma {:induction false} InputsApart(txs: seq<Transaction>, t: nat, u: nat, op: OutPoint)
    requires Distinct(InputsInOrder(txs)) && t < |txs| && u < |txs| && t != u
    ensures op in InputsOf(txs[t]) ==> op !in InputsOf(txs[u])
  {
    var n := |txs| - 1;
    var before := txs[..n];
    DistinctConcat(InputsInOrder(before), InputsOf(txs[n]));
    if t < n && u < n {
      InputsApart(before, t, u, op);
    } else {
      var first: nat := if t < n then t else u;
      InputAmong(before, first, op);
      assert op in InputsOf(txs[n]) ==> op in Elements(InputsOf(txs[n]));
    }
  }

  lemma {:induction false} InputAmong(txs: seq<Transaction>, t: nat, op: OutPoint)
    requires t < |txs|
    ensures op in InputsOf(txs[t]) ==> op in InputsInOrder(txs)
    ensures Distinct(InputsInOrder(txs)) ==> Distinct(InputsOf(txs[t]))
  {
    DistinctConcat(InputsInOrder(txs[..|txs| - 1]), InputsOf(txs[|txs| - 1]));
    if t < |txs| - 1 { InputAmong(txs[..|txs| - 1], t, op); }
  }

  lemma {:induction false} NotReserved(txs: seq<Transaction>, spent: set<OutPoint>, done: set<nat>, t: nat)
    requires Distinct(InputsInOrder(txs)) && ReservedFor(txs, spent, done) && t < |txs| && t !in done
    ensures Distinct(Inputs(txs[t])) && Elements(Inputs(txs[t])) !! spent
    ensures ReservedFor(txs, spent + Elements(Inputs(txs[t])), done + {t})
  {
    forall op | op in InputsOf(txs[t]) ensures op !in spent {
      forall u: nat | u in done && u < |txs| ensures op !in InputsOf(txs[u]) { InputsApart(txs, t, u, op); }
    }
    if txs[t].data.inputs != [] { InputAmong(txs, t, InputsOf(txs[t])[0]); }
  }

  /** One layer, checked in any order in the source: its members share no input. */
  method ValidateGroup(idxs: seq<nat>, txs: seq<Transaction>, managed: UtxoSet, inBlock: UtxoSet,
                       spent: set<OutPoint>, recover: Recover, ghost done: set<nat>)
    returns (ok: bool, spent': set<OutPoint>)
    requires Distinct(InputsInOrder(txs)) && ReservedFor(txs, spent, done)
    requires Distinct(idxs) && Elements(idxs) !! done && forall t :: t in idxs ==> t < |txs|
    ensures ok <==> forall t :: t in idxs ==> TxOk(managed + inBlock, txs[t], recover)
    ensures ok ==> ReservedFor(txs, spent', done + Elements(idxs))
  {
    hide TxOk, ReservedFor;
    spent' := spent;
    assert done + Elements(idxs[..0]) == done;
    for k := 0 to |idxs|
      invariant ReservedFor(txs, spent', done + Elements(idxs[..k]))
      invariant forall t :: t in idxs[..k] ==> t < |txs| && TxOk(managed + inBlock, txs[t], recover)
    {
      var t := idxs[k];
      assert t in idxs && idxs[..k + 1] == idxs[..k] + [t];
      assert done + Elements(idxs[..k + 1]) == done + Elements(idxs[..k]) + {t};
      NotReserved(txs, spent', done + Elements(idxs[..k]), t);
      var accepted, reserved := ValidateTransaction(txs[t], managed, inBlock, spent', recover);
      if !accepted { return false, spent'; }
      spent' := reserved;
    }
    assert idxs[..|idxs|] == idxs;
    ok := true;
  }

  // ---------------------------------------------------------------- fees and reward

  method SumInputs(ops: seq<OutPoint>, managed: UtxoSet, inBlock: UtxoSet) returns (sum: Option<u64>)
    ensures sum.Some? <==>
            && (forall op :: op in ops ==> op in managed + inBlock)
            && InputSum(managed + inBlock, ops) <= U64_MAX
    ensures sum.Some? ==> sum.value == InputSum(managed + inBlock, ops)
  {
    ghost var m := managed + inBlock;
    var total: u64 := 0;
    for k := 0 to |ops|
      invariant forall op :: op in ops[..k] ==> op in m
      invariant total == InputSum(m, ops[..k])
    {
      var op := ops[k];
      assert op in ops && ops[..k + 1] == ops[..k] + [op] && ops[..k + 1][..k] == ops[..k];
      var utxo := Resolve(inBlock, managed, op);
      if utxo == None { return None; }
      assert utxo.value == m[op];
      if total + utxo.value.value > U64_MAX {
        assert (forall x :: x in ops ==> x in m) ==> InputSum(m, ops[..k + 1]) <= InputSum(m, ops) by {
          if forall x :: x in ops ==> x in m { InputSumMonotone(m, ops, k + 1); }
        }
        return None;
      }
      total := total + utxo.value.value;
    }
    assert ops[..|ops|] == ops;
    sum := Some(total);
  }

  /** Input minus output value over the payments, while it stays in a u64. */
  function FeeTotal(m: UtxoSet, txs: seq<Transaction>): Option<u64>
  {
    if txs == [] then Some(0)
    else
      var before, tx := FeeTotal(m, txs[..|txs| - 1]), txs[|txs| - 1];
      if before == None || !tx.data.kind.Payment? then before
      else if !ValueRuleOk(m, tx) then None
      else
        var total := before.value + (InputSum(m, Inputs(tx)) - OutputSum(tx.data.outputs));
        if total <= U64_MAX then Some(total) else None
  }

  lemma {:induction false} FeePrefix(m: UtxoSet, txs: seq<Transaction>, k: nat)
    requires k <= |txs| && FeeTotal(m, txs[..k]) == None
    ensures FeeTotal(m, txs) == None
  {
    if k == |txs| {
      assert txs[..k] == txs;
    } else {
      assert txs[..|txs| - 1][..k] == txs[..k];
      FeePrefix(m, txs[..|txs| - 1], k);
    }
  }

  lemma {:induction false} FeeUnfolds(m: UtxoSet, txs: seq<Transaction>, i: nat)
    requires i < |txs|
    ensures FeeTotal(m, txs[..i + 1]) ==
            var before, tx := FeeTotal(m, txs[..i]), txs[i];
            if before == None || !tx.data.kind.Payment? then before
            else if !ValueRuleOk(m, tx) then None
            else
              var total := before.value + (InputSum(m, Inputs(tx)) - OutputSum(tx.data.outputs));
              if total <= U64_MAX then Some(total) else None
    ensures FeeTotal(m, txs[..i + 1]) == None ==> FeeTotal(m, txs) == None
  {
    hide InputSum, OutputSum, Inputs, ValueRuleOk;
    assert txs[..i + 1][..i] == txs[..i];
    if FeeTotal(m, txs[..i + 1]) == None { FeePrefix(m, txs, i + 1); }
  }

  method CalculateTotalFees(txs: seq<Transaction>, managed: UtxoSet, inBlock: UtxoSet) returns (fees: Option<u64>)
    ensures fees == FeeTotal(managed + inBlock, txs)
  {
    hide InputSum, OutputSum, Inputs, FeeTotal;
    ghost var m := managed + inBlock;
    var total: u64 := 0;
    NoFees(m, txs);
    for i := 0 to |txs|
      invariant FeeTotal(m, txs[..i]) == Some(total)
    {
      var tx := txs[i];
      FeeUnfolds(m, txs, i);
      if tx.data.kind.Payment? {
        var inputs := SumInputs(Inputs(tx), managed, inBlock);
        if inputs == None { return None; }
        var outputs := SumOutputs(tx.data.outputs);
        if outputs == None || outputs.value > inputs.value { return None; }
        if total + (inputs.value - outputs.value) > U64_MAX { return None; }
        total := total + (inputs.value - outputs.value);
      }
    }
    assert txs[..|txs|] == txs;
    fees := Some(total);
  }

  lemma {:induction false} NoFees(m: UtxoSet, txs: seq<Transaction>)
    ensures FeeTotal(m, txs[..0]) == Some(0)
  {}

  /** The coinbase takes at most the subsidy and the fees. */
  predicate RewardOk(m: UtxoSet, txs: seq<Transaction>, subsidy: u64)
    requires txs != [] && txs[0].data.outputs != []
  {
    var fees := FeeTotal(m, txs);
    && fees.Some?
    && subsidy + fees.value <= U64_MAX
    && txs[0].data.outputs[0].value <= subsidy + fees.value
  }

  method RewardRule(txs: seq<Transaction>, subsidy: u64, managed: UtxoSet, inBlock: UtxoSet) returns (ok: bool)
    requires txs != [] && txs[0].data.outputs != []
    ensures ok <==> RewardOk(managed + inBlock, txs, subsidy)
  {
    var fees := CalculateTotalFees(txs, managed, inBlock);
    ok := fees.Some? && subsidy + fees.value <= U64_MAX && txs[0].data.outputs[0].value <= subsidy + fees.value;
  }

  // ---------------------------------------------------------------- the whole block

  /** The stored entries the validator fetches: the inputs the block does not create itself. */
  ghost function Managed(m: UtxoSet, txs: seq<Transaction>): UtxoSet
  {
    map op | op in m && UsedOutside(txs, |txs|, op) :: m[op]
  }

  /** What validate_transactions accepts, on a block whose composition was checked. */
  ghost predicate Accepts(b: Block, c: GenesisState, m: UtxoSet, recover: Recover)
    requires CompositionOk(b)
  {
    && OrderOk(b.txs)
    && (forall op :: UsedOutside(b.txs, |b.txs|, op) ==> op in m)
    && (forall t :: 0 <= t < |b.txs| ==> TxOk(Managed(m, b.txs), b.txs[t], recover))
    && (!b.header.IsGenesis() ==> RewardOk(Managed(m, b.txs), b.txs, BlockSubsidy(c, b.header.height)))
  }

  method ValidateTransactions(b: Block, c: GenesisState, m: UtxoSet, recover: Recover)
    returns (r: Result<(), CoreError>)
    requires CompositionOk(b)
    ensures r.Ok? <==> Accepts(b, c, m, recover)
  {
    hide TxOk, OrderOk, ReservedFor, BlockSubsidy, RewardOk, Reservable, DependencyGraph.Represents;
    OrderOkMeans(b.txs);
    var graph :- DependencyGraph.Build(b.txs);
    var _ :- graph.ValidateOrder(b.txs);
    GraphExternals(graph, b.txs);
    if exists op :: op in graph.externalInputs && op !in m { return Err(ValidationFailed); }
    var managed := map op | op in m && op in graph.externalInputs :: m[op];
    assert managed == Managed(m, b.txs);
    var inBlock: UtxoSet := map[];
    assert managed + inBlock == managed;
    var groups := graph.GetParallelExecutionGroups(b.txs);
    var valid := ValidateGroups(groups, b.txs, managed, inBlock, recover);
    if !valid { return Err(ValidationFailed); }
    if !b.header.IsGenesis() {
      CoinbaseHasOutput(b, managed, recover);
      var rewarded := RewardRule(b.txs, BlockSubsidy(c, b.header.height), managed, inBlock);
      if !rewarded { return Err(ValidationFailed); }
    }
    r := Ok(());
  }

  lemma {:induction false} OrderOkMeans(txs: seq<Transaction>)
    ensures OrderOk(txs) <==> UniqueOutputs(txs) && Reservable({}, InputsInOrder(txs)) && Ordered(txs)
    ensures OrderOk(txs) ==> Distinct(InputsInOrder(txs))
  {}

  lemma GraphExternals(g: DependencyGraph, txs: seq<Transaction>)
    requires g.Represents(txs)
    ensures forall op :: op in g.externalInputs <==> UsedOutside(txs, |txs|, op)
  {}

  lemma CoinbaseHasOutput(b: Block, m: UtxoSet, recover: Recover)
    requires CompositionOk(b) && !b.header.IsGenesis()
    requires forall t :: 0 <= t < |b.txs| ==> TxOk(m, b.txs[t], recover)
    ensures b.txs != [] && |b.txs[0].data.outputs| == 1
  {}

  ghost function LevelsBelow(txs: seq<Transaction>, g: nat): set<nat>
  {
    set t: nat | t < |txs| && Level(txs, t) < g
  }

  lemma LayerStep(txs: seq<Transaction>, groups: seq<seq<nat>>, g: nat)
    requires Layers(txs, groups) && g < |groups|
    ensures Distinct(groups[g]) && Elements(groups[g]) !! LevelsBelow(txs, g)
    ensures forall t :: t in groups[g] ==> t < |txs|
    ensures LevelsBelow(txs, g + 1) == LevelsBelow(txs, g) + Elements(groups[g])
  {
    hide Level, AtLevel;
    AtLevelHolds(txs, g, |txs|);
  }

  method ValidateGroups(groups: seq<seq<nat>>, txs: seq<Transaction>, managed: UtxoSet, inBlock: UtxoSet,
                        recover: Recover)
    returns (ok: bool)
    requires Layers(txs, groups) && Distinct(InputsInOrder(txs))
    ensures ok <==> forall t :: 0 <= t < |txs| ==> TxOk(managed + inBlock, txs[t], recover)
  {
    hide TxOk, Level, AtLevel;
    var spent: set<OutPoint> := {};
    for g := 0 to |groups|
      invariant ReservedFor(txs, spent, LevelsBelow(txs, g))
      invariant forall t :: t in LevelsBelow(txs, g) ==> TxOk(managed + inBlock, txs[t], recover)
    {
      hide ReservedFor, LevelsBelow;
      LayerStep(txs, groups, g);
      var accepted, reserved := ValidateGroup(groups[g], txs, managed, inBlock, spent, recover, LevelsBelow(txs, g));
      if !accepted { return false; }
      spent := reserved;
    }
    assert forall t :: 0 <= t < |txs| ==> t in LevelsBelow(txs, |groups|);
    ok := true;
  }
}
