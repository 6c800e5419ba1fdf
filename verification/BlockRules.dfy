/** The static block rules of the validator, and one rule it does not have. */
module BlockRules {
  import opened Primitives
  import opened ChainTypes
  import opened UtxoProcessor

  /** Compared as whole transactions, signature included. */
  ghost predicate UniqueTxs(b: Block) { Distinct(b.txs) }

  predicate CompositionOk(b: Block)
  {
    !b.header.IsGenesis() ==>
      && b.txs != []
      && b.txs[0].data.kind.Coinbase?
      && forall i :: 1 <= i < |b.txs| ==> b.txs[i].data.kind.Payment?
  }

  /** Every outpoint payments spend, in block order. */
  function SpentInOrder(txs: seq<Transaction>): seq<OutPoint>
  {
    if txs == [] then [] else SpentInOrder(txs[..|txs| - 1]) + Inputs(txs[|txs| - 1])
  }

  ghost predicate UniqueInputs(b: Block) { Distinct(SpentInOrder(b.txs)) }

  predicate CoinbaseContextOk(b: Block)
  {
    b.header.IsGenesis() || b.txs == [] ||
    match b.txs[0].data.kind
    case Coinbase(height, parent) => height == b.header.height && parent == b.header.previousBlockHash
    case _ => true
  }

  ghost predicate StructureOk(b: Block)
  {
    UniqueTxs(b) && CompositionOk(b) && UniqueInputs(b) && CoinbaseContextOk(b)
  }

  /** Header checks that need no branch view: the marker only on genesis, a positive
      threshold elsewhere, and a root that commits to the body. */
  predicate HeaderOk(b: Block)
  {
    b.header.WorkShapeOk() && (!b.header.IsGenesis() ==> b.header.hashThreshold != 0) && b.MerkleRootValid()
  }

  function OutputSum(outs: seq<TransactionOut>): nat
  {
    if outs == [] then 0 else OutputSum(outs[..|outs| - 1]) + outs[|outs| - 1].value
  }

  function InputSum(m: UtxoSet, ops: seq<OutPoint>): nat
    requires forall op :: op in ops ==> op in m
  {
    if ops == [] then 0 else InputSum(m, ops[..|ops| - 1]) + m[ops[|ops| - 1]].value
  }

  /** The value rule of validate_payment_tx; m resolves its inputs. */
  predicate ValueRuleOk(m: UtxoSet, tx: Transaction)
  {
    var ops := Inputs(tx);
    && (forall op :: op in ops ==> op in m)
    && OutputSum(tx.data.outputs) <= InputSum(m, ops) <= U64_MAX
  }

  /** Not enforced by the source: a payment has at least one input. */
  predicate PaymentsSpend(txs: seq<Transaction>)
  {
    forall i :: 0 <= i < |txs| && txs[i].data.kind.Payment? ==> txs[i].data.inputs != []
  }

  /** A block a branch may carry above genesis. */
  ghost predicate WellFormed(b: Block)
  {
    !b.header.IsGenesis() && HeaderOk(b) && StructureOk(b)
  }

  lemma NotGenesis(b: Block)
    requires WellFormed(b)
    ensures !b.header.IsGenesis() && b.header.WorkShapeOk() && b.header.hashThreshold != 0
  {}

  predicate GenesisOk(b: Block)
  {
    && b.header.WorkShapeOk()
    && b.header.IsGenesis()
    && b.header.genesisState.value.pow.Valid()
    && b.MerkleRootValid()
    && |b.txs| == 1
    && b.txs[0].data.kind == GenesisAllocation
    && b.txs[0].data.inputs == []
    && b.txs[0].data.outputs != []
    && AllocationsOk(b.txs[0].data.outputs)
  }

  predicate AllocationsOk(outs: seq<TransactionOut>)
  {
    && (forall i :: 0 <= i < |outs| ==> outs[i].value != 0)
    && (forall i, j :: 0 <= i < j < |outs| ==> outs[i].recipient != outs[j].recipient)
  }
}
