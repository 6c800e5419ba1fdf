/** The miner's candidate block over a mempool selection, and what the validator makes of it. */
module Candidate {
  import opened Primitives
  import opened Collections
  import opened ChainTypes
  import opened UtxoProcessor
  import opened BlockRules
  import opened BlockDag
  import opened BlockValidation
  import opened Supply
  import opened InBlockSpending
  import opened Tracker
  import opened MempoolStorage
  import opened Mempool
  import opened Audit
  import opened AcceptanceRules

  datatype MiningContext = MiningContext(
    version: nat, parent: BlockHash, height: u64, threshold: u256, timestamp: u64, nonce: u32,
    rewardAddress: nat, unsigned: seq<nat>)

  /** The reward in front, then the selection in its order. */
  function CandidateTxs(x: MiningContext, subsidy: u64, best: seq<Transaction>): seq<Transaction>
  {
    [Transaction(TransactionData(x.version, Coinbase(x.height, x.parent), [],
                                 [TransactionOut(subsidy, x.rewardAddress)]), x.unsigned)] + best
  }

  function CandidateBlock(x: MiningContext, subsidy: u64, best: seq<Transaction>): Block
  {
    var txs := CandidateTxs(x, subsidy, best);
    Block(BlockHeader(x.version, MerkleRoot(txs), x.parent, x.height, x.threshold, x.timestamp, x.nonce, None), txs)
  }

  // ---------------------------------------------------------------- a parent with its child

  /** A tracked link inside the selection is a dependency inside the block. */
  lemma LinkDepends(pool: Pool, links: set<Link>, chosen: seq<TxId>, best: seq<Transaction>, x: MiningContext,
                    subsidy: u64, l: Link)
    requires Keyed(pool) && LinksReal(links, pool) && Fetched(pool, chosen, best)
    requires l in links && l.parent in chosen && l.child in chosen
    ensures !Independent(CandidateTxs(x, subsidy, best))
  {
    hide Outputs, InputsOf;
    var txs := CandidateTxs(x, subsidy, best);
    var s :| 0 <= s < |chosen| && chosen[s] == l.parent;
    var t :| 0 <= t < |chosen| && chosen[t] == l.child;
    assert txs[s + 1] == best[s] && txs[t + 1] == best[t];
    var op :| op in InputsOf(pool[l.child].transaction) && op.txid == l.parent && Created(pool, op);
    OutputKeys(best[s]);
    assert Creates(txs, s + 1, op);
    assert DependsOn(txs, t + 1, s + 1);
  }

  /** A candidate that holds a parent with its child is never accepted, whatever is stored. */
  lemma LinkedNeverAccepted(pool: Pool, links: set<Link>, chosen: seq<TxId>, best: seq<Transaction>, x: MiningContext,
                            subsidy: u64, c: GenesisState, m: UtxoSet, recover: Recover)
    requires Keyed(pool) && LinksReal(links, pool) && Fetched(pool, chosen, best)
    requires exists l :: l in links && l.parent in chosen && l.child in chosen
    ensures var b := CandidateBlock(x, subsidy, best); CompositionOk(b) ==> !Accepts(b, c, m, recover)
  {
    hide Accepts, Independent, CompositionOk, CandidateTxs, LinksReal, Fetched, Keyed;
    var l :| l in links && l.parent in chosen && l.child in chosen;
    var b := CandidateBlock(x, subsidy, best);
    LinkDepends(pool, links, chosen, best, x, subsidy, l);
    if CompositionOk(b) && Accepts(b, c, m, recover) { AcceptedIndependent(b, c, m, recover); }
  }

  /** Selections are closed under tracked ancestors, so an accepted candidate holds no
      transaction with a tracked parent. */
  lemma AcceptedHasNoChild(pool: Pool, g: TxGraph, chosen: seq<TxId>, best: seq<Transaction>, x: MiningContext,
                           subsidy: u64, c: GenesisState, m: UtxoSet, recover: Recover)
    requires Keyed(pool) && LinksReal(g.links, pool) && Fetched(pool, chosen, best)
    requires AncestorClosed(g, Elements(chosen))
    requires CompositionOk(CandidateBlock(x, subsidy, best))
    requires Accepts(CandidateBlock(x, subsidy, best), c, m, recover)
    ensures forall l :: l in g.links ==> l.child !in chosen
  {
    hide Accepts, CompositionOk, CandidateTxs, LinksReal, Fetched, Keyed;
    forall l | l in g.links ensures l.child !in chosen {
      if l.child in chosen {
        assert LinkWalk(g.links, [l.parent, l.child]);
        assert IsAncestor(g.links, l.parent, l.child) && l.child in Elements(chosen);
        LinkedNeverAccepted(pool, g.links, chosen, best, x, subsidy, c, m, recover);
      }
    }
  }

  // ---------------------------------------------------------------- payments of stored outputs

  /** A signed payment of outputs that m holds, each taken once. */
  ghost predicate PaysStored(m: UtxoSet, tx: Transaction, recover: Recover)
  {
    tx.data.kind.Payment? && TxOk(m, tx, recover) && Distinct(InputsOf(tx))
  }

  ghost predicate OneSpenderEach(pool: Pool)
  {
    forall g, h, op :: Spends(pool, g, op) && Spends(pool, h, op) ==> g == h
  }

  ghost predicate Selected(pool: Pool, chosen: seq<TxId>, best: seq<Transaction>, m: UtxoSet, recover: Recover)
  {
    && Keyed(pool) && OneSpenderEach(pool) && Distinct(chosen) && Fetched(pool, chosen, best)
    && forall i :: 0 <= i < |best| ==> PaysStored(m, best[i], recover)
  }

  /** Distinct transactions of a pool with one spender for each outpoint make a block that passes
      the order check as soon as none depends on another. */
  lemma SelectionOrder(pool: Pool, chosen: seq<TxId>, best: seq<Transaction>, x: MiningContext, subsidy: u64,
                       m: UtxoSet, recover: Recover)
    requires Selected(pool, chosen, best, m, recover) && Independent(CandidateTxs(x, subsidy, best))
    ensures OrderOk(CandidateTxs(x, subsidy, best))
  {
    var txs := CandidateTxs(x, subsidy, best);
    SelectionUnique(pool, chosen, best, x, subsidy, m, recover);
    SelectionInputs(pool, chosen, best, x, subsidy, m, recover);
    hide Outputs, InputsOf, DependsOn, Selected, CandidateTxs, InputsInOrder;
  }

  lemma SelectionUnique(pool: Pool, chosen: seq<TxId>, best: seq<Transaction>, x: MiningContext, subsidy: u64,
                        m: UtxoSet, recover: Recover)
    requires Selected(pool, chosen, best, m, recover)
    ensures UniqueOutputs(CandidateTxs(x, subsidy, best))
  {
    hide Outputs, InputsOf, TxOk, OneSpenderEach;
    var txs := CandidateTxs(x, subsidy, best);
    forall i: nat, j: nat, op | Creates(txs, i, op) && Creates(txs, j, op) ensures i == j {
      OutputKeys(txs[i]);
      OutputKeys(txs[j]);
      assert i > 0 ==> PaysStored(m, best[i - 1], recover) && chosen[i - 1] == best[i - 1].data.Hash();
      assert j > 0 ==> PaysStored(m, best[j - 1], recover) && chosen[j - 1] == best[j - 1].data.Hash();
    }
  }

  lemma SelectionInputs(pool: Pool, chosen: seq<TxId>, best: seq<Transaction>, x: MiningContext, subsidy: u64,
                        m: UtxoSet, recover: Recover)
    requires Selected(pool, chosen, best, m, recover)
    ensures Distinct(InputsInOrder(CandidateTxs(x, subsidy, best)))
  {
    hide Keyed, TxOk, InputsInOrder;
    var txs := CandidateTxs(x, subsidy, best);
    assert InputsOf(txs[0]) == [];
    hide InputsOf;
    forall t: nat | t < |txs| ensures Distinct(InputsOf(txs[t])) {
      assert t > 0 ==> PaysStored(m, best[t - 1], recover);
    }
    forall t: nat, u: nat, op | t < u < |txs| && op in InputsOf(txs[t]) ensures op !in InputsOf(txs[u]) {
      SelectedApart(pool, chosen, best, t - 1, u - 1, op);
    }
    InputsApartDistinct(txs);
  }

  lemma SelectedApart(pool: Pool, chosen: seq<TxId>, best: seq<Transaction>, t: nat, u: nat, op: OutPoint)
    requires OneSpenderEach(pool) && Distinct(chosen) && Fetched(pool, chosen, best)
    requires t < u < |best| && op in InputsOf(best[t])
    ensures op !in InputsOf(best[u])
  {
    hide InputsOf;
    assert op in InputsOf(best[u]) <==> Spends(pool, chosen[u], op);
    assert Spends(pool, chosen[t], op);
  }

  /** Every input of the block is stored; what nothing in the block creates is fetched. */
  lemma SelectionStored(pool: Pool, chosen: seq<TxId>, best: seq<Transaction>, x: MiningContext, subsidy: u64,
                        m: UtxoSet, recover: Recover)
    requires Selected(pool, chosen, best, m, recover)
    ensures var txs := CandidateTxs(x, subsidy, best);
            && (forall t: nat, op :: t < |txs| && op in InputsOf(txs[t]) ==> op in m)
            && (forall t: nat :: t < |txs| ==> TxOk(m, txs[t], recover))
            && (forall t: nat :: t < |txs| ==> Inputs(txs[t]) == InputsOf(txs[t]))
  {
    var txs := CandidateTxs(x, subsidy, best);
    hide InputSum, OutputSum;
    forall t: nat | t < |txs|
      ensures (forall op :: op in InputsOf(txs[t]) ==> op in m) && TxOk(m, txs[t], recover)
      ensures Inputs(txs[t]) == InputsOf(txs[t])
    {
      if t > 0 { assert txs[t] == best[t - 1] && PaysStored(m, best[t - 1], recover); }
    }
  }

  /** The reward of the candidate is the subsidy alone, so only an overflow of the fees can
      break the reward rule. */
  ghost predicate FeesFit(m: UtxoSet, txs: seq<Transaction>, subsidy: u64)
  {
    FeeTotal(m, txs).Some? && subsidy + FeeTotal(m, txs).value <= U64_MAX
  }

  /** A candidate of payments of stored outputs is accepted exactly when none of them spends an
      output of another and the fees fit. */
  lemma StoredSelectionIff(pool: Pool, chosen: seq<TxId>, best: seq<Transaction>, x: MiningContext,
                           c: GenesisState, m: UtxoSet, recover: Recover)
    requires Selected(pool, chosen, best, m, recover)
    ensures var subsidy := BlockSubsidy(c, x.height);
            var b := CandidateBlock(x, subsidy, best);
            CompositionOk(b) &&
            (Accepts(b, c, m, recover) <==> Independent(b.txs) && FeesFit(m, b.txs, subsidy))
  {
    hide Managed, TxOk, OrderOk, InputsOf, FeeTotal, BlockSubsidy, Independent, Keyed, Distinct, OneSpenderEach,
      UsedOutside, Level;
    var subsidy := BlockSubsidy(c, x.height);
    var b := CandidateBlock(x, subsidy, best);
    assert CompositionOk(b);
    SelectionStored(pool, chosen, best, x, subsidy, m, recover);
    if Accepts(b, c, m, recover) { AcceptedIndependent(b, c, m, recover); }
    if Independent(b.txs) {
      SelectionOrder(pool, chosen, best, x, subsidy, m, recover);
      FetchedAgrees(m, b.txs);
      FeesAgree(Managed(m, b.txs), m, b.txs);
      forall t: nat | t < |b.txs| ensures TxOk(Managed(m, b.txs), b.txs[t], recover) {
        TxAgrees(Managed(m, b.txs), m, b.txs[t], recover);
      }
      OutsideStored(m, b.txs);
    }
  }

  /** While no pool transaction is confirmed, payments of stored outputs do not depend on one another. */
  lemma UnconfirmedIndependent(pool: Pool, chosen: seq<TxId>, best: seq<Transaction>, x: MiningContext, subsidy: u64,
                               m: UtxoSet, recover: Recover)
    requires Selected(pool, chosen, best, m, recover)
    requires forall op :: op in m ==> op.txid !in pool && op.txid != CandidateTxs(x, subsidy, best)[0].data.Hash()
    ensures Independent(CandidateTxs(x, subsidy, best))
  {
    hide TxOk, InputsOf, Distinct, OneSpenderEach;
    var txs := CandidateTxs(x, subsidy, best);
    SelectionStored(pool, chosen, best, x, subsidy, m, recover);
    forall t: nat, s: nat, op | t < |txs| && op in InputsOf(txs[t]) ensures !Creates(txs, s, op) {
      if s < |txs| { OutputKeys(txs[s]); }
      hide Outputs;
      assert 0 < s < |txs| ==> txs[s].data.Hash() == chosen[s - 1];
    }
  }

  /** With complete links the block is free of dependencies exactly when the selection is free of
      links, provided nothing selected spends the reward of the very block. */
  lemma LinkFreeIff(pool: Pool, links: set<Link>, chosen: seq<TxId>, best: seq<Transaction>, x: MiningContext,
                    subsidy: u64)
    requires Keyed(pool) && LinksReal(links, pool) && LinksComplete(links, pool) && Fetched(pool, chosen, best)
    requires var reward := CandidateTxs(x, subsidy, best)[0].data.Hash();
             forall i, op :: 0 <= i < |best| && op in InputsOf(best[i]) ==> op.txid != reward
    ensures Independent(CandidateTxs(x, subsidy, best)) <==>
            forall l :: l in links ==> l.parent !in chosen || l.child !in chosen
  {
    hide LinksReal, LinksComplete, InputsOf, DependsOn;
    var txs := CandidateTxs(x, subsidy, best);
    if l :| l in links && l.parent in chosen && l.child in chosen {
      LinkDepends(pool, links, chosen, best, x, subsidy, l);
    }
    if !Independent(txs) {
      var t: nat, s: nat :| DependsOn(txs, t, s);
      DependencyLinked(pool, links, chosen, best, x, subsidy, t, s);
    }
  }

  lemma DependencyLinked(pool: Pool, links: set<Link>, chosen: seq<TxId>, best: seq<Transaction>, x: MiningContext,
                         subsidy: u64, t: nat, s: nat)
    requires Keyed(pool) && LinksComplete(links, pool) && Fetched(pool, chosen, best)
    requires var reward := CandidateTxs(x, subsidy, best)[0].data.Hash();
             forall i, op :: 0 <= i < |best| && op in InputsOf(best[i]) ==> op.txid != reward
    requires DependsOn(CandidateTxs(x, subsidy, best), t, s)
    ensures 0 < t <= |chosen| && 0 < s <= |chosen| && Link(chosen[s - 1], chosen[t - 1]) in links
  {
    var txs := CandidateTxs(x, subsidy, best);
    assert InputsOf(txs[0]) == [];
    hide InputsOf;
    var op :| op in InputsOf(txs[t]) && Creates(txs, s, op);
    OutputKeys(txs[s]);
    hide Outputs;
    assert txs[t] == best[t - 1] && s != 0;
    assert Spends(pool, chosen[t - 1], op) && Created(pool, op);
  }

  // ---------------------------------------------------------------- the static rules

  lemma CandidateDistinct(pool: Pool, chosen: seq<TxId>, best: seq<Transaction>, x: MiningContext, subsidy: u64,
                          m: UtxoSet, recover: Recover)
    requires Selected(pool, chosen, best, m, recover)
    ensures Distinct(CandidateTxs(x, subsidy, best))
  {
    hide TxOk, InputsOf, OneSpenderEach;
    var txs := CandidateTxs(x, subsidy, best);
    forall i, j | 0 <= i < j < |txs| ensures txs[i] != txs[j] {
      assert txs[j] == best[j - 1] && PaysStored(m, best[j - 1], recover);
      assert chosen[j - 1] == best[j - 1].data.Hash();
      if i > 0 { assert txs[i] == best[i - 1] && chosen[i - 1] == best[i - 1].data.Hash(); }
    }
  }

  /** The candidate stands on the tip it was built for, pays the whole subsidy to the miner, carries
      the selection in its order, and passes the header and structure rules; so the validator accepts
      it exactly when no selected payment spends an output of another and the fees fit. */
  lemma CandidateValidates(pool: Pool, chosen: seq<TxId>, best: seq<Transaction>, x: MiningContext,
                           c: GenesisState, m: UtxoSet, recover: Recover)
    requires Selected(pool, chosen, best, m, recover) && x.threshold != 0
    ensures var b := CandidateBlock(x, BlockSubsidy(c, x.height), best);
            && b.header.height == x.height && b.header.previousBlockHash == x.parent
            && b.header.hashThreshold == x.threshold && b.header.timestamp == x.timestamp
            && |b.txs| == 1 + |best| && b.txs[1..] == best
            && b.txs[0].data.kind == Coinbase(x.height, x.parent)
            && b.txs[0].data.outputs == [TransactionOut(BlockSubsidy(c, x.height), x.rewardAddress)]
            && HeaderOk(b) && StructureOk(b)
            && (Validates(b, c, m, recover) <==>
                Independent(b.txs) && FeesFit(m, b.txs, BlockSubsidy(c, x.height)))
  {
    hide Independent, FeesFit, Accepts, TxOk, InputsOf, BlockSubsidy, Distinct, SpentInOrder, InputsInOrder, Selected;
    var subsidy := BlockSubsidy(c, x.height);
    StoredSelectionIff(pool, chosen, best, x, c, m, recover);
    SelectionStored(pool, chosen, best, x, subsidy, m, recover);
    SelectionInputs(pool, chosen, best, x, subsidy, m, recover);
    CandidateDistinct(pool, chosen, best, x, subsidy, m, recover);
    SpentIsInputs(CandidateTxs(x, subsidy, best));
  }
}
