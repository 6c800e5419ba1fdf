/** Why a transaction id never recurs on a chain. */
module Ledger {
  import opened Primitives
  import opened ChainTypes
  import opened UtxoProcessor
  import opened BlockRules

  function Ids(hist: seq<Transaction>): set<TxId> { set t | t in hist :: t.data.Hash() }

  ghost function SpentBy(hist: seq<Transaction>): set<OutPoint> {
    set t, op | t in hist && op in Inputs(t) :: op
  }

  ghost predicate UniqueIds(hist: seq<Transaction>) {
    forall i, j :: 0 <= i < j < |hist| ==> hist[i].data.Hash() != hist[j].data.Hash()
  }

  /** What a transaction history says about the set it left: live outpoints were created
      by it and never spent by it, and whatever was spent had been created. */
  ghost predicate Accounts(hist: seq<Transaction>, m: UtxoSet)
  {
    && UniqueIds(hist)
    && (forall op :: op in m ==> op.txid in Ids(hist) && op !in SpentBy(hist))
    && (forall op :: op in SpentBy(hist) ==> op.txid in Ids(hist))
  }

  /** Coinbases of the history belong to heights below h. */
  predicate CoinbasesBelow(hist: seq<Transaction>, h: nat)
  {
    forall t :: t in hist && t.data.kind.Coinbase? ==> t.data.kind.height < h
  }

  lemma {:induction false} FoldSpendSpends(m: UtxoSet, ops: seq<OutPoint>)
    requires FoldSpend(m, ops).Some?
    ensures forall op :: op in ops ==> op in m
    ensures FoldSpend(m, ops).value == m - Elements(ops)
  {
    if ops != [] {
      FoldSpendSpends(m, ops[..|ops| - 1]);
      assert ops == ops[..|ops| - 1] + [ops[|ops| - 1]];
    }
  }

  /** The first-duplicate argument: a repeated payment would need an input that is live
      although the earlier copy spent it. */
  lemma RepeatCannotSpend(hist: seq<Transaction>, m: UtxoSet, tx: Transaction)
    requires Accounts(hist, m) && FoldTx(m, tx).Some?
    requires tx.data.kind.Payment? && tx.data.inputs != []
    ensures tx.data.Hash() !in Ids(hist)
  {
    FoldSpendSpends(m, Inputs(tx));
    var op := Inputs(tx)[0];
    assert op in Inputs(tx);
    forall t | t in hist ensures t.data.Hash() != tx.data.Hash() {
      assert t.data == tx.data ==> Inputs(t) == Inputs(tx);
      assert op in Inputs(t) ==> op in SpentBy(hist);
    }
  }

  lemma AccountsStep(hist: seq<Transaction>, m: UtxoSet, tx: Transaction)
    requires Accounts(hist, m) && FoldTx(m, tx).Some?
    requires tx.data.Hash() !in Ids(hist)
    ensures FreshOutputs(m, tx)
    ensures Accounts(hist + [tx], FoldTx(m, tx).value)
  {
    FoldSpendSpends(m, Inputs(tx));
    var after := hist + [tx];
    assert Ids(after) == Ids(hist) + {tx.data.Hash()} by {
      assert forall t :: t in after <==> t in hist || t == tx;
    }
    assert SpentBy(after) == SpentBy(hist) + Elements(Inputs(tx)) by {
      assert forall t :: t in after <==> t in hist || t == tx;
    }
    forall i | 0 <= i < |hist| ensures hist[i].data.Hash() != tx.data.Hash() {
      assert hist[i] in hist;
    }
  }

  lemma {:induction false} PrefixAvailable(m: UtxoSet, txs: seq<Transaction>)
    requires txs != [] && Available(m, NetBlock(txs))
    ensures Available(m, NetBlock(txs[..|txs| - 1]))
  {
    if !Available(m, NetBlock(txs[..|txs| - 1])) {
      UnavailableForever(m, NetBlock(txs[..|txs| - 1]), Inputs(txs[|txs| - 1]));
    }
  }

  lemma UniquePrefix(xs: seq<Transaction>, ys: seq<Transaction>)
    requires UniqueIds(xs) && ys <= xs
    ensures UniqueIds(ys)
  {
    assert forall i :: 0 <= i < |ys| ==> ys[i] == xs[i];
  }

  lemma UniqueAppend(xs: seq<Transaction>, tx: Transaction)
    ensures UniqueIds(xs + [tx]) <==> UniqueIds(xs) && tx.data.Hash() !in Ids(xs)
  {
    var longer := xs + [tx];
    if UniqueIds(longer) {
      UniquePrefix(longer, xs);
      forall t | t in xs ensures t.data.Hash() != tx.data.Hash() {
        var i :| 0 <= i < |xs| && xs[i] == t;
        assert longer[i].data.Hash() != longer[|xs|].data.Hash();
      }
    } else if UniqueIds(xs) {
      var i, j :| 0 <= i < j < |longer| && longer[i].data.Hash() == longer[j].data.Hash();
      assert xs[i] in xs;
    }
  }

  /** If the net-effect check lets a list of new transactions through, the fold goes through
      as well, overwrites nothing, and the history stays accounted for. */
  lemma {:induction false} ListAccounts(hist: seq<Transaction>, m: UtxoSet, txs: seq<Transaction>)
    requires Accounts(hist, m) && UniqueIds(hist + txs)
    requires Available(m, NetBlock(txs))
    ensures NoOverwrite(m, txs) && FoldBlock(m, txs).Some?
    ensures Accounts(hist + txs, FoldBlock(m, txs).value)
  {
    hide Accounts, UniqueIds, NetBlock, FoldTx;
    if txs == [] {
      assert hist + txs == hist;
    } else {
      var before, tx := txs[..|txs| - 1], txs[|txs| - 1];
      assert before + [tx] == txs && hist + before + [tx] == hist + txs;
      UniqueAppend(hist + before, tx);
      PrefixAvailable(m, txs);
      ListAccounts(hist, m, before);
      ListAccountsStep(hist, m, before, tx);
    }
  }

  lemma {:induction false} ListAccountsStep(hist: seq<Transaction>, m: UtxoSet, before: seq<Transaction>,
                                            tx: Transaction)
    requires NoOverwrite(m, before) && FoldBlock(m, before).Some?
    requires Accounts(hist + before, FoldBlock(m, before).value)
    requires tx.data.Hash() !in Ids(hist + before)
    requires Available(m, NetBlock(before + [tx]))
    ensures NoOverwrite(m, before + [tx]) && FoldBlock(m, before + [tx]).Some?
    ensures FoldTx(FoldBlock(m, before).value, tx).Some?
    ensures Accounts(hist + before + [tx], FoldBlock(m, before + [tx]).value)
  {
    var txs, c := before + [tx], FoldBlock(m, before).value;
    assert txs[..|txs| - 1] == before && txs[|before|] == tx;
    hide Accounts, Inputs, Outputs, FoldSpend;
    NetTracksFold(m, before);
    TxStep(m, NetBlock(before), tx);
    AccountsStep(hist + before, c, tx);
  }

  // ---------------------------------------------------------------- when ids are new

  /** Payments that spend, after at most one coinbase above every coinbase so far. */
  predicate OpensWithFresh(hist: seq<Transaction>, txs: seq<Transaction>)
  {
    && (txs != [] ==> txs[0].data.kind.Payment? || txs[0].data.Hash() !in Ids(hist))
    && (forall i :: 1 <= i < |txs| ==> txs[i].data.kind.Payment?)
    && PaymentsSpend(txs)
  }

  lemma OpensPrefix(hist: seq<Transaction>, txs: seq<Transaction>)
    requires txs != [] && OpensWithFresh(hist, txs)
    ensures OpensWithFresh(hist, txs[..|txs| - 1])
  {}

  /** If such a list goes through, its ids are new to the history and to each other. */
  lemma {:induction false} SpendingIsNew(hist: seq<Transaction>, m: UtxoSet, txs: seq<Transaction>)
    requires Accounts(hist, m) && OpensWithFresh(hist, txs) && Available(m, NetBlock(txs))
    ensures UniqueIds(hist + txs)
  {
    hide Accounts, OpensWithFresh, NetBlock, UniqueIds;
    if txs == [] {
      assert hist + txs == hist;
      AccountedUnique(hist, m);
    } else {
      var before, tx := txs[..|txs| - 1], txs[|txs| - 1];
      OpensPrefix(hist, txs);
      PrefixAvailable(m, txs);
      SpendingIsNew(hist, m, before);
      ListAccounts(hist, m, before);
      assert before + [tx] == txs && hist + before + [tx] == hist + txs;
      SpendingStep(hist, m, before, tx);
      UniqueAppend(hist + before, tx);
    }
  }

  lemma AccountedUnique(hist: seq<Transaction>, m: UtxoSet)
    requires Accounts(hist, m)
    ensures UniqueIds(hist)
  {}

  lemma {:induction false} SpendingStep(hist: seq<Transaction>, m: UtxoSet, before: seq<Transaction>, tx: Transaction)
    requires NoOverwrite(m, before) && FoldBlock(m, before).Some?
    requires Accounts(hist + before, FoldBlock(m, before).value)
    requires OpensWithFresh(hist, before + [tx]) && Available(m, NetBlock(before + [tx]))
    ensures tx.data.Hash() !in Ids(hist + before)
  {
    var txs, c := before + [tx], FoldBlock(m, before).value;
    assert txs[..|txs| - 1] == before && txs[|before|] == tx;
    hide Accounts, Inputs, Outputs, FoldSpend;
    NetTracksFold(m, before);
    TxStep(m, NetBlock(before), tx);
    if tx.data.kind.Payment? {
      RepeatCannotSpend(hist + before, c, tx);
    } else {
      assert before == [] && hist + before == hist;
    }
  }

  // ---------------------------------------------------------------- chains

  function AllTxs(chain: seq<Block>): seq<Transaction>
  {
    if chain == [] then [] else AllTxs(chain[..|chain| - 1]) + chain[|chain| - 1].txs
  }

  lemma {:induction false} AllTxsExtend(chain: seq<Block>, b: Block)
    ensures AllTxs(chain + [b]) == AllTxs(chain) + b.txs
  {
    assert (chain + [b])[..|chain|] == chain;
  }

  lemma {:induction false} AllTxsPrefix(chain: seq<Block>, n: nat)
    requires n <= |chain|
    ensures AllTxs(chain[..n]) <= AllTxs(chain)
  {
    if n == |chain| {
      assert chain[..n] == chain;
    } else {
      AllTxsPrefix(chain[..|chain| - 1], n);
      assert chain[..|chain| - 1][..n] == chain[..n];
    }
  }

  /** The transaction ids of b are new to the chain, and no two of them are equal. */
  ghost predicate NewIds(chain: seq<Block>, b: Block)
  {
    UniqueIds(AllTxs(chain) + b.txs)
  }

  /** Genesis, then well-formed blocks at consecutive heights. */
  ghost predicate StructuredChain(chain: seq<Block>)
  {
    && chain != []
    && GenesisOk(chain[0])
    && (forall i :: 0 <= i < |chain| ==> chain[i].header.height == i)
    && (forall i :: 1 <= i < |chain| ==> WellFormed(chain[i]))
  }

  ghost predicate WellFormedChain(chain: seq<Block>)
  {
    StructuredChain(chain) && UniqueIds(AllTxs(chain))
  }

  lemma {:induction false} BlockAccounts(hist: seq<Transaction>, m: UtxoSet, b: Block)
    requires Accounts(hist, m) && UniqueIds(hist + b.txs) && ApplyBlock(m, b.txs).Ok?
    ensures NoOverwrite(m, b.txs)
    ensures Accounts(hist + b.txs, ApplyBlock(m, b.txs).value.utxos)
  {
    ListAccounts(hist, m, b.txs);
    ApplyRefinesFold(m, b.txs);
  }

  /** A history of distinct ids is accounted for by what replaying it leaves. */
  lemma {:induction false} ChainAccounts(chain: seq<Block>)
    requires UniqueIds(AllTxs(chain)) && ApplyBlocks(map[], chain).Ok?
    ensures Accounts(AllTxs(chain), ApplyBlocks(map[], chain).value.utxos)
    ensures BranchOverwritesNothing(map[], chain)
  {
    hide ApplyBlock, OverwritesNothing, UniqueIds;
    if chain != [] {
      var before, b := chain[..|chain| - 1], chain[|chain| - 1];
      assert chain == before + [b];
      AllTxsExtend(before, b);
      UniquePrefix(AllTxs(chain), AllTxs(before));
      hide Accounts;
      ChainAccounts(before);
      BlockAccounts(AllTxs(before), ApplyBlocks(map[], before).value.utxos, b);
      NoOverwriteOverwritesNothing(ApplyBlocks(map[], before).value.utxos, b.txs);
    }
  }

  /** The coinbase of a well-formed block carries the height of the block. */
  lemma BlockCoinbases(b: Block)
    requires WellFormed(b)
    ensures CoinbasesBelow(b.txs, b.header.height + 1)
  {
    hide HeaderOk;
  }

  lemma GenesisCoinbases(b: Block)
    requires GenesisOk(b)
    ensures CoinbasesBelow(b.txs, 1)
  {
    hide AllocationsOk;
  }

  /** Coinbases of a structured chain carry heights below its length. */
  lemma {:induction false} ChainCoinbases(chain: seq<Block>)
    requires StructuredChain(chain)
    ensures CoinbasesBelow(AllTxs(chain), |chain|)
  {
    hide WellFormed, GenesisOk;
    var before, b := chain[..|chain| - 1], chain[|chain| - 1];
    if before == [] {
      assert AllTxs(before) == [];
      GenesisCoinbases(b);
    } else {
      ChainCoinbases(before);
      BlockCoinbases(b);
    }
  }

  /** A block of spending payments on a structured chain has new ids. */
  lemma {:induction false} SpendingBlockIsNew(chain: seq<Block>, b: Block)
    requires WellFormedChain(chain) && ApplyBlocks(map[], chain).Ok?
    requires WellFormed(b) && PaymentsSpend(b.txs) && b.header.height == |chain|
    requires ApplyBlock(ApplyBlocks(map[], chain).value.utxos, b.txs).Ok?
    ensures NewIds(chain, b)
  {
    ChainAccounts(chain);
    ChainCoinbases(chain);
    hide HeaderOk, Accounts, UniqueIds, ApplyBlocks, StructuredChain;
    assert OpensWithFresh(AllTxs(chain), b.txs);
    SpendingIsNew(AllTxs(chain), ApplyBlocks(map[], chain).value.utxos, b.txs);
  }

  /** No transaction id occurs twice on a replayable chain of well-formed blocks whose
      payments spend. */
  lemma {:induction false} NoDuplicateTxIds(chain: seq<Block>)
    requires StructuredChain(chain) && ApplyBlocks(map[], chain).Ok?
    requires forall i :: 0 <= i < |chain| ==> PaymentsSpend(chain[i].txs)
    ensures UniqueIds(AllTxs(chain))
  {
    hide WellFormed, PaymentsSpend;
    var before, b := chain[..|chain| - 1], chain[|chain| - 1];
    assert chain == before + [b];
    if before == [] {
      assert AllTxs(before) == [] && AllTxs(chain) == b.txs;
      assert GenesisOk(b);
    } else {
      assert StructuredChain(before);
      assert forall i :: 0 <= i < |before| ==> before[i] == chain[i];
      NoDuplicateTxIds(before);
      hide StructuredChain, UniqueIds, ApplyBlock;
      SpendingBlockIsNew(before, b);
      AllTxsExtend(before, b);
    }
  }

  /** Each block of a chain of distinct ids can be undone: no created outpoint lands on a
      live one. */
  lemma {:induction false} TipOverwritesNothing(chain: seq<Block>)
    requires chain != [] && UniqueIds(AllTxs(chain)) && ApplyBlocks(map[], chain).Ok?
    ensures var m := ApplyBlocks(map[], chain[..|chain| - 1]).value.utxos;
            OverwritesNothing(m, chain[|chain| - 1].txs)
  {
    ChainAccounts(chain);
  }
}
