/** What the work of a block and of a chain measures. */
module ChainWeight {
  import opened Arithmetic
  import opened Primitives
  import opened ChainTypes
  import opened BlockRules
  import opened Ledger
  import opened CanonicalChain

  // The proofs about BlockWork keep the wide literals out of the solver's nonlinear arithmetic.

  /** The expected number of hashes: 2^256 over the target + 1 accepted ones, rounded down. */
  lemma WorkIsExpectedHashes(target: u256)
    ensures var w := BlockWork(target); w * (target + 1) <= TWO_256 < (w + 1) * (target + 1)
  {
    hide TWO_256, TWO_512;
    QuotientFloor(TWO_256, target + 1);
  }

  /** A larger target is easier to meet and never counts more. */
  lemma EasierTargetLighter(hard: u256, easy: u256)
    requires hard <= easy
    ensures BlockWork(easy) <= BlockWork(hard)
  {
    hide TWO_256, TWO_512;
    QuotientShrinks(TWO_256, hard + 1, easy + 1);
  }

  /** Genesis counts nothing; any other block what its threshold says. */
  lemma BlockCounts(b: Block)
    ensures ChainWork([b]) == if b.header.genesisState.Some? then 0 else BlockWork(b.header.hashThreshold)
  {
    assert [b][..0] == [];
  }

  lemma {:induction false} WorkAddsUp(xs: seq<Block>, ys: seq<Block>)
    ensures ChainWork(xs + ys) == ChainWork(xs) + ChainWork(ys)
  {
    hide BlockWork;
    if ys == [] {
      assert xs + ys == xs;
    } else {
      assert (xs + ys)[..|xs + ys| - 1] == xs + ys[..|ys| - 1];
      WorkAddsUp(xs, ys[..|ys| - 1]);
    }
  }

  lemma {:induction false} HarderBlocks(xs: seq<Block>, ys: seq<Block>)
    requires |xs| == |ys|
    requires forall i :: 0 <= i < |xs| ==>
               if ys[i].header.IsGenesis() then true
               else !xs[i].header.IsGenesis() && xs[i].header.hashThreshold <= ys[i].header.hashThreshold
    ensures ChainWork(xs) >= ChainWork(ys)
  {
    hide BlockWork;
    if xs != [] {
      var n := |xs| - 1;
      HarderBlocks(xs[..n], ys[..n]);
      if !ys[n].header.IsGenesis() { EasierTargetLighter(xs[n].header.hashThreshold, ys[n].header.hashThreshold); }
    }
  }

  /** Of two chains of one length the one with the harder thresholds weighs at least as much. */
  lemma {:induction false} HarderChainHeavier(xs: seq<Block>, ys: seq<Block>)
    requires Joined(xs) && Joined(ys) && |xs| == |ys|
    requires forall i :: 1 <= i < |xs| ==> xs[i].header.hashThreshold <= ys[i].header.hashThreshold
    ensures ChainWork(xs) >= ChainWork(ys)
  {
    hide StructureOk, AllocationsOk, ChainWork;
    assert forall i :: 1 <= i < |xs| ==> WellFormed(xs[i]) && WellFormed(ys[i]);
    HarderBlocks(xs, ys);
  }

  /** At one threshold a longer chain weighs at least as much. */
  lemma {:induction false} LongerChainHeavier(xs: seq<Block>, ys: seq<Block>, target: u256)
    requires Joined(xs) && Joined(ys) && |xs| >= |ys|
    requires forall i :: 1 <= i < |xs| ==> xs[i].header.hashThreshold == target
    requires forall i :: 1 <= i < |ys| ==> ys[i].header.hashThreshold == target
    ensures ChainWork(xs) >= ChainWork(ys)
  {
    hide StructureOk, AllocationsOk, ChainWork;
    JoinedPrefix(xs, |ys|);
    HarderChainHeavier(xs[..|ys|], ys);
    assert xs == xs[..|ys|] + xs[|ys|..];
    WorkAddsUp(xs[..|ys|], xs[|ys|..]);
  }
}
