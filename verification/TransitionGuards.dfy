/** What each storage transition demands, said of the tables and the blocks alone. */
module TransitionGuards {
  import opened Primitives
  import opened ChainTypes
  import opened UtxoProcessor
  import opened BlockRules
  import opened Ledger
  import opened Storage
  import opened Transition
  import opened CanonicalChain
  import opened Reorg

  // ---------------------------------------------------------------- genesis

  /** A block with the genesis marker, no ancestry, no work, and allocations to distinct addresses. */
  predicate GenesisShape(g: Block)
  {
    && g.header.genesisState.Some?
    && g.header.height == 0 && g.header.previousBlockHash == ZeroHash
    && g.header.hashThreshold == 0 && g.header.timestamp == 0 && g.header.nonce == 0
    && g.header.genesisState.value.pow.targetSpacingSecs != 0 && g.header.genesisState.value.pow.halfLifeSecs != 0
    && 0 < g.header.genesisState.value.pow.initialHashThreshold <= g.header.genesisState.value.pow.maxHashThreshold
    && g.header.merkleRoot == MerkleRoot(g.txs)
    && |g.txs| == 1 && g.txs[0].data.kind == GenesisAllocation && g.txs[0].data.inputs == []
    && Allocates(g.txs[0].data.outputs)
  }

  predicate Allocates(outs: seq<TransactionOut>)
  {
    && outs != [] && (forall i :: 0 <= i < |outs| ==> outs[i].value > 0)
    && forall i, j :: 0 <= i < j < |outs| ==> outs[i].recipient != outs[j].recipient
  }

  /** An empty store takes exactly such a block, and then holds it, the parameters it came with, and
      the state of a chain of one block. */
  lemma {:induction false} GenesisStores(g: Block, m: ChainMetadata)
    ensures GenesisSpec(EMPTY_SNAPSHOT, g, m).Ok? <==> GenesisShape(g)
    ensures GenesisShape(g) ==>
              var s := GenesisSpec(EMPTY_SNAPSHOT, g, m).value.store;
              && s.metadata == Some(m)
              && s.state == Some(ChainState((0, ZeroHash), 0, 1, 0))
              && s.blocks == map[ZeroHash := g] && s.heights == map[0 := ZeroHash]
              && s.indexes == map[ZeroHash := BlockIndexData(ZeroHash, 0, 0)] && s.undos == map[]
  {
    GenesisIsCanonical(g, m);
    hide NetBlock, ApplyBlock, Locations;
    assert GenesisOk(g) <==> GenesisShape(g);
  }

  // ---------------------------------------------------------------- a damaged head

  /** The rows of the head agree with the stored state and with one another. */
  predicate HeadIntact(s: Snapshot)
    requires s.state.Some?
  {
    var (height, hash) := s.state.value.latestBlock;
    && s.metadata.Some?
    && hash in s.blocks && s.blocks[hash].header.height == height
    && height in s.heights && s.heights[height] == hash
    && hash in s.indexes
    && s.indexes[hash].height == height
    && s.indexes[hash].parentHash == s.blocks[hash].header.previousBlockHash
    && s.indexes[hash].chainWork == s.state.value.chainWork
    && height < U64_MAX && s.state.value.blocksCount == height + 1
  }

  /** No transition goes through on tables whose head is damaged, whatever it asks for. */
  lemma DamagedHeadRefused(s: Snapshot, t: ChainTransition)
    requires s.state.Some? && !HeadIntact(s)
    ensures TransitionSpec(s, t).Err?
    ensures !t.Genesis? ==> TransitionSpec(s, t) == Err(Corruption)
  {
    assert VerifyCurrentState(s, s.state.value) == Err(Corruption);
    hide VerifyCurrentState, HeadIntact, AttachSpec, DetachSpec, CanonicalAncestor, AttachPreparedSpec, GenesisOk;
  }

  /** Before initialization only a genesis can be committed. */
  lemma UninitializedRefused(s: Snapshot, t: ChainTransition)
    requires s.state == None && !t.Genesis?
    ensures TransitionSpec(s, t) == Err(Uninitialized)
  {
    hide AttachSpec, DetachSpec, CanonicalAncestor, AttachPreparedSpec;
  }

  /** And a genesis only into a store without parameters and without a block at height 0. */
  lemma RemainsRefused(s: Snapshot, g: Block, m: ChainMetadata)
    requires s.state == None && (s.metadata.Some? || 0 in s.heights)
    ensures TransitionSpec(s, Genesis(g, m)).Err?
  {
    hide GenesisOk, Locations;
  }

  // ---------------------------------------------------------------- a reorganization

  predicate FollowsAt(hash: BlockHash, height: nat, prepared: seq<(Block, BlockUndo)>, i: nat)
    requires i < |prepared|
  {
    var b := prepared[i].0;
    && b.header.genesisState == None && b.header.hashThreshold > 0
    && b.header.height == height + 1 + i < U64_MAX
    && b.header.previousBlockHash == if i == 0 then hash else prepared[i - 1].0.Hash()
  }

  /** The prepared blocks follow one another from the ancestor on, below the last height. */
  predicate FollowOn(hash: BlockHash, height: nat, prepared: seq<(Block, BlockUndo)>)
  {
    forall i :: 0 <= i < |prepared| ==> FollowsAt(hash, height, prepared, i)
  }

  lemma ExtendsIff(st: ChainState, b: Block)
    requires st.chainWork <= st.latestBlock.0 * TWO_256
    ensures ExtendedState(st, b).Ok? <==>
              && b.header.genesisState == None && b.header.hashThreshold > 0
              && b.header.height == st.latestBlock.0 + 1 < U64_MAX
              && b.header.previousBlockHash == st.latestBlock.1
    ensures ExtendedState(st, b).Ok? ==>
              var (next, work) := (ExtendedState(st, b).value, st.chainWork + BlockWork(b.header.hashThreshold));
              && next.latestBlock == (b.header.height, b.Hash()) && next.chainWork == work
              && next == ChainState((b.header.height, b.Hash()), b.header.timestamp, b.header.height + 1, work)
              && next.chainWork <= next.latestBlock.0 * TWO_256
  {
    hide BlockWork;
    assert b.Work() <= TWO_256;
  }

  lemma FollowOnStep(hash: BlockHash, height: nat, prepared: seq<(Block, BlockUndo)>)
    requires prepared != []
    ensures var b := prepared[0].0;
            FollowOn(hash, height, prepared) <==>
            && b.header.genesisState == None && b.header.hashThreshold > 0
            && b.header.height == height + 1 < U64_MAX && b.header.previousBlockHash == hash
            && FollowOn(b.Hash(), height + 1, prepared[1..])
  {
    var rest, first, next: nat := prepared[1..], prepared[0].0.Hash(), height + 1;
    forall i: nat | i < |rest|
      ensures FollowsAt(hash, height, prepared, i + 1) <==> FollowsAt(first, next, rest, i)
    {
      assert rest[i] == prepared[i + 1] && (i > 0 ==> rest[i - 1] == prepared[i]);
    }
    hide FollowsAt;
    if FollowOn(hash, height, prepared) {
      forall i: nat | i < |rest| ensures FollowsAt(first, next, rest, i) {
        assert FollowsAt(hash, height, prepared, i + 1);
      }
    }
    if FollowsAt(hash, height, prepared, 0) && FollowOn(first, next, rest) {
      forall i: nat | i < |prepared| ensures FollowsAt(hash, height, prepared, i) {
        if i > 0 { assert FollowsAt(first, next, rest, i - 1); }
      }
    }
    FirstFollows(hash, height, prepared);
  }

  lemma FirstFollows(hash: BlockHash, height: nat, prepared: seq<(Block, BlockUndo)>)
    requires prepared != []
    ensures var b := prepared[0].0;
            FollowsAt(hash, height, prepared, 0) <==>
            && b.header.genesisState == None && b.header.hashThreshold > 0
            && b.header.height == height + 1 < U64_MAX && b.header.previousBlockHash == hash
  {}

  lemma {:induction false} AttachIff(t: Snapshot, st: ChainState, prepared: seq<(Block, BlockUndo)>)
    requires st.chainWork <= st.latestBlock.0 * TWO_256
    ensures AttachPreparedSpec(t, st, prepared).Ok? <==> FollowOn(st.latestBlock.1, st.latestBlock.0, prepared)
    decreases |prepared|
  {
    hide AttachPreparedSpec, ExtendedState, FollowOn, Written;
    if prepared == [] {
      NothingPrepared(t, st);
      NothingFollows(st.latestBlock.1, st.latestBlock.0);
    } else {
      var (b, undo) := prepared[0];
      AttachUnfolds(t, st, prepared);
      ExtendsIff(st, b);
      FollowOnStep(st.latestBlock.1, st.latestBlock.0, prepared);
      if ExtendedState(st, b).Ok? {
        var next := ExtendedState(st, b).value;
        AttachIff(Written(t, b, undo, next), next, prepared[1..]);
      }
    }
  }

  lemma NothingFollows(hash: BlockHash, height: nat)
    ensures FollowOn(hash, height, [])
  {}

  lemma AncestorIff(s: Snapshot, chain: seq<Block>, hash: BlockHash)
    requires Canonical(s, chain)
    ensures CanonicalAncestor(s, hash).Ok? <==> exists k :: 0 <= k < |chain| && hash == chain[k].Hash()
  {
    hide WellFormed, GenesisOk, LocationsOf, Replay, UndosMatch, TablesSound, StateMatches, Canonical;
    if k :| 0 <= k < |chain| && hash == chain[k].Hash() { AncestorFound(s, chain, k); }
    if CanonicalAncestor(s, hash).Ok? {
      var h := s.blocks[hash].header.height;
      HeightsAre(s, chain);
      assert s.heights[h] == hash && hash == chain[h].Hash();
    }
  }

  lemma HeightsAre(s: Snapshot, chain: seq<Block>)
    requires Canonical(s, chain)
    ensures forall h: nat :: h in s.heights <==> h < |chain|
    ensures forall h :: 0 <= h < |chain| ==> s.heights[h] == chain[h].Hash()
  {
    hide Linked, Joined, LocationsOf, Replay, UndosMatch, TablesSound, StateMatches;
  }

  /** What a delta must be for the canonical tables to take it. */
  predicate Fits(s: Snapshot, chain: seq<Block>, delta: ForkDbDelta, k: nat)
    requires chain != [] && k < |chain|
  {
    && delta.expectedHead == (|chain| - 1, Tip(chain).Hash())
    && delta.commonAncestor == chain[k].Hash()
    && TipFirst(chain, k, delta.detached)
    && delta.blocks != [] && delta.removedUtxos <= s.utxos.Keys
    && FollowOn(chain[k].Hash(), k, delta.blocks)
  }

  /** A reorganization is taken exactly when it was prepared on the present head, names every
      detached block tip first down to a canonical ancestor, removes only live entries, and brings
      blocks that follow one another from that ancestor. */
  lemma ReorganizeAcceptsIff(s: Snapshot, chain: seq<Block>, delta: ForkDbDelta)
    requires Canonical(s, chain)
    ensures chain != []
    ensures ReorganizeSpec(s, delta).Ok? <==> exists k :: 0 <= k < |chain| && Fits(s, chain, delta, k)
  {
    hide Canonical, ReorganizeSpec, CanonicalAncestor, Fits;
    HeadIs(s, chain);
    AncestorIff(s, chain, delta.commonAncestor);
    if k :| 0 <= k < |chain| && delta.commonAncestor == chain[k].Hash() {
      AtAncestorIff(s, chain, delta, k);
      forall i | 0 <= i < |chain| && Fits(s, chain, delta, i) ensures i == k {
        FitsAt(s, chain, delta, i);
        SameAncestor(s, chain, i, k);
      }
    } else {
      forall i | 0 <= i < |chain| ensures !Fits(s, chain, delta, i) {
        if Fits(s, chain, delta, i) { FitsAt(s, chain, delta, i); }
      }
      NoAncestorRefused(s, chain, delta);
    }
  }

  lemma HeadIs(s: Snapshot, chain: seq<Block>)
    requires Canonical(s, chain)
    ensures chain != [] && s.state.Some? && s.state.value.latestBlock == (|chain| - 1, Tip(chain).Hash())
    ensures VerifyCurrentState(s, s.state.value) == Ok(())
  {
    ChainedVerifies(s, chain);
    hide WellFormed, GenesisOk, LocationsOf, Replay, UndosMatch, TablesSound, VerifyCurrentState;
  }

  lemma FitsAt(s: Snapshot, chain: seq<Block>, delta: ForkDbDelta, i: nat)
    requires i < |chain| && Fits(s, chain, delta, i)
    ensures delta.commonAncestor == chain[i].Hash()
  {}

  lemma SameAncestor(s: Snapshot, chain: seq<Block>, i: nat, k: nat)
    requires Canonical(s, chain) && i < |chain| && k < |chain| && chain[i].Hash() == chain[k].Hash()
    ensures i == k
  {
    hide WellFormed, GenesisOk, Chained, UniqueIds, AllTxs;
    if i < k { HashesDistinct(chain, i, k); } else if k < i { HashesDistinct(chain, k, i); }
  }

  lemma NoAncestorRefused(s: Snapshot, chain: seq<Block>, delta: ForkDbDelta)
    requires Canonical(s, chain) && CanonicalAncestor(s, delta.commonAncestor).Err?
    ensures ReorganizeSpec(s, delta).Err?
  {
    hide Canonical, CanonicalAncestor, VerifyCurrentState, DetachSpec, AttachPreparedSpec;
    HeadIs(s, chain);
  }

  lemma AtAncestorIff(s: Snapshot, chain: seq<Block>, delta: ForkDbDelta, k: nat)
    requires Canonical(s, chain) && k < |chain| && delta.commonAncestor == chain[k].Hash()
    ensures chain != []
    ensures ReorganizeSpec(s, delta).Ok? <==> Fits(s, chain, delta, k)
  {
    hide Canonical, CanonicalAncestor, VerifyCurrentState, DetachSpec, AttachPreparedSpec, HeightsOf, LocationsOf,
      FollowOn, Suffix, TipFirst, ChainWork;
    HeadIs(s, chain);
    AncestorFound(s, chain, k);
    DetachFromTip(s, chain, k);
    TipFirstIsSuffix(chain, k, delta.detached);
    KeptWork(s, chain, k);
    var index := CanonicalAncestor(s, chain[k].Hash()).value.1;
    var cut := s.(heights := HeightsOf(chain[..k + 1]), transactions := LocationsOf(chain[..k + 1]));
    var t := cut.(utxos := cut.utxos - delta.removedUtxos + delta.utxos);
    var st := s.state.value.(latestBlock := Pos(chain[k]), chainWork := index.chainWork);
    AttachIff(t, st, delta.blocks);
  }

  lemma {:induction false} TipFirstIsSuffix(chain: seq<Block>, k: nat, detached: seq<ChainPos>)
    requires k < |chain|
    ensures TipFirst(chain, k, detached) <==> detached == Suffix(chain, |chain| - 1, k)
  {
    hide Suffix;
    SuffixTipFirst(chain, k);
    if TipFirst(chain, k, detached) {
      assert |detached| == |Suffix(chain, |chain| - 1, k)|;
      assert detached == Suffix(chain, |chain| - 1, k);
    }
  }

  lemma KeptWork(s: Snapshot, chain: seq<Block>, k: nat)
    requires Canonical(s, chain) && k < |chain|
    ensures ChainWork(chain[..k + 1]) <= k * TWO_256 && chain[k].header.height == k
  {
    hide WellFormed, GenesisOk, Chained, UniqueIds, AllTxs, ChainWork;
    LinkedJoined(chain);
    JoinedPrefix(chain, k + 1);
    ChainWorkBound(chain[..k + 1]);
  }

  // ---------------------------------------------------------------- the parameters stay

  lemma AppendKeepsMetadata(s: Snapshot, b: Block)
    requires AppendSpec(s, b).Ok?
    ensures AppendSpec(s, b).value.store.metadata == s.metadata
  {
    hide VerifyCurrentState, ExtendedState, Locations;
  }

  lemma {:induction false} AppendAllKeepsMetadata(s: Snapshot, blocks: seq<Block>)
    requires AppendAll(s, blocks).Ok?
    ensures AppendAll(s, blocks).value.metadata == s.metadata
    decreases |blocks|
  {
    hide AppendSpec;
    if blocks != [] {
      AppendKeepsMetadata(s, blocks[0]);
      AppendAllKeepsMetadata(AppendSpec(s, blocks[0]).value.store, blocks[1..]);
    }
  }

  lemma RewindTipKeepsMetadata(s: Snapshot)
    requires RewindTip(s).Ok?
    ensures RewindTip(s).value.metadata == s.metadata
  {}

  lemma {:induction false} RewindAndReplayKeepsMetadata(s: Snapshot, n: nat, blocks: seq<Block>)
    requires RewindAndReplay(s, n, blocks).Ok?
    ensures RewindAndReplay(s, n, blocks).value.metadata == s.metadata
    decreases n
  {
    hide RewindTip, AppendAll;
    if n == 0 {
      AppendAllKeepsMetadata(s, blocks);
    } else {
      RewindTipKeepsMetadata(s);
      RewindAndReplayKeepsMetadata(RewindTip(s).value, n - 1, blocks);
    }
  }
}
