/** Driving an overlay along the canonical chain and a fork. */
module ForkPreparation {
  import opened Primitives
  import opened ChainTypes
  import opened UtxoProcessor
  import opened BlockRules
  import opened Ledger
  import opened Storage
  import opened Transition
  import opened CanonicalChain
  import opened Overlay
  import opened Reorg
  import opened ChainIndex
  import opened ForkChoice

  // ---------------------------------------------------------------- rewinding

  lemma {:induction false} SuffixStep(chain: seq<Block>, top: nat, j: nat)
    requires 1 <= j <= top < |chain|
    ensures Suffix(chain, top, j - 1) == Suffix(chain, top, j) + [Pos(chain[j])]
    decreases top
  {
    if j < top {
      SuffixStep(chain, top - 1, j);
    } else {
      assert Suffix(chain, j - 1, j - 1) == [];
    }
  }

  /** The undo record of chain[j] takes the replay of chain[..j + 1] back to that of chain[..j]. */
  lemma RewindAt(s: Snapshot, chain: seq<Block>, j: nat)
    requires Canonical(s, chain) && 1 <= j < |chain|
    ensures var hash := chain[j].Hash();
            && hash in s.blocks && s.blocks[hash] == chain[j] && j in s.heights && s.heights[j] == hash
            && chain[j].header.height == j && Pos(chain[j - 1]) == (j - 1, chain[j].header.previousBlockHash)
            && hash in s.undos && Replay(chain[..j]).Ok? && Replay(chain[..j + 1]).Ok?
            && RewindBlock(Replay(chain[..j + 1]).value.utxos, s.undos[hash]) == Ok(Replay(chain[..j]).value.utxos)
  {
    hide WellFormed, GenesisOk, LocationsOf, TablesSound, StateMatches;
    var upto := chain[..j + 1];
    assert upto[..|upto| - 1] == chain[..j] && Tip(upto) == chain[j];
    LinkedPrefix(chain, j + 1);
    ReplayOfPrefix(chain, j + 1);
    UndoAt(chain, j);
    hide ApplyBlock;
    TipOverwritesNothing(upto);
    RewindRestoresIff(Replay(chain[..j]).value.utxos, chain[j].txs);
    ReplayPrefix(upto);
  }

  lemma UndoAt(chain: seq<Block>, j: nat)
    requires j < |chain| && Replay(chain).Ok?
    ensures Replay(chain[..j]).Ok? && Replay(chain[..j + 1]).Ok? && |Replay(chain).value.undos| == |chain|
    ensures var a := ApplyBlock(Replay(chain[..j]).value.utxos, chain[j].txs);
            a.Ok? && Replay(chain).value.undos[j] == a.value.undo && Replay(chain[..j + 1]).value.utxos == a.value.utxos
  {
    hide ApplyBlock;
    var upto := chain[..j + 1];
    assert upto[..|upto| - 1] == chain[..j];
    assert upto + chain[j + 1..] == chain;
    ApplyBlocksSplit(map[], upto, chain[j + 1..]);
    UndoPerBlock(map[], chain[..j]);
    UndoPerBlock(map[], chain);
  }

  ghost predicate RewoundTo(o: ForkDbOverlay, chain: seq<Block>, j: nat, k: nat)
    requires k <= j < |chain|
    reads o
  {
    && o.Valid() && o.branch == [] && o.blocks == map[] && o.heights == map[]
    && o.rewindTip == Pos(chain[j]) && o.commonAncestor == o.branchTip == Pos(chain[k])
    && Replay(chain[..j + 1]).Ok? && o.View() == Replay(chain[..j + 1]).value.utxos
    && o.detached == Suffix(chain, |chain| - 1, j)
  }

  lemma RewindAllowed(o: ForkDbOverlay, chain: seq<Block>, j: nat, k: nat)
    requires Canonical(o.base, chain) && k < j < |chain| && RewoundTo(o, chain, j, k)
    ensures o.CanRewind()
  {
    RewindAt(o.base, chain, j);
    assert chain[k].header.height == k;
  }

  lemma {:induction false} OverlayOpens(s: Snapshot, chain: seq<Block>, k: nat)
    requires Canonical(s, chain) && k < |chain|
    ensures var h := chain[k].Hash();
            && h in s.blocks && s.blocks[h] == chain[k] && chain[k].header.height == k
            && s.state.Some? && k <= s.state.value.latestBlock.0 && k in s.heights && s.heights[k] == h
    ensures s.state.value.latestBlock == Pos(Tip(chain))
    ensures Replay(chain[..|chain|]).Ok? && s.utxos == Replay(chain[..|chain|]).value.utxos
    ensures Suffix(chain, |chain| - 1, |chain| - 1) == []
  {
    hide WellFormed, GenesisOk, LocationsOf, TablesSound, UndosMatch, Replay;
    assert chain[..|chain|] == chain;
  }

  method RewindNext(o: ForkDbOverlay, ghost chain: seq<Block>, ghost j: nat, ghost k: nat)
    requires Canonical(o.base, chain) && k < j < |chain| && RewoundTo(o, chain, j, k)
    modifies o
    ensures RewoundTo(o, chain, j - 1, k) && chain[j].header.previousBlockHash == chain[j - 1].Hash()
  {
    hide Canonical, Linked, Replay, Tables, RewindBlock, Suffix;
    RewindAllowed(o, chain, j, k);
    RewindAt(o.base, chain, j);
    SuffixStep(chain, |chain| - 1, j);
    var rewound := o.RewindBlock();
    assert rewound.Ok?;
  }

  /** build_fork_overlay: rewind the canonical suffix above lca, following the chain index.
      The error exits of the source are unreachable, which is what the asserts say. */
  method BuildForkOverlay(view: Snapshot, index: Index, lca: BlockHash, ghost chain: seq<Block>, ghost k: nat)
    returns (o: ForkDbOverlay)
    requires Canonical(view, chain) && Mirrors(index.Value(), chain) && k < |chain| && lca == chain[k].Hash()
    ensures fresh(o) && o.base == view && RewoundTo(o, chain, k, k)
    ensures o.expectedHead == Pos(Tip(chain))
  {
    hide Canonical, Linked, Replay, MirrorsEntries, Tables, Suffix;
    OverlayOpens(view, chain, k);
    CanonicalLinked(view, chain);
    var view0 := OpenOverlay(view, lca);
    assert view0.Ok?;
    o := view0.value;
    var cursor := index.tip.value.hash;
    ghost var j := |chain| - 1;
    assert chain[..j + 1] == chain[..|chain|];
    while cursor != lca
      invariant k <= j < |chain| && cursor == chain[j].Hash()
      invariant o.base == view && o.expectedHead == Pos(Tip(chain)) && fresh(o)
      invariant RewoundTo(o, chain, j, k)
      decreases j
    {
      IndexParent(index.Value(), chain, j);
      RewindNext(o, chain, j, k);
      cursor := index.entries[cursor].parent;
      j := j - 1;
    }
    if k < j { HashesDistinct(chain, k, j); }
  }

  lemma CanonicalLinked(s: Snapshot, chain: seq<Block>)
    requires Canonical(s, chain)
    ensures Linked(chain)
  {}

  lemma IndexParent(index: IndexValue, chain: seq<Block>, j: nat)
    requires Mirrors(index, chain) && j < |chain|
    ensures chain[j].Hash() in index.entries
    ensures index.entries[chain[j].Hash()] ==
            Entry(chain[j].header.previousBlockHash, chain[j].header.height, ChainWork(chain[..j + 1]))
  {
    assert Listed(index.entries, chain, j);
  }

  // ---------------------------------------------------------------- replaying

  /** The overlay holds the first n fork blocks on top of chain[k]. */
  ghost predicate ReplayedTo(o: ForkDbOverlay, chain: seq<Block>, k: nat, blocks: seq<Block>, n: nat)
    requires k < |chain| && n <= |blocks|
    reads o
  {
    && o.Valid() && o.rewindTip == o.commonAncestor == Pos(chain[k])
    && o.branchTip == Pos(Tip(chain[..k + 1] + blocks[..n]))
    && o.detached == Suffix(chain, |chain| - 1, k)
    && ReplayedValues(o.View(), o.branch, chain[..k + 1], blocks[..n])
    && o.base.blocks + o.Bodies() == WithBodies(o.base.blocks, blocks[..n])
    && HeightsOf(chain[..k + 1]) + o.heights == HeightsOf(chain[..k + 1] + blocks[..n])
  }

  /** The set and the undo records of applying the blocks on top of the kept prefix. */
  ghost predicate ReplayedValues(view: UtxoSet, branch: seq<(Block, BlockUndo)>, kept: seq<Block>, blocks: seq<Block>)
  {
    && Replay(kept).Ok? && ApplyBlocks(Replay(kept).value.utxos, blocks).Ok?
    && view == ApplyBlocks(Replay(kept).value.utxos, blocks).value.utxos
    && Prepared(branch, blocks, ApplyBlocks(Replay(kept).value.utxos, blocks).value.undos)
  }

  lemma NothingReplayed(o: ForkDbOverlay, chain: seq<Block>, k: nat, blocks: seq<Block>)
    requires k < |chain| && RewoundTo(o, chain, k, k)
    ensures ReplayedTo(o, chain, k, blocks, 0)
  {
    hide Suffix, Tables, HeightsOf;
    assert blocks[..0] == [] && chain[..k + 1] + [] == chain[..k + 1];
    EmptyBranch(Replay(chain[..k + 1]).value.utxos);
    assert o.Bodies() == map[];
  }

  /** On a linked, replayable branch the next fork block can be replayed, and leads to the next state. */
  lemma ReplayAt(chain: seq<Block>, k: nat, blocks: seq<Block>, n: nat)
    requires k < |chain| && n < |blocks|
    requires Linked(chain[..k + 1] + blocks) && Replay(chain[..k + 1] + blocks).Ok? && Replay(chain[..k + 1]).Ok?
    ensures var m := Replay(chain[..k + 1]).value.utxos;
            var (x, y) := (ApplyBlocks(m, blocks[..n]), ApplyBlocks(m, blocks[..n + 1]));
            && x.Ok? && y.Ok? && ApplyBlock(x.value.utxos, blocks[n].txs).Ok?
            && y.value == Branch(ApplyBlock(x.value.utxos, blocks[n].txs).value.utxos,
                                 x.value.undos + [ApplyBlock(x.value.utxos, blocks[n].txs).value.undo])
    ensures WellFormed(blocks[n]) && blocks[n].header.height == k + 1 + n
    ensures Pos(Tip(chain[..k + 1] + blocks[..n])) == (k + n, blocks[n].header.previousBlockHash)
  {
    LinkedAt(chain, k, blocks, n);
    hide ApplyBlock, ApplyBlocks, Linked;
    var kept := chain[..k + 1];
    ApplyBlocksSplit(map[], kept, blocks);
    ApplyNext(Replay(kept).value.utxos, blocks, n);
  }

  lemma {:induction false} ApplyNext(m: UtxoSet, blocks: seq<Block>, n: nat)
    requires n < |blocks| && ApplyBlocks(m, blocks).Ok?
    ensures var (x, y) := (ApplyBlocks(m, blocks[..n]), ApplyBlocks(m, blocks[..n + 1]));
            && x.Ok? && y.Ok? && ApplyBlock(x.value.utxos, blocks[n].txs).Ok?
            && y.value == Branch(ApplyBlock(x.value.utxos, blocks[n].txs).value.utxos,
                                 x.value.undos + [ApplyBlock(x.value.utxos, blocks[n].txs).value.undo])
  {
    hide ApplyBlock, ApplyBlocks;
    assert blocks[..n + 1] + blocks[n + 1..] == blocks && blocks[..n + 1][..n] == blocks[..n];
    ApplyBlocksSplit(m, blocks[..n + 1], blocks[n + 1..]);
    ApplyUnfolds(m, blocks[..n + 1]);
  }

  lemma {:induction false} ApplyUnfolds(m: UtxoSet, blocks: seq<Block>)
    requires blocks != []
    ensures var (x, y) := (ApplyBlocks(m, blocks[..|blocks| - 1]), ApplyBlocks(m, blocks));
            y.Ok? ==>
              && x.Ok? && ApplyBlock(x.value.utxos, blocks[|blocks| - 1].txs).Ok?
              && y.value == Branch(ApplyBlock(x.value.utxos, blocks[|blocks| - 1].txs).value.utxos,
                                   x.value.undos + [ApplyBlock(x.value.utxos, blocks[|blocks| - 1].txs).value.undo])
  {
    hide ApplyBlock;
  }

  lemma LinkedAt(chain: seq<Block>, k: nat, blocks: seq<Block>, n: nat)
    requires k < |chain| && n < |blocks| && Linked(chain[..k + 1] + blocks)
    ensures WellFormed(blocks[n]) && blocks[n].header.height == k + 1 + n
    ensures Pos(Tip(chain[..k + 1] + blocks[..n])) == (k + n, blocks[n].header.previousBlockHash)
  {
    hide GenesisOk, WellFormed, UniqueIds, AllTxs;
    var branch := chain[..k + 1] + blocks;
    assert branch[k + 1 + n] == blocks[n] && Tip(chain[..k + 1] + blocks[..n]) == branch[k + n];
  }

  lemma TablesStep(chain: seq<Block>, k: nat, blocks: seq<Block>, n: nat)
    requires k < |chain| && n < |blocks| && blocks[n].header.height == k + 1 + n
    ensures HeightsOf(chain[..k + 1] + blocks[..n + 1]) ==
            HeightsOf(chain[..k + 1] + blocks[..n])[blocks[n].header.height := blocks[n].Hash()]
    ensures Tip(chain[..k + 1] + blocks[..n + 1]) == blocks[n]
  {
    var before := chain[..k + 1] + blocks[..n];
    assert chain[..k + 1] + blocks[..n + 1] == before + [blocks[n]];
    HeightsExtend(before, blocks[n]);
  }

  lemma {:induction false} BodiesStep(bodies: BlockTable, blocks: seq<Block>, n: nat)
    requires n < |blocks|
    ensures WithBodies(bodies, blocks[..n + 1]) == WithBodies(bodies, blocks[..n])[blocks[n].Hash() := blocks[n]]
  {
    assert blocks[..n + 1][..n] == blocks[..n];
  }

  /** What replaying blocks[n] needs, and what it makes of the values. */
  lemma NextReplayed(view: UtxoSet, branch: seq<(Block, BlockUndo)>, chain: seq<Block>, k: nat, blocks: seq<Block>,
                     n: nat)
    requires k < |chain| && n < |blocks| && ReplayedValues(view, branch, chain[..k + 1], blocks[..n])
    requires Linked(chain[..k + 1] + blocks) && Replay(chain[..k + 1] + blocks).Ok?
    ensures ApplyBlock(view, blocks[n].txs).Ok?
    ensures var a := ApplyBlock(view, blocks[n].txs).value;
            ReplayedValues(a.utxos, branch + [(blocks[n], a.undo)], chain[..k + 1], blocks[..n + 1])
  {
    hide ApplyBlock, ApplyBlocks, Linked, WellFormed, Replay, Prepared;
    ReplayAt(chain, k, blocks, n);
    var x := ApplyBlocks(Replay(chain[..k + 1]).value.utxos, blocks[..n]).value;
    PreparedAppend(branch, blocks, n, x.undos, ApplyBlock(view, blocks[n].txs).value.undo);
  }

  lemma PreparedAppend(branch: seq<(Block, BlockUndo)>, blocks: seq<Block>, n: nat, undos: seq<BlockUndo>,
                       undo: BlockUndo)
    requires n < |blocks| && Prepared(branch, blocks[..n], undos)
    ensures Prepared(branch + [(blocks[n], undo)], blocks[..n + 1], undos + [undo])
  {}

  method ReplayNext(o: ForkDbOverlay, blocks: seq<Block>, n: nat, ghost chain: seq<Block>, ghost k: nat)
    requires k < |chain| && n < |blocks| && ReplayedTo(o, chain, k, blocks, n)
    requires Linked(chain[..k + 1] + blocks) && Replay(chain[..k + 1] + blocks).Ok?
    modifies o
    ensures ReplayedTo(o, chain, k, blocks, n + 1)
  {
    hide Linked, WellFormed, ApplyBlock, ApplyBlocks, Replay, ReplayedValues, HeightsOf, WithBodies, Tables,
         ForkDbOverlay.Bodies, Suffix;
    ghost var branch, view := o.branch, o.View();
    ReplayedPrefix(o, chain, k, blocks, n);
    ReplayAt(chain, k, blocks, n);
    NextReplayed(view, branch, chain, k, blocks, n);
    TablesStep(chain, k, blocks, n);
    BodiesStep(o.base.blocks, blocks, n);
    NotGenesis(blocks[n]);
    UpdateLast(HeightsOf(chain[..k + 1]), o.heights, blocks[n].header.height, blocks[n].Hash());
    UpdateLast(o.base.blocks, o.Bodies(), blocks[n].Hash(), blocks[n]);
    var replayed := o.ReplayBlock(blocks[n]);
    assert replayed.Ok?;
    assert o.branch == branch + [(blocks[n], ApplyBlock(view, blocks[n].txs).value.undo)];
  }

  lemma ReplayedPrefix(o: ForkDbOverlay, chain: seq<Block>, k: nat, blocks: seq<Block>, n: nat)
    requires k < |chain| && n < |blocks| && ReplayedTo(o, chain, k, blocks, n)
    ensures Replay(chain[..k + 1]).Ok?
  {}

  /** Replay every fork block, parent first. */
  method ReplayAll(o: ForkDbOverlay, blocks: seq<Block>, ghost chain: seq<Block>, ghost k: nat)
    requires k < |chain| && RewoundTo(o, chain, k, k)
    requires Linked(chain[..k + 1] + blocks) && Replay(chain[..k + 1] + blocks).Ok?
    modifies o
    ensures ReplayedTo(o, chain, k, blocks, |blocks|)
  {
    hide RewoundTo, ReplayedTo, Linked, Replay;
    NothingReplayed(o, chain, k, blocks);
    for n := 0 to |blocks|
      invariant ReplayedTo(o, chain, k, blocks, n)
    {
      ReplayNext(o, blocks, n, chain, k);
    }
  }

  /** The view a replayed overlay offers is the state of its branch. */
  lemma BranchIsView(o: ForkDbOverlay, chain: seq<Block>, k: nat, blocks: seq<Block>)
    requires Canonical(o.base, chain) && k < |chain| && ReplayedTo(o, chain, k, blocks, |blocks|)
    ensures o.Branch() == ViewOf(o.base.blocks, chain[..k + 1] + blocks, blocks)
  {
    hide Tables, ApplyBlock, ApplyBlocks, Canonical, HeightsOf, WithBodies, Prepared, Suffix;
    CanonicalFacts(o.base, chain);
    CanonicalLinked(o.base, chain);
    assert blocks[..|blocks|] == blocks;
    ApplyBlocksSplit(map[], chain[..k + 1], blocks);
    MaskedHeights(chain, k);
  }

  /** Masking the heights above the ancestor leaves those of the kept prefix. */
  lemma MaskedHeights(chain: seq<Block>, k: nat)
    requires Linked(chain) && k < |chain|
    ensures chain[k].header.height == k
    ensures (map h | h in HeightsOf(chain) && h <= k :: HeightsOf(chain)[h]) == HeightsOf(chain[..k + 1])
  {
    hide WellFormed, GenesisOk;
  }

  /** The delta of a replayed overlay is prepared for the reorganization. */
  lemma DeltaPrepared(s: Snapshot, chain: seq<Block>, k: nat, blocks: seq<Block>, o: ForkDbOverlay, delta: ForkDbDelta)
    requires o.base == s && Canonical(s, chain) && k < |chain| && ReplayedTo(o, chain, k, blocks, |blocks|)
    requires o.expectedHead == Pos(Tip(chain))
    requires delta == ForkDbDelta(o.expectedHead, o.commonAncestor.1, o.detached, o.branch,
                                  NetPut(s.utxos, o.utxos), NetRemoved(s.utxos, o.removed, o.utxos))
    ensures PreparedAt(s, chain, k, blocks, delta)
  {
    hide WellFormed, GenesisOk, LocationsOf, Tables, ApplyBlock, ApplyBlocks, TablesSound, UndosMatch, HeightsOf,
      Linked;
    assert blocks[..|blocks|] == blocks;
    OverlayOpens(s, chain, k);
    NetChangesRebuild(s.utxos, o.removed, o.utxos);
  }
}
