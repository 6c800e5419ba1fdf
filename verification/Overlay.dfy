/** The in-memory overlay on which a fork is validated and a reorganization prepared. */
module Overlay {
  import opened Primitives
  import opened ChainTypes
  import Processor = UtxoProcessor
  import opened Storage
  import opened Transition

  type UtxoSet = Processor.UtxoSet

  /** What a validator may read of a branch. */
  datatype BranchView = BranchView(utxos: UtxoSet, blocks: map<BlockHash, Block>, heights: map<nat, BlockHash>)

  function CanonicalView(s: Snapshot): BranchView { BranchView(s.utxos, s.blocks, s.heights) }

  /** Net changes relative to the base: what differs, not what was touched. */
  function NetRemoved(base: UtxoSet, removed: set<OutPoint>, utxos: UtxoSet): set<OutPoint>
  {
    set op | op in removed && op !in utxos && op in base
  }

  function NetPut(base: UtxoSet, utxos: UtxoSet): UtxoSet
  {
    map op | op in utxos && !(op in base && base[op] == utxos[op]) :: utxos[op]
  }

  /** The net changes rebuild the overlay's set, and remove only what the base has. */
  lemma NetChangesRebuild(base: UtxoSet, removed: set<OutPoint>, utxos: UtxoSet)
    ensures NetRemoved(base, removed, utxos) <= base.Keys
    ensures base - NetRemoved(base, removed, utxos) + NetPut(base, utxos) == base - removed + utxos
  {}

  /** The overlay's block tables hold exactly the replayed blocks, at consecutive heights. */
  ghost predicate Tables(from: nat, blocks: map<BlockHash, (Block, BlockUndo)>, heights: map<nat, BlockHash>,
                         branch: seq<(Block, BlockUndo)>)
  {
    && (forall h :: h in heights <==> from < h <= from + |branch|)
    && (forall i :: 0 <= i < |branch| ==> Replayed(from, blocks, heights, branch, i))
    && (branch == [] ==> blocks == map[])
    && (forall hash :: hash in blocks ==> OwnRow(blocks, hash, from + |branch|))
  }

  ghost predicate Replayed(from: nat, blocks: map<BlockHash, (Block, BlockUndo)>, heights: map<nat, BlockHash>,
                           branch: seq<(Block, BlockUndo)>, i: nat)
    requires i < |branch|
  {
    var hash := branch[i].0.Hash();
    && branch[i].0.header.height == from + 1 + i
    && from + 1 + i in heights && heights[from + 1 + i] == hash
    && hash in blocks && blocks[hash] == branch[i]
  }

  ghost predicate OwnRow(blocks: map<BlockHash, (Block, BlockUndo)>, hash: BlockHash, top: nat)
    requires hash in blocks
  {
    blocks[hash].0.Hash() == hash && !blocks[hash].0.header.IsGenesis() && blocks[hash].0.header.height <= top
  }

  lemma TablesExtend(from: nat, blocks: map<BlockHash, (Block, BlockUndo)>, heights: map<nat, BlockHash>,
                     branch: seq<(Block, BlockUndo)>, b: Block, undo: BlockUndo)
    requires Tables(from, blocks, heights, branch)
    requires !b.header.IsGenesis() && b.header.height == from + |branch| + 1
    ensures Tables(from, blocks[b.Hash() := (b, undo)], heights[b.header.height := b.Hash()], branch + [(b, undo)])
  {
    var blocks', heights', branch' :=
      blocks[b.Hash() := (b, undo)], heights[b.header.height := b.Hash()], branch + [(b, undo)];
    assert b.Hash() in blocks ==> OwnRow(blocks, b.Hash(), from + |branch|);
    forall i | 0 <= i < |branch'| ensures Replayed(from, blocks', heights', branch', i) {
      if i < |branch| { assert Replayed(from, blocks, heights, branch, i); }
    }
    forall hash | hash in blocks' ensures OwnRow(blocks', hash, from + |branch'|) {
      if hash != b.Hash() { assert OwnRow(blocks, hash, from + |branch|); }
    }
  }

  class ForkDbOverlay {
    const base: Snapshot
    const commonAncestor: ChainPos
    const expectedHead: ChainPos
    var rewindTip: ChainPos
    var branchTip: ChainPos
    var utxos: UtxoSet
    var removed: set<OutPoint>
    var blocks: map<BlockHash, (Block, BlockUndo)>
    var heights: map<nat, BlockHash>
    var detached: seq<ChainPos>
    /** The replayed blocks, parent first. */
    ghost var branch: seq<(Block, BlockUndo)>

    ghost predicate Valid()
      reads this
    {
      branchTip.0 == commonAncestor.0 + |branch| && Tables(commonAncestor.0, blocks, heights, branch)
    }

    /** The UTXO set of the branch: local entries over base entries not removed. */
    function View(): UtxoSet
      reads this
    {
      base.utxos - removed + utxos
    }

    function Bodies(): map<BlockHash, Block>
      reads this
    {
      map hash | hash in blocks :: blocks[hash].0
    }

    /** Heights above the ancestor are masked unless replayed. */
    function Branch(): BranchView
      reads this
    {
      BranchView(View(),
                 base.blocks + Bodies(),
                 (map h | h in base.heights && h <= commonAncestor.0 :: base.heights[h]) + heights)
    }

    constructor At(from: Snapshot, ancestor: ChainPos, head: ChainPos)
      ensures base == from && commonAncestor == ancestor && expectedHead == head
      ensures Bodies() == map[] && heights == map[]
      ensures Valid() && View() == from.utxos && rewindTip == head && branchTip == ancestor
      ensures detached == [] && branch == []
    {
      base, commonAncestor, expectedHead := from, ancestor, head;
      rewindTip, branchTip := head, ancestor;
      utxos, removed, blocks, heights, detached, branch := map[], {}, map[], map[], [], [];
    }

    method BatchPutUtxos(puts: UtxoSet)
      modifies this`utxos
      ensures View() == old(View()) + puts
    {
      utxos := utxos + puts;
    }

    method BatchRemoveUtxos(ops: set<OutPoint>) returns (r: Result<(), StorageError>)
      modifies this`utxos, this`removed
      ensures r == if ops <= old(View()).Keys then Ok(()) else Err(UtxoNotFound)
      ensures View() == if r.Ok? then old(View()) - ops else old(View())
    {
      if exists op :: op in ops && GetUtxo(op) == None { return Err(UtxoNotFound); }
      assert forall op :: op in ops ==> op in View();
      utxos, removed := utxos - ops, removed + ops;
      r := Ok(());
    }

    /** A local entry wins over a removal marker. */
    function GetUtxo(op: OutPoint): (r: Option<Utxo>)
      reads this
      ensures r == if op in View() then Some(View()[op]) else None
    {
      if op in utxos then Some(utxos[op])
      else if op in removed then None
      else if op in base.utxos then Some(base.utxos[op]) else None
    }

    method BatchGetUtxos(ops: seq<OutPoint>) returns (r: Result<UtxoSet, StorageError>)
      ensures r.Ok? <==> forall op :: op in ops ==> op in View()
      ensures r.Ok? ==> r.value == Processor.Restrict(View(), Elements(ops))
      ensures r.Err? ==> r.error == UtxoNotFound
    {
      var found: UtxoSet := map[];
      for i := 0 to |ops|
        invariant forall op :: op in ops[..i] ==> op in View()
        invariant found == Processor.Restrict(View(), Elements(ops[..i]))
      {
        var got := GetUtxo(ops[i]);
        if got == None { return Err(UtxoNotFound); }
        assert ops[..i + 1] == ops[..i] + [ops[i]];
        found := found[ops[i] := got.value];
      }
      assert ops[..|ops|] == ops;
      r := Ok(found);
    }

    /** UtxoProcessor::apply_block against the overlay. */
    method ApplyBlock(b: Block) returns (r: Result<BlockUndo, StorageError>)
      modifies this`utxos, this`removed
      ensures var a := Processor.ApplyBlock(old(View()), b.txs);
              match r
              case Ok(undo) => a == Ok(Processor.Applied(View(), undo))
              case Err(e) => a == Err(e)
    {
      hide Processor.NetBlock;
      var e := Processor.ComputeNetEffect(b.txs);
      var spent: UtxoSet := map[];
      if e.external != [] {
        var existing :- BatchGetUtxos(e.external);
        spent :- Processor.DrainSpent(existing, e.external);
        var gone := BatchRemoveUtxos(Elements(e.external));
        assert gone.Ok?;
      }
      assert View() == old(View()) - Elements(e.external);
      assert spent == Processor.Restrict(old(View()), Elements(e.external));
      BatchPutUtxos(e.created);
      r := Ok(BlockUndo(spent, e.created.Keys));
    }

    /** UtxoProcessor::rewind_block against the overlay. */
    method RewindUtxos(undo: BlockUndo) returns (r: Result<(), StorageError>)
      modifies this`utxos, this`removed
      ensures match Processor.RewindBlock(old(View()), undo)
              case Ok(m) => r == Ok(()) && View() == m
              case Err(_) => r.Err?
    {
      var _ :- BatchRemoveUtxos(undo.created);
      BatchPutUtxos(undo.spent);
      r := Ok(());
    }

    /** One canonical block can be rewound: the overlay is above the ancestor, nothing was
        replayed, and the base's rows for the block agree. */
    predicate CanRewind()
      reads this
    {
      var (height, hash) := rewindTip;
      && blocks == map[] && commonAncestor.0 < height
      && hash in base.blocks && base.blocks[hash].Hash() == hash && base.blocks[hash].header.height == height
      && height in base.heights && base.heights[height] == hash
      && hash in base.undos && Processor.RewindBlock(View(), base.undos[hash]).Ok?
    }

    method RewindBlock() returns (r: Result<(), StorageError>)
      requires Valid()
      modifies this
      ensures r.Ok? <==> old(CanRewind())
      ensures r.Ok? ==>
                && Valid() && branch == old(branch) && branchTip == old(branchTip)
                && Processor.RewindBlock(old(View()), base.undos[old(rewindTip).1]) == Ok(View())
                && detached == old(detached) + [old(rewindTip)]
                && rewindTip.0 == old(rewindTip).0 - 1
                && rewindTip.1 == base.blocks[old(rewindTip).1].header.previousBlockHash
                && Bodies() == old(Bodies()) && heights == old(heights)
    {
      if blocks != map[] || rewindTip.0 <= commonAncestor.0 { return Err(InvalidTransition); }
      var (height, hash) := rewindTip;
      if hash !in base.blocks { return Err(Corruption); }
      var b := base.blocks[hash];
      if b.Hash() != hash || b.header.height != height || height !in base.heights || base.heights[height] != hash {
        return Err(Corruption);
      }
      if hash !in base.undos { return Err(Corruption); }
      var rewound := RewindUtxos(base.undos[hash]);
      if rewound.Err? { return Err(Corruption); }
      detached := detached + [rewindTip];
      rewindTip := (height - 1, b.header.previousBlockHash);
      r := Ok(());
    }

    /** A block can be replayed when the rewind is complete and it extends the branch. */
    ghost predicate CanReplay(b: Block)
      reads this
    {
      && b.header.WorkShapeOk() && rewindTip == commonAncestor
      && !b.header.IsGenesis() && b.header.hashThreshold != 0
      && b.header.previousBlockHash == branchTip.1 && NextU64(branchTip.0) == Some(b.header.height)
      && Processor.ApplyBlock(View(), b.txs).Ok?
    }

    method ReplayBlock(b: Block) returns (r: Result<(), StorageError>)
      requires Valid()
      modifies this
      ensures r.Ok? <==> old(CanReplay(b))
      ensures r.Ok? ==>
                && Valid() && rewindTip == old(rewindTip) && detached == old(detached)
                && branchTip == (b.header.height, b.Hash())
                && |branch| == |old(branch)| + 1 && branch[..|branch| - 1] == old(branch)
                && branch[|branch| - 1].0 == b
                && Bodies() == old(Bodies())[b.Hash() := b]
                && heights == old(heights)[b.header.height := b.Hash()]
                && Processor.ApplyBlock(old(View()), b.txs) == Ok(Processor.Applied(View(), branch[|branch| - 1].1))
    {
      hide Tables, Processor.ApplyBlock;
      if !b.header.WorkShapeOk() { return Err(InvalidTransition); }
      if rewindTip != commonAncestor || b.header.IsGenesis() || b.header.hashThreshold == 0
         || b.header.previousBlockHash != branchTip.1 || NextU64(branchTip.0) != Some(b.header.height) {
        return Err(InvalidTransition);
      }
      var undo :- ApplyBlock(b);
      Record(b, undo);
      r := Ok(());
    }

    method Record(b: Block, undo: BlockUndo)
      requires Valid() && !b.header.IsGenesis() && NextU64(branchTip.0) == Some(b.header.height)
      modifies this`blocks, this`heights, this`branchTip, this`branch
      ensures Valid() && branch == old(branch) + [(b, undo)] && branchTip == (b.header.height, b.Hash())
      ensures Bodies() == old(Bodies())[b.Hash() := b] && heights == old(heights)[b.header.height := b.Hash()]
    {
      hide Tables;
      var hash := b.Hash();
      TablesExtend(commonAncestor.0, blocks, heights, branch, b, undo);
      blocks := blocks[hash := (b, undo)];
      heights := heights[b.header.height := hash];
      branchTip := (b.header.height, hash);
      branch := branch + [(b, undo)];
    }

    /** The replayed blocks sorted by height, and the net UTXO changes. */
    method IntoDelta() returns (r: Result<ForkDbDelta, StorageError>)
      requires Valid()
      ensures r.Ok? <==> rewindTip == commonAncestor && branch != []
      ensures r.Ok? ==> r.value == ForkDbDelta(expectedHead, commonAncestor.1, detached, branch,
                                               NetPut(base.utxos, utxos), NetRemoved(base.utxos, removed, utxos))
      ensures r.Ok? ==> base.utxos - r.value.removedUtxos + r.value.utxos == View()
    {
      assert branch != [] ==> Replayed(commonAncestor.0, blocks, heights, branch, 0);
      if rewindTip != commonAncestor || blocks == map[] { return Err(InvalidTransition); }
      var sorted: seq<(Block, BlockUndo)> := [];
      for h := commonAncestor.0 + 1 to branchTip.0 + 1
        invariant sorted == branch[..h - commonAncestor.0 - 1]
      {
        assert Replayed(commonAncestor.0, blocks, heights, branch, h - commonAncestor.0 - 1);
        sorted := sorted + [blocks[heights[h]]];
      }
      NetChangesRebuild(base.utxos, removed, utxos);
      r := Ok(ForkDbDelta(expectedHead, commonAncestor.1, detached, sorted,
                          NetPut(base.utxos, utxos), NetRemoved(base.utxos, removed, utxos)));
    }
  }

  method OpenOverlay(base: Snapshot, ancestor: BlockHash) returns (r: Result<ForkDbOverlay, StorageError>)
    ensures r.Ok? <==>
              && ancestor in base.blocks && base.state.Some?
              && base.blocks[ancestor].Hash() == ancestor
              && base.blocks[ancestor].header.height <= base.state.value.latestBlock.0
              && base.blocks[ancestor].header.height in base.heights
              && base.heights[base.blocks[ancestor].header.height] == ancestor
    ensures r.Ok? ==>
              var o := r.value;
              && fresh(o) && o.Valid() && o.base == base && o.View() == base.utxos
              && o.commonAncestor == (base.blocks[ancestor].header.height, ancestor)
              && o.expectedHead == base.state.value.latestBlock == o.rewindTip && o.branchTip == o.commonAncestor
              && o.detached == [] && o.branch == []
              && o.Bodies() == map[] && o.heights == map[]
  {
    if ancestor !in base.blocks { return Err(BlockNotFound); }
    if base.state == None { return Err(Uninitialized); }
    var b, head := base.blocks[ancestor], base.state.value.latestBlock;
    if b.Hash() != ancestor { return Err(Corruption); }
    if head.0 < b.header.height || b.header.height !in base.heights || base.heights[b.header.height] != ancestor {
      return Err(InvalidTransition);
    }
    var o := new ForkDbOverlay.At(base, (b.header.height, ancestor), head);
    r := Ok(o);
  }
}
