/** What the committed tables say about the canonical chain, and that every step keeps it. */
module CanonicalChain {
  import opened Primitives
  import opened ChainTypes
  import opened UtxoProcessor
  import opened BlockRules
  import opened Ledger
  import opened Storage
  import opened Transition

  // ---------------------------------------------------------------- chains as values

  /** Genesis and well-formed blocks above it, each naming its predecessor. */
  ghost predicate Joined(chain: seq<Block>)
  {
    && StructuredChain(chain)
    && forall i :: 1 <= i < |chain| ==> chain[i].header.previousBlockHash == chain[i - 1].Hash()
  }

  /** The same, and no transaction id occurs twice. */
  ghost predicate Linked(chain: seq<Block>)
  {
    && WellFormedChain(chain)
    && forall i :: 1 <= i < |chain| ==> chain[i].header.previousBlockHash == chain[i - 1].Hash()
  }

  function Tip(chain: seq<Block>): Block
    requires chain != []
  {
    chain[|chain| - 1]
  }

  function ChainWork(chain: seq<Block>): nat
  {
    if chain == [] then 0 else ChainWork(chain[..|chain| - 1]) + chain[|chain| - 1].Work()
  }

  /** Cumulative work is a function of the hash alone, because a hash pins its ancestry. */
  function WorkBelow(hash: BlockHash): nat
  {
    match hash
    case ZeroHash => 0
    case HeaderHash(h) => WorkBelow(h.previousBlockHash) + BlockWork(h.hashThreshold)
  }

  function HeightsOf(chain: seq<Block>): map<nat, BlockHash> { map i: nat | i < |chain| :: chain[i].Hash() }

  function LocationsOf(chain: seq<Block>): map<TxId, TxLocation>
  {
    if chain == [] then map[] else LocationsOf(chain[..|chain| - 1]) + Locations(chain[|chain| - 1])
  }

  predicate HasBlock(chain: seq<Block>, hash: BlockHash) { exists b :: b in chain && b.Hash() == hash }

  /** The UTXO set and undo records of replaying a chain from nothing. */
  ghost function Replay(chain: seq<Block>): Result<Branch, StorageError> { ApplyBlocks(map[], chain) }

  // ---------------------------------------------------------------- the invariant

  type BlockTable = map<BlockHash, Block>
  type IndexTable = map<BlockHash, BlockIndexData>
  type UndoTable = map<BlockHash, BlockUndo>

  /** Row of a block in the work index. */
  predicate RowMatches(row: BlockIndexData, b: Block, work: nat)
  {
    row.parentHash == b.header.previousBlockHash && row.height == b.header.height && row.chainWork == work
  }

  predicate StateMatches(st: ChainState, chain: seq<Block>)
    requires chain != []
  {
    && st.latestBlock.0 == |chain| - 1 && st.latestBlock.1 == Tip(chain).Hash()
    && st.lastUpdateTime == Tip(chain).header.timestamp
    && st.blocksCount == |chain|
    && st.chainWork == ChainWork(chain)
  }

  /** Block and index tables: keyed by hash, bodies committed to, work equal to the ancestry's. */
  predicate TablesSound(blocks: BlockTable, indexes: IndexTable)
  {
    && indexes.Keys == blocks.Keys
    && (forall h :: h in blocks ==> blocks[h].Hash() == h && blocks[h].MerkleRootValid())
    && (forall h :: h in blocks ==> RowMatches(indexes[h], blocks[h], WorkBelow(h)))
  }

  predicate Holds(blocks: BlockTable, chain: seq<Block>)
  {
    forall i :: 0 <= i < |chain| ==> chain[i].Hash() in blocks && blocks[chain[i].Hash()] == chain[i]
  }

  /** Undo of every block above genesis, as recorded by a replay. */
  predicate UndosMatch(table: UndoTable, chain: seq<Block>, undos: seq<BlockUndo>)
    requires |undos| == |chain|
  {
    forall i :: 1 <= i < |chain| ==> chain[i].Hash() in table && table[chain[i].Hash()] == undos[i]
  }

  /** All tables describe the chain. */
  ghost predicate Chained(s: Snapshot, chain: seq<Block>)
  {
    && Joined(chain)
    && s.metadata.Some?
    && s.state.Some? && StateMatches(s.state.value, chain)
    && s.heights == HeightsOf(chain)
    && s.transactions == LocationsOf(chain)
    && TablesSound(s.blocks, s.indexes) && Holds(s.blocks, chain)
    && Replay(chain).Ok?
    && s.utxos == Replay(chain).value.utxos
    && |Replay(chain).value.undos| == |chain|
    && UndosMatch(s.undos, chain, Replay(chain).value.undos)
  }

  /** The tables describe the chain, and every block of it can be undone. */
  ghost predicate Canonical(s: Snapshot, chain: seq<Block>) { Linked(chain) && Chained(s, chain) }

  lemma {:induction false} ChainedIsCanonical(s: Snapshot, chain: seq<Block>)
    ensures Canonical(s, chain) <==> Chained(s, chain) && UniqueIds(AllTxs(chain))
  {
    hide UniqueIds, AllTxs, WellFormed, GenesisOk, Replay;
  }

  lemma {:induction false} LinkedJoined(chain: seq<Block>)
    ensures Linked(chain) <==> Joined(chain) && UniqueIds(AllTxs(chain))
  {
    hide UniqueIds, AllTxs, WellFormed, GenesisOk;
  }

  // ---------------------------------------------------------------- facts about chains

  lemma HashesDistinct(chain: seq<Block>, i: nat, j: nat)
    requires Linked(chain) && i < j < |chain|
    ensures chain[i].Hash() != chain[j].Hash()
  {
    assert WellFormed(chain[j]);
    assert chain[i].header.height == i && chain[j].header.height == j;
  }

  lemma NewHash(chain: seq<Block>, b: Block)
    requires Joined(chain) && !b.header.IsGenesis() && b.header.height >= |chain|
    ensures !HasBlock(chain, b.Hash())
  {
    forall c | c in chain ensures c.Hash() != b.Hash() {
      var i :| 0 <= i < |chain| && chain[i] == c;
    }
  }

  lemma LinkedExtend(chain: seq<Block>, b: Block)
    requires Linked(chain) && WellFormed(b)
    requires b.header.height == |chain| && b.header.previousBlockHash == Tip(chain).Hash()
    ensures Linked(chain + [b]) <==> NewIds(chain, b)
  {
    AllTxsExtend(chain, b);
    hide WellFormed, GenesisOk, UniqueIds, AllTxs;
  }

  lemma LinkedPrefix(chain: seq<Block>, n: nat)
    requires Linked(chain) && 1 <= n <= |chain|
    ensures Linked(chain[..n])
  {
    AllTxsPrefix(chain, n);
    UniquePrefix(AllTxs(chain), AllTxs(chain[..n]));
    hide WellFormed, GenesisOk, UniqueIds, AllTxs;
  }

  lemma JoinedPrefix(chain: seq<Block>, n: nat)
    requires Joined(chain) && 1 <= n <= |chain|
    ensures Joined(chain[..n])
  {
    hide WellFormed, GenesisOk;
  }

  lemma JoinedExtend(chain: seq<Block>, b: Block)
    requires Joined(chain) && WellFormed(b)
    requires b.header.height == |chain| && b.header.previousBlockHash == Tip(chain).Hash()
    ensures Joined(chain + [b])
  {
    hide WellFormed, GenesisOk;
  }

  lemma {:induction false} ChainWorkBelow(chain: seq<Block>)
    requires Joined(chain)
    ensures ChainWork(chain) == WorkBelow(Tip(chain).Hash())
  {
    if |chain| == 1 {
      assert ChainWork(chain[..0]) == 0;
    } else {
      JoinedPrefix(chain, |chain| - 1);
      ChainWorkBelow(chain[..|chain| - 1]);
      assert WellFormed(Tip(chain));
    }
  }

  lemma {:induction false} ChainWorkBound(chain: seq<Block>)
    requires Joined(chain)
    ensures ChainWork(chain) <= (|chain| - 1) * TWO_256
  {
    if |chain| == 1 {
      assert ChainWork(chain[..0]) == 0;
    } else {
      JoinedPrefix(chain, |chain| - 1);
      ChainWorkBound(chain[..|chain| - 1]);
    }
  }

  /** Along any chain of u64 height the 512-bit sum never overflows. */
  lemma {:induction false} AddWorkNeverFails(chain: seq<Block>, b: Block)
    requires Joined(chain)
    ensures ChainWork(chain) + b.Work() < TWO_512
  {
    ChainWorkBound(chain);
    assert Tip(chain).header.height == |chain| - 1;
  }

  lemma {:induction false} WorkGrows(chain: seq<Block>, i: nat, j: nat)
    requires Linked(chain) && i < j < |chain|
    ensures ChainWork(chain[..i + 1]) < ChainWork(chain[..j + 1])
    decreases j
  {
    assert chain[..j + 1][..j] == chain[..j];
    assert WellFormed(chain[j]);
    if i + 1 < j { WorkGrows(chain, i, j - 1); }
  }

  lemma {:induction false} LocatedIds(chain: seq<Block>)
    ensures LocationsOf(chain).Keys == Ids(AllTxs(chain))
  {
    if chain != [] {
      LocatedIds(chain[..|chain| - 1]);
      var b := chain[|chain| - 1];
      assert forall id :: id in Locations(b) <==> id in Ids(b.txs);
    }
  }

  lemma SplitIds(xs: seq<Transaction>, ys: seq<Transaction>)
    requires UniqueIds(xs + ys)
    ensures Ids(xs) !! Ids(ys)
  {
    forall i, j | 0 <= i < |xs| && 0 <= j < |ys| ensures xs[i].data.Hash() != ys[j].data.Hash() {
      assert (xs + ys)[i] == xs[i] && (xs + ys)[|xs| + j] == ys[j];
    }
  }

  lemma {:induction false} TipIdsFresh(chain: seq<Block>)
    requires chain != [] && UniqueIds(AllTxs(chain))
    ensures LocationsOf(chain[..|chain| - 1]).Keys !! Locations(chain[|chain| - 1]).Keys
  {
    var before, b := chain[..|chain| - 1], chain[|chain| - 1];
    LocatedIds(before);
    SplitIds(AllTxs(before), b.txs);
    assert Locations(b).Keys == Ids(b.txs);
  }

  /** Removing the tip's locators gives back the locators of the chain without it. */
  lemma {:induction false} DropTipLocations(s: Snapshot, chain: seq<Block>)
    requires chain != [] && UniqueIds(AllTxs(chain)) && s.transactions == LocationsOf(chain)
    ensures var b := Tip(chain);
            s.transactions - s.OwnedIds(b, |b.txs|) == LocationsOf(chain[..|chain| - 1])
  {
    TipIdsFresh(chain);
    var b := Tip(chain);
    assert s.OwnedIds(b, |b.txs|) == Locations(b).Keys;
  }

  /** The transaction index answers exactly for the canonical transactions. */
  lemma {:induction false} LocatorsExact(s: Snapshot, chain: seq<Block>, id: TxId)
    requires Chained(s, chain)
    ensures id in Ids(AllTxs(chain)) <==> s.GetTransaction(id).Ok? && s.GetTransaction(id).value.Some?
    ensures id !in Ids(AllTxs(chain)) ==> s.GetTransaction(id) == Ok(None)
    ensures id in Ids(AllTxs(chain)) ==>
              var (tx, at) := s.GetTransaction(id).value.value;
              && at.blockHeight < |chain| && at.blockHash == chain[at.blockHeight].Hash()
              && at.txIndex < |chain[at.blockHeight].txs| && chain[at.blockHeight].txs[at.txIndex] == tx
              && tx.data.Hash() == id
  {
    hide WellFormed, GenesisOk, Replay, UndosMatch, TablesSound;
    LocatedIds(chain);
    if id in LocationsOf(chain) {
      LocationNamesBlock(chain, id);
    }
  }

  lemma {:induction false} LocationNamesBlock(chain: seq<Block>, id: TxId)
    requires id in LocationsOf(chain) && forall i :: 0 <= i < |chain| ==> chain[i].header.height == i
    ensures var at := LocationsOf(chain)[id];
            && at.blockHeight < |chain| && at.blockHash == chain[at.blockHeight].Hash()
            && at.txIndex < |chain[at.blockHeight].txs|
            && chain[at.blockHeight].txs[at.txIndex].data.Hash() == id
  {
    if id !in Locations(chain[|chain| - 1]) { LocationNamesBlock(chain[..|chain| - 1], id); }
  }

  // ---------------------------------------------------------------- steps

  /** Nothing is lost from the by-hash tables. */
  predicate Retains(s: Snapshot, s': Snapshot)
  {
    && (forall h :: h in s.blocks ==> h in s'.blocks && s'.blocks[h] == s.blocks[h])
    && (forall h :: h in s.indexes ==> h in s'.indexes && s'.indexes[h] == s.indexes[h])
    && s.undos.Keys <= s'.undos.Keys
  }

  lemma ChainedVerifies(s: Snapshot, chain: seq<Block>)
    requires Chained(s, chain)
    ensures VerifyCurrentState(s, s.state.value) == Ok(())
  {
    hide WellFormed, GenesisOk, Replay, LocationsOf, UndosMatch;
    ChainWorkBelow(chain);
    assert Tip(chain).header.height == |chain| - 1;
  }

  /** When an append goes through: the guards a caller can check. */
  ghost predicate CanAppend(chain: seq<Block>, utxos: UtxoSet, b: Block)
    requires chain != []
  {
    && b.header.previousBlockHash == Tip(chain).Hash()
    && b.header.height == |chain| < U64_MAX
    && ApplyBlock(utxos, b.txs).Ok?
  }

  lemma {:induction false} ExtendedStateOk(st: ChainState, chain: seq<Block>, b: Block)
    requires Joined(chain) && WellFormed(b)
    requires st.latestBlock.0 == |chain| - 1 && st.latestBlock.1 == Tip(chain).Hash()
             && st.chainWork == ChainWork(chain)
    ensures ExtendedState(st, b).Ok? <==>
              && b.header.previousBlockHash == Tip(chain).Hash() && b.header.height == |chain| < U64_MAX
    ensures ExtendedState(st, b).Ok? ==> StateMatches(ExtendedState(st, b).value, chain + [b])
  {
    hide StructureOk, GenesisOk, BlockWork;
    AddWorkNeverFails(chain, b);
    assert (chain + [b])[..|chain|] == chain;
  }

  /** Writing a well-formed block keeps every by-hash row. */
  lemma PutBlockSound(blocks: BlockTable, indexes: IndexTable, b: Block, work: u512)
    requires TablesSound(blocks, indexes) && WellFormed(b) && work == WorkBelow(b.Hash())
    ensures TablesSound(blocks[b.Hash() := b], indexes[b.Hash() := BlockIndexOf(b, work)])
    ensures b.Hash() in blocks ==> blocks[b.Hash()] == b
    ensures b.Hash() in indexes ==> indexes[b.Hash()] == BlockIndexOf(b, work)
  {
    hide StructureOk, BlockWork;
  }

  /** The tables after b was applied on top of s. */
  function Appended(s: Snapshot, b: Block, a: Applied, st: ChainState): Snapshot
  {
    Snapshot(a.utxos, s.blocks[b.Hash() := b], s.heights[b.header.height := b.Hash()],
             s.indexes[b.Hash() := BlockIndexOf(b, st.chainWork)], s.transactions + Locations(b),
             s.undos[b.Hash() := a.undo], Some(st), s.metadata)
  }

  lemma HeightsExtend(chain: seq<Block>, b: Block)
    ensures HeightsOf(chain + [b]) == HeightsOf(chain)[|chain| := b.Hash()]
  {}

  /** Earlier rows survive because the new hash is none of theirs. */
  lemma RowsExtend(blocks: BlockTable, table: UndoTable, chain: seq<Block>, b: Block, undos: seq<BlockUndo>,
                   undo: BlockUndo)
    requires Holds(blocks, chain) && !HasBlock(chain, b.Hash())
    requires |undos| == |chain| && UndosMatch(table, chain, undos)
    ensures Holds(blocks[b.Hash() := b], chain + [b])
    ensures UndosMatch(table[b.Hash() := undo], chain + [b], undos + [undo])
  {
    var longer := chain + [b];
    forall i | 0 <= i < |chain| ensures longer[i] == chain[i] && chain[i].Hash() != b.Hash() {
      assert chain[i] in chain;
    }
  }

  /** Everything an append decides, in terms of the chain: whether it succeeds, and the result. */
  lemma AppendResult(s: Snapshot, chain: seq<Block>, b: Block) returns (a: Applied, st: ChainState)
    requires Chained(s, chain) && WellFormed(b)
    ensures AppendSpec(s, b).Ok? <==> CanAppend(chain, s.utxos, b)
    ensures AppendSpec(s, b).Ok? ==>
              && ApplyBlock(s.utxos, b.txs) == Ok(a) && StateMatches(st, chain + [b])
              && AppendSpec(s, b).value == Staged(Appended(s, b, a, st), st, [])
    ensures TablesSound(s.blocks, s.indexes)
    ensures AppendSpec(s, b).Ok? <==> ExtendedState(s.state.value, b).Ok? && ApplyBlock(s.utxos, b.txs).Ok?
    ensures AppendSpec(s, b).Ok? ==> ExtendedState(s.state.value, b) == Ok(st)
  {
    hide WellFormed, GenesisOk, Replay, LocationsOf, UndosMatch, HeightsOf, TablesSound, ApplyBlock, BlockWork;
    ChainedVerifies(s, chain);
    ExtendedStateOk(s.state.value, chain, b);
    if CanAppend(chain, s.utxos, b) {
      a, st := ApplyBlock(s.utxos, b.txs).value, ExtendedState(s.state.value, b).value;
    } else {
      a, st := Applied(map[], BlockUndo(map[], {})), s.state.value;
    }
  }

  /** Append succeeds exactly under its guards, and its result describes the longer chain. */
  lemma AppendKeepsChained(s: Snapshot, chain: seq<Block>, b: Block)
    requires Chained(s, chain) && WellFormed(b)
    ensures AppendSpec(s, b).Ok? <==> CanAppend(chain, s.utxos, b)
    ensures AppendSpec(s, b).Ok? ==>
              && Chained(AppendSpec(s, b).value.store, chain + [b])
              && Retains(s, AppendSpec(s, b).value.store)
  {
    hide Chained, WellFormed, AppendSpec, StateMatches, CanAppend, ApplyBlock;
    var a, st := AppendResult(s, chain, b);
    if AppendSpec(s, b).Ok? {
      AppendedWork(s, chain, b, st);
      RowsRetained(s, b, a, st);
      AppendedIsChained(s, chain, b, a, st);
    }
  }

  /** The longer chain is canonical, so every block of it can be undone, exactly when the
      transaction ids of the block are new to the chain. */
  lemma AppendKeepsCanonical(s: Snapshot, chain: seq<Block>, b: Block)
    requires Canonical(s, chain) && WellFormed(b)
    ensures AppendSpec(s, b).Ok? <==> CanAppend(chain, s.utxos, b)
    ensures AppendSpec(s, b).Ok? ==>
              && (Canonical(AppendSpec(s, b).value.store, chain + [b]) <==> NewIds(chain, b))
              && Retains(s, AppendSpec(s, b).value.store)
  {
    hide Canonical, Chained, WellFormed, AppendSpec, StateMatches, CanAppend, ApplyBlock, UniqueIds, AllTxs;
    ChainedIsCanonical(s, chain);
    AppendKeepsChained(s, chain, b);
    AllTxsExtend(chain, b);
    if AppendSpec(s, b).Ok? { ChainedIsCanonical(AppendSpec(s, b).value.store, chain + [b]); }
  }

  lemma AppendedWork(s: Snapshot, chain: seq<Block>, b: Block, st: ChainState)
    requires Chained(s, chain) && WellFormed(b) && CanAppend(chain, s.utxos, b) && StateMatches(st, chain + [b])
    ensures st.chainWork == WorkBelow(b.Hash())
  {
    ChainWorkBelow(chain);
    assert (chain + [b])[..|chain|] == chain;
  }

  lemma RowsRetained(s: Snapshot, b: Block, a: Applied, st: ChainState)
    requires TablesSound(s.blocks, s.indexes) && WellFormed(b) && st.chainWork == WorkBelow(b.Hash())
    ensures Retains(s, Appended(s, b, a, st))
  {
    hide WellFormed, TablesSound, WorkBelow, Locations;
    PutBlockSound(s.blocks, s.indexes, b, st.chainWork);
  }

  lemma AppendedIsChained(s: Snapshot, chain: seq<Block>, b: Block, a: Applied, st: ChainState)
    requires Chained(s, chain) && WellFormed(b) && CanAppend(chain, s.utxos, b)
    requires ApplyBlock(s.utxos, b.txs) == Ok(a) && StateMatches(st, chain + [b])
    ensures Chained(Appended(s, b, a, st), chain + [b])
  {
    hide StructureOk, HeaderOk, GenesisOk, WorkBelow, BlockWork, TablesSound, Holds, UndosMatch, RowMatches;
    var longer := chain + [b];
    JoinedExtend(chain, b);
    ChainWorkBelow(longer);
    HeightsExtend(chain, b);
    assert longer[..|chain|] == chain;
    PutBlockSound(s.blocks, s.indexes, b, st.chainWork);
    NewHash(chain, b);
    RowsExtend(s.blocks, s.undos, chain, b, Replay(chain).value.undos, a.undo);
    assert Replay(longer) == Ok(Branch(a.utxos, Replay(chain).value.undos + [a.undo]));
  }

  /** Reference step: undo the canonical tip in every table that depends on the selection. */
  function RewindTip(s: Snapshot): Result<Snapshot, StorageError>
  {
    if s.state == None || s.state.value.latestBlock.1 !in s.blocks then Err(Corruption)
    else
      var hash := s.state.value.latestBlock.1;
      var b := s.blocks[hash];
      var parent := b.header.previousBlockHash;
      if hash !in s.undos || parent !in s.blocks || parent !in s.indexes || b.header.height == 0 then Err(Corruption)
      else
        var s' :- s.RemoveCanonicalBlock(b);
        var utxos :- RewindBlock(s.utxos, s.undos[hash]);
        var st := ChainState((b.header.height - 1, parent), s.blocks[parent].header.timestamp,
                             b.header.height, s.indexes[parent].chainWork);
        Ok(s'.(utxos := utxos, state := Some(st)))
  }

  lemma RewindTipKeepsCanonical(s: Snapshot, chain: seq<Block>)
    requires Canonical(s, chain) && |chain| >= 2
    ensures RewindTip(s).Ok? && Canonical(RewindTip(s).value, chain[..|chain| - 1])
    ensures var s' := RewindTip(s).value;
            s'.blocks == s.blocks && s'.indexes == s.indexes && s'.undos == s.undos && s'.metadata == s.metadata
  {
    hide WellFormed, GenesisOk;
    LinkedPrefix(chain, |chain| - 1);
    ReplayPrefix(chain);
    RowsPrefix(s.blocks, s.undos, chain, Replay(chain).value.undos);
    hide RewindTip, Replay, LocationsOf, HeightsOf, Linked, Holds, UndosMatch, TablesSound, StateMatches;
    var st := RewindTipResult(s, chain);
  }

  lemma RowsPrefix(blocks: BlockTable, table: UndoTable, chain: seq<Block>, undos: seq<BlockUndo>)
    requires chain != [] && |undos| == |chain| && Holds(blocks, chain) && UndosMatch(table, chain, undos)
    ensures Holds(blocks, chain[..|chain| - 1])
    ensures UndosMatch(table, chain[..|chain| - 1], undos[..|chain| - 1])
  {}

  lemma RewindTipResult(s: Snapshot, chain: seq<Block>) returns (st: ChainState)
    requires Canonical(s, chain) && |chain| >= 2
    ensures var shorter := chain[..|chain| - 1];
            && Replay(shorter).Ok? && StateMatches(st, shorter)
            && RewindTip(s) == Ok(s.(heights := HeightsOf(shorter), transactions := LocationsOf(shorter),
                                     utxos := Replay(shorter).value.utxos, state := Some(st)))
  {
    hide WellFormed, GenesisOk, UndosMatch, ApplyBlocks, LocationsOf, HeightsOf, RewindBlock,
      Snapshot.RemoveCanonicalBlock;
    RewindTipTables(s, chain);
    RewindTipUtxos(s, chain);
    ParentState(s, chain);
    var b, parent := Tip(chain), chain[|chain| - 2].Hash();
    st := ChainState((b.header.height - 1, parent), s.blocks[parent].header.timestamp,
                     b.header.height, s.indexes[parent].chainWork);
  }

  lemma ReplayPrefix(chain: seq<Block>)
    requires chain != [] && Replay(chain).Ok?
    ensures var shorter := chain[..|chain| - 1];
            && Replay(shorter).Ok?
            && |Replay(chain).value.undos| == |chain|
            && Replay(shorter).value.undos == Replay(chain).value.undos[..|shorter|]
  {
    UndoPerBlock(map[], chain[..|chain| - 1]);
  }

  lemma RewindTipTables(s: Snapshot, chain: seq<Block>)
    requires Canonical(s, chain) && |chain| >= 2
    ensures var b, shorter := Tip(chain), chain[..|chain| - 1];
            s.RemoveCanonicalBlock(b) == Ok(s.(heights := HeightsOf(shorter), transactions := LocationsOf(shorter)))
  {
    hide WellFormed, GenesisOk, ApplyBlocks, TablesSound, UndosMatch, Holds, LocationsOf;
    DropTipLocations(s, chain);
    DropTipHeight(chain);
    assert Tip(chain).header.height == |chain| - 1;
  }

  lemma DropTipHeight(chain: seq<Block>)
    requires chain != []
    ensures HeightsOf(chain) - {|chain| - 1} == HeightsOf(chain[..|chain| - 1])
  {}

  lemma RewindTipUtxos(s: Snapshot, chain: seq<Block>)
    requires Canonical(s, chain) && |chain| >= 2
    ensures var shorter := chain[..|chain| - 1];
            && Replay(shorter).Ok? && Tip(chain).Hash() in s.undos
            && RewindBlock(s.utxos, s.undos[Tip(chain).Hash()]) == Ok(Replay(shorter).value.utxos)
  {
    ReplayPrefix(chain);
    TipOverwritesNothing(chain);
    RewindRestoresIff(Replay(chain[..|chain| - 1]).value.utxos, Tip(chain).txs);
  }

  lemma ParentState(s: Snapshot, chain: seq<Block>)
    requires Canonical(s, chain) && |chain| >= 2
    ensures var b, parent := Tip(chain), chain[|chain| - 2];
            && b.header.height == |chain| - 1
            && b.header.previousBlockHash == parent.Hash() && parent.Hash() in s.blocks
            && StateMatches(ChainState((b.header.height - 1, parent.Hash()), s.blocks[parent.Hash()].header.timestamp,
                                       b.header.height, s.indexes[parent.Hash()].chainWork), chain[..|chain| - 1])
  {
    hide WellFormed, GenesisOk, Replay, LocationsOf, UndosMatch, WorkBelow;
    LinkedPrefix(chain, |chain| - 1);
    ChainWorkBelow(chain[..|chain| - 1]);
  }

  // ---------------------------------------------------------------- the first block

  lemma GenesisUtxos(g: Block)
    requires GenesisOk(g)
    ensures NetBlock(g.txs) == NetEffect(Outputs(g.txs[0]), [])
    ensures ApplyBlock(map[], g.txs) == Ok(Applied(Outputs(g.txs[0]), BlockUndo(map[], Outputs(g.txs[0]).Keys)))
  {
    hide AllocationsOk, Outputs;
    var txs := g.txs;
    assert txs[..0] == [] && NetBlock([]) == NetEffect(map[], []);
    assert NetBlock(txs) == NetTx(NetBlock(txs[..0]), txs[0]);
    assert Restrict(map[], {}) == map[];
  }

  lemma GenesisLinked(g: Block)
    requires GenesisOk(g)
    ensures Linked([g])
  {
    hide AllocationsOk;
    assert [g][..0] == [];
    assert AllTxs([g]) == [] + g.txs;
  }

  /** A valid genesis initializes an empty store to the one-block chain. */
  lemma GenesisIsCanonical(g: Block, m: ChainMetadata)
    ensures GenesisSpec(EMPTY_SNAPSHOT, g, m).Ok? <==> GenesisOk(g)
    ensures GenesisOk(g) ==> Canonical(GenesisSpec(EMPTY_SNAPSHOT, g, m).value.store, [g])
  {
    hide AllocationsOk, Outputs, NetBlock, Locations;
    if GenesisOk(g) {
      GenesisUtxos(g);
      GenesisLinked(g);
      hide Linked;
      var chain, s := [g], GenesisSpec(EMPTY_SNAPSHOT, g, m).value.store;
      assert chain[..0] == [];
      assert Replay([]) == Ok(Branch(map[], []));
      assert Replay(chain) == Ok(Branch(Outputs(g.txs[0]), [] + [BlockUndo(map[], Outputs(g.txs[0]).Keys)]));
      assert s.heights == HeightsOf(chain) && s.transactions == LocationsOf(chain);
      assert ChainWork(chain) == ChainWork([]) + g.Work();
    }
  }

  /** Initializing again with the same block and parameters accepts and writes nothing;
      anything else is refused. */
  lemma GenesisRepeats(s: Snapshot, chain: seq<Block>, g: Block, m: ChainMetadata)
    requires Canonical(s, chain)
    ensures var same := g == chain[0] && s.metadata.value.schemaVersion == m.schemaVersion
                        && s.metadata.value.chainName == m.chainName
                        && s.metadata.value.protocolVersion == m.protocolVersion;
            if same then GenesisSpec(s, g, m) == Ok(Staged(s, s.state.value, []))
            else GenesisSpec(s, g, m) == Err(InvalidTransition)
  {
    hide WellFormed, LocationsOf, Replay, UndosMatch, TablesSound, VerifyCurrentState, AllocationsOk;
    ChainedVerifies(s, chain);
    assert s.BlockByHeight(0) == Ok(Some(chain[0])) by {
      assert s.heights[0] == chain[0].Hash();
    }
  }
}
