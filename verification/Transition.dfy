/** Atomic chain transitions: genesis, append, reorganize. */
module Transition {
  import opened Primitives
  import opened ChainTypes
  import Processor = UtxoProcessor
  import opened BlockRules
  import opened Storage

  type ChainPos = (u64, BlockHash)

  /** A reorganization prepared off to the side, relative to the canonical tip. */
  datatype ForkDbDelta = ForkDbDelta(
    expectedHead: ChainPos,
    commonAncestor: BlockHash,
    detached: seq<ChainPos>,
    blocks: seq<(Block, BlockUndo)>,
    utxos: Processor.UtxoSet,
    removedUtxos: set<OutPoint>)

  datatype ChainTransition =
    | Genesis(block: Block, metadata: ChainMetadata)
    | Append(block: Block)
    | Reorganize(delta: ForkDbDelta)

  datatype ChainTransitionResult = ChainTransitionResult(
    newHead: ChainPos, chainWork: u512, detached: seq<ChainPos>)

  /** The staged tables together with the state they were given. */
  datatype Staged = Staged(store: Snapshot, state: ChainState, detached: seq<ChainPos>)

  // ---------------------------------------------------------------- read-only checks

  function VerifyCurrentState(s: Snapshot, st: ChainState): Result<(), StorageError>
  {
    var (height, hash) := st.latestBlock;
    if s.metadata == None || hash !in s.blocks || height !in s.heights || hash !in s.indexes
    then Err(Corruption)
    else
      var header, index := s.blocks[hash].header, s.indexes[hash];
      if header.height != height || s.heights[height] != hash || index.height != height
         || index.parentHash != header.previousBlockHash || index.chainWork != st.chainWork
         || NextU64(height) != Some(st.blocksCount)
      then Err(Corruption)
      else Ok(())
  }

  function CanonicalAncestor(s: Snapshot, lca: BlockHash): Result<(Block, BlockIndexData), StorageError>
  {
    if lca !in s.blocks then Err(BlockNotFound)
    else
      var ancestor := s.blocks[lca];
      if ancestor.header.height !in s.heights then Err(Corruption)
      else
        var canonical := s.heights[ancestor.header.height];
        if ancestor.Hash() != lca then Err(Corruption)
        else if canonical != lca then
          if canonical !in s.blocks || s.blocks[canonical].header.height != ancestor.header.height
          then Err(Corruption) else Err(InvalidTransition)
        else if lca !in s.indexes then Err(Corruption)
        else
          var index := s.indexes[lca];
          if index.height != ancestor.header.height || index.parentHash != ancestor.header.previousBlockHash
          then Err(Corruption)
          else Ok((ancestor, index))
  }

  /** The state after b, provided b extends st. */
  function ExtendedState(st: ChainState, b: Block): Result<ChainState, StorageError>
  {
    if !b.header.WorkShapeOk() then Err(InvalidTransition)
    else if b.header.IsGenesis() || b.header.hashThreshold == 0
            || b.header.previousBlockHash != st.latestBlock.1
            || NextU64(st.latestBlock.0) != Some(b.header.height)
    then Err(InvalidTransition)
    else
      match AddWork(st.chainWork, b.Work())
      case Err(_) => Err(InvalidTransition)
      case Ok(work) =>
        match NextU64(b.header.height)
        case None => Err(InvalidTransition)
        case Some(count) => Ok(ChainState((b.header.height, b.Hash()), b.header.timestamp, count, work))
  }

  // ---------------------------------------------------------------- specifications

  /** Repeated initialization: same block and parameters, nothing written. */
  function RepeatGenesisSpec(s: Snapshot, st: ChainState, b: Block, m: ChainMetadata): Result<(), StorageError>
  {
    var saved :- s.BlockByHeight(0);
    if saved == None || s.metadata == None then Err(Corruption)
    else
      var sm := s.metadata.value;
      if saved.value != b || sm.schemaVersion != m.schemaVersion || sm.chainName != m.chainName
         || sm.protocolVersion != m.protocolVersion
      then Err(InvalidTransition)
      else VerifyCurrentState(s, st)
  }

  function FirstState(b: Block): ChainState { ChainState((0, b.Hash()), b.header.timestamp, 1, 0) }

  ghost function FirstGenesisSpec(s: Snapshot, b: Block, m: ChainMetadata): Result<Snapshot, StorageError>
  {
    if s.metadata != None then Err(Corruption)
    else
      var saved :- s.BlockByHeight(0);
      if saved != None then Err(Corruption)
      else
        var a :- Processor.ApplyBlock(s.utxos, b.txs);
        Ok(s.PutBlock(b, BlockIndexOf(b, 0)).(utxos := a.utxos, metadata := Some(m), state := Some(FirstState(b))))
  }

  ghost function GenesisSpec(s: Snapshot, b: Block, m: ChainMetadata): Result<Staged, StorageError>
  {
    if !GenesisOk(b) then Err(InvalidTransition)
    else if s.state.Some? then
      var _ :- RepeatGenesisSpec(s, s.state.value, b, m);
      Ok(Staged(s, s.state.value, []))
    else
      var store :- FirstGenesisSpec(s, b, m);
      Ok(Staged(store, FirstState(b), []))
  }

  ghost function AttachSpec(s: Snapshot, st: ChainState, b: Block): Result<(Snapshot, ChainState), StorageError>
  {
    var next :- ExtendedState(st, b);
    var a :- Processor.ApplyBlock(s.utxos, b.txs);
    var put := s.(utxos := a.utxos).PutBlock(b, BlockIndexOf(b, next.chainWork));
    Ok((put.(undos := put.undos[b.Hash() := a.undo]), next))
  }

  ghost function AppendSpec(s: Snapshot, b: Block): Result<Staged, StorageError>
  {
    if s.state == None then Err(Uninitialized)
    else
      var _ :- VerifyCurrentState(s, s.state.value);
      var (put, next) :- AttachSpec(s, s.state.value, b);
      Ok(Staged(put.(state := Some(next)), next, []))
  }

  /** Walks the canonical suffix down to the ancestor, tip first. */
  function DetachSpec(s: Snapshot, at: ChainPos, ancestor: u64, lca: BlockHash, done: seq<ChainPos>)
    : (r: Result<(Snapshot, ChainPos, seq<ChainPos>), StorageError>)
    ensures r.Ok? ==> r.value.0.utxos == s.utxos
    decreases at.0
  {
    if at.1 == lca then Ok((s, at, done))
    else if at.0 <= ancestor then Err(InvalidTransition)
    else if at.1 !in s.blocks || at.0 !in s.heights then Err(Corruption)
    else
      var b := s.blocks[at.1];
      if b.Hash() != at.1 || b.header.height != at.0 || s.heights[at.0] != at.1 then Err(Corruption)
      else
        var s' := s.RemoveCanonicalBlock(b).value;
        DetachSpec(s', (at.0 - 1, b.header.previousBlockHash), ancestor, lca, done + [at])
  }

  /** Writes prepared blocks without running their transactions again. */
  function AttachPreparedSpec(s: Snapshot, st: ChainState, blocks: seq<(Block, BlockUndo)>)
    : Result<(Snapshot, ChainState), StorageError>
    decreases |blocks|
  {
    if blocks == [] then Ok((s, st))
    else
      var (b, undo) := blocks[0];
      var next :- ExtendedState(st, b);
      var put := s.PutBlock(b, BlockIndexOf(b, next.chainWork));
      AttachPreparedSpec(put.(undos := put.undos[b.Hash() := undo]), next, blocks[1..])
  }

  function ReorganizeSpec(s: Snapshot, delta: ForkDbDelta): Result<Staged, StorageError>
  {
    if s.state == None then Err(Uninitialized)
    else
      var st := s.state.value;
      var _ :- VerifyCurrentState(s, st);
      if st.latestBlock != delta.expectedHead then Err(InvalidTransition)
      else
        var (ancestor, index) :- CanonicalAncestor(s, delta.commonAncestor);
        var (s1, at, detached) :- DetachSpec(s, st.latestBlock, ancestor.header.height, delta.commonAncestor, []);
        if detached != delta.detached || delta.blocks == [] then Err(InvalidTransition)
        else if !(delta.removedUtxos <= s1.utxos.Keys) then Err(UtxoNotFound)
        else
          var s2 := s1.(utxos := s1.utxos - delta.removedUtxos + delta.utxos);
          var (s3, st') :- AttachPreparedSpec(s2, st.(latestBlock := at, chainWork := index.chainWork), delta.blocks);
          Ok(Staged(s3.(state := Some(st')), st', detached))
  }

  ghost function TransitionSpec(s: Snapshot, t: ChainTransition): Result<Staged, StorageError>
  {
    match t
    case Genesis(b, m) => GenesisSpec(s, b, m)
    case Append(b) => AppendSpec(s, b)
    case Reorganize(delta) => ReorganizeSpec(s, delta)
  }

  // ---------------------------------------------------------------- staging

  datatype StagedTransition = StagedTransition(state: ChainState, detached: seq<ChainPos>)

  /** What a staging method must do to a view, given the specification's outcome. */
  ghost predicate Realizes(view: MemoryView, spec: Result<Staged, StorageError>,
                              r: Result<StagedTransition, StorageError>)
    reads view
  {
    match spec
    case Ok(staged) => r == Ok(StagedTransition(staged.state, staged.detached)) && view.Snap() == staged.store
    case Err(e) => r == Err(e)
  }

  method StageGenesis(view: MemoryView, b: Block, m: ChainMetadata) returns (r: Result<StagedTransition, StorageError>)
    modifies view
    ensures Realizes(view, GenesisSpec(old(view.Snap()), b, m), r)
  {
    if !GenesisOk(b) { return Err(InvalidTransition); }
    if view.state.Some? {
      var _ :- RepeatGenesisSpec(view.Snap(), view.state.value, b, m);
      r := Ok(StagedTransition(view.state.value, []));
    } else {
      var st :- StageFirstGenesis(view, b, m);
      r := Ok(StagedTransition(st, []));
    }
  }

  method StageFirstGenesis(view: MemoryView, b: Block, m: ChainMetadata) returns (r: Result<ChainState, StorageError>)
    modifies view
    ensures match FirstGenesisSpec(old(view.Snap()), b, m)
            case Ok(s) => r == Ok(FirstState(b)) && view.Snap() == s
            case Err(e) => r == Err(e)
  {
    if view.metadata != None { return Err(Corruption); }
    var saved :- view.Snap().BlockByHeight(0);
    if saved != None { return Err(Corruption); }

    view.PutBlock(b, BlockIndexOf(b, 0));
    var _ :- view.ApplyBlock(b);
    view.PutMetadata(m);
    view.PutChainState(FirstState(b));
    r := Ok(FirstState(b));
  }

  method AttachBlock(view: MemoryView, st: ChainState, b: Block) returns (r: Result<ChainState, StorageError>)
    modifies view
    ensures match AttachSpec(old(view.Snap()), st, b)
            case Ok(p) => r == Ok(p.1) && view.Snap() == p.0
            case Err(e) => r == Err(e)
  {
    var next :- ExtendedState(st, b);
    var undo :- view.ApplyBlock(b);
    view.PutBlock(b, BlockIndexOf(b, next.chainWork));
    view.PutBlockUndo(b.Hash(), undo);
    r := Ok(next);
  }

  method StageAppend(view: MemoryView, b: Block) returns (r: Result<StagedTransition, StorageError>)
    modifies view
    ensures Realizes(view, AppendSpec(old(view.Snap()), b), r)
  {
    if view.state == None { return Err(Uninitialized); }
    var st := view.state.value;
    var _ :- VerifyCurrentState(view.Snap(), st);
    st :- AttachBlock(view, st, b);
    view.PutChainState(st);
    r := Ok(StagedTransition(st, []));
  }

  method DetachToAncestor(view: MemoryView, tip: ChainPos, ancestor: u64, lca: BlockHash)
    returns (r: Result<(ChainPos, seq<ChainPos>), StorageError>)
    modifies view
    ensures match DetachSpec(old(view.Snap()), tip, ancestor, lca, [])
            case Ok(p) => r == Ok((p.1, p.2)) && view.Snap() == p.0
            case Err(e) => r == Err(e)
  {
    var at: ChainPos := tip;
    var detached: seq<ChainPos> := [];
    while at.1 != lca
      invariant DetachSpec(old(view.Snap()), tip, ancestor, lca, [])
                == DetachSpec(view.Snap(), at, ancestor, lca, detached)
      decreases at.0
    {
      if at.0 <= ancestor { return Err(InvalidTransition); }
      if at.1 !in view.blocks || at.0 !in view.heights { return Err(Corruption); }
      var b := view.blocks[at.1];
      if b.Hash() != at.1 || b.header.height != at.0 || view.heights[at.0] != at.1 { return Err(Corruption); }
      var removed := view.RemoveCanonicalBlock(b);
      assert removed.Ok?;
      detached := detached + [at];
      at := (at.0 - 1, b.header.previousBlockHash);
    }
    r := Ok((at, detached));
  }

  method AttachPrepared(view: MemoryView, from: ChainState, blocks: seq<(Block, BlockUndo)>)
    returns (r: Result<ChainState, StorageError>)
    modifies view
    ensures match AttachPreparedSpec(old(view.Snap()), from, blocks)
            case Ok(p) => r == Ok(p.1) && view.Snap() == p.0
            case Err(e) => r == Err(e)
  {
    var st := from;
    for i := 0 to |blocks|
      invariant AttachPreparedSpec(old(view.Snap()), from, blocks) == AttachPreparedSpec(view.Snap(), st, blocks[i..])
    {
      var (b, undo) := blocks[i];
      assert blocks[i..][1..] == blocks[i + 1..];
      st :- ExtendedState(st, b);
      view.PutBlock(b, BlockIndexOf(b, st.chainWork));
      view.PutBlockUndo(b.Hash(), undo);
    }
    r := Ok(st);
  }

  method StageReorganization(view: MemoryView, delta: ForkDbDelta) returns (r: Result<StagedTransition, StorageError>)
    modifies view
    ensures Realizes(view, ReorganizeSpec(old(view.Snap()), delta), r)
  {
    hide VerifyCurrentState, CanonicalAncestor, DetachSpec, AttachPreparedSpec;
    if view.state == None { return Err(Uninitialized); }
    var st := view.state.value;
    var _ :- VerifyCurrentState(view.Snap(), st);
    if st.latestBlock != delta.expectedHead { return Err(InvalidTransition); }
    var found :- CanonicalAncestor(view.Snap(), delta.commonAncestor);
    var (ancestor, index) := found;
    var cut :- DetachToAncestor(view, st.latestBlock, ancestor.header.height, delta.commonAncestor);
    var (at, detached) := cut;
    if detached != delta.detached || delta.blocks == [] { return Err(InvalidTransition); }
    st := st.(latestBlock := at, chainWork := index.chainWork);
    var _ :- view.BatchRemoveUtxos(delta.removedUtxos);
    view.BatchPutUtxos(delta.utxos);
    st :- AttachPrepared(view, st, delta.blocks);
    view.PutChainState(st);
    r := Ok(StagedTransition(st, detached));
  }

  method StageTransition(view: MemoryView, t: ChainTransition) returns (r: Result<ChainTransitionResult, StorageError>)
    modifies view
    ensures match TransitionSpec(old(view.Snap()), t)
            case Ok(s) => view.Snap() == s.store && r == Ok(ResultOf(s))
            case Err(e) => r == Err(e)
  {
    var staged: StagedTransition;
    match t {
      case Genesis(b, m) => staged :- StageGenesis(view, b, m);
      case Append(b) => staged :- StageAppend(view, b);
      case Reorganize(delta) => staged :- StageReorganization(view, delta);
    }
    r := Ok(ChainTransitionResult(staged.state.latestBlock, staged.state.chainWork, staged.detached));
  }

  function ResultOf(s: Staged): ChainTransitionResult
  {
    ChainTransitionResult(s.state.latestBlock, s.state.chainWork, s.detached)
  }

  /** The store: a transition runs on a clone, which replaces the data only if it succeeds. */
  class InMemoryStorage {
    var data: Snapshot

    constructor ()
      ensures data == EMPTY_SNAPSHOT
    {
      data := EMPTY_SNAPSHOT;
    }

    method ApplyTransition(t: ChainTransition) returns (r: Result<ChainTransitionResult, StorageError>)
      modifies this
      ensures match TransitionSpec(old(data), t)
              case Ok(s) => data == s.store && r == Ok(ResultOf(s))
              case Err(e) => data == old(data) && r == Err(e)
    {
      var pending := new MemoryView(data);
      var result :- StageTransition(pending, t);
      data := pending.Snap();
      r := Ok(result);
    }
  }
}
