/** A prepared reorganization leaves exactly what rewinding and replaying would. */
module Reorg {
  import opened Primitives
  import opened ChainTypes
  import opened UtxoProcessor
  import opened BlockRules
  import opened Ledger
  import opened Storage
  import opened Transition
  import opened CanonicalChain

  function Pos(b: Block): ChainPos { (b.header.height, b.Hash()) }

  /** Positions j, j-1, ..., k+1: the canonical suffix above k, tip first. */
  function Suffix(chain: seq<Block>, j: nat, k: nat): seq<ChainPos>
    requires k <= j < |chain|
  {
    if j == k then [] else [Pos(chain[j])] + Suffix(chain, j - 1, k)
  }

  lemma {:induction false} SuffixAt(chain: seq<Block>, top: nat, k: nat, i: nat)
    requires k <= top < |chain| && i < top - k
    ensures |Suffix(chain, top, k)| == top - k && Suffix(chain, top, k)[i] == Pos(chain[top - i])
    decreases top
  {
    SuffixLength(chain, top, k);
    if i > 0 { SuffixAt(chain, top - 1, k, i - 1); }
  }

  lemma {:induction false} SuffixLength(chain: seq<Block>, top: nat, k: nat)
    requires k <= top < |chain|
    ensures |Suffix(chain, top, k)| == top - k
    decreases top
  {
    if k < top { SuffixLength(chain, top - 1, k); }
  }

  /** The positions of the canonical blocks above k, tip first. */
  predicate TipFirst(chain: seq<Block>, k: nat, detached: seq<ChainPos>)
    requires k < |chain|
  {
    && |detached| == |chain| - 1 - k
    && forall i :: 0 <= i < |detached| ==>
         detached[i] == (chain[|chain| - 1 - i].header.height, chain[|chain| - 1 - i].Hash())
  }

  lemma {:induction false} SuffixTipFirst(chain: seq<Block>, k: nat)
    requires k < |chain|
    ensures TipFirst(chain, k, Suffix(chain, |chain| - 1, k))
  {
    hide Suffix;
    SuffixLength(chain, |chain| - 1, k);
    var s := Suffix(chain, |chain| - 1, k);
    forall i | 0 <= i < |s|
      ensures s[i] == (chain[|chain| - 1 - i].header.height, chain[|chain| - 1 - i].Hash())
    {
      SuffixAt(chain, |chain| - 1, k, i);
    }
  }

  // ---------------------------------------------------------------- the naive reference

  /** Undo the n topmost canonical blocks one at a time. */
  function RewindTips(s: Snapshot, n: nat): Result<Snapshot, StorageError>
    decreases n
  {
    if n == 0 then Ok(s)
    else
      var s' :- RewindTip(s);
      RewindTips(s', n - 1)
  }

  /** Append blocks one at a time, running every transaction. */
  ghost function AppendAll(s: Snapshot, blocks: seq<Block>): Result<Snapshot, StorageError>
    decreases |blocks|
  {
    if blocks == [] then Ok(s)
    else
      var staged :- AppendSpec(s, blocks[0]);
      AppendAll(staged.store, blocks[1..])
  }

  ghost function RewindAndReplay(s: Snapshot, detached: nat, blocks: seq<Block>): Result<Snapshot, StorageError>
  {
    var s' :- RewindTips(s, detached);
    AppendAll(s', blocks)
  }

  // ---------------------------------------------------------------- detaching

  lemma ReplayOfPrefix(chain: seq<Block>, n: nat)
    requires n <= |chain| && Replay(chain).Ok?
    ensures Replay(chain[..n]).Ok?
  {
    assert chain[..n] + chain[n..] == chain;
    ApplyBlocksSplit(map[], chain[..n], chain[n..]);
  }

  /** One step of the detach loop removes exactly the tip's height and locators. */
  lemma DetachStep(s: Snapshot, chain: seq<Block>, j: nat)
    requires Linked(chain) && Replay(chain).Ok? && 1 <= j < |chain|
    requires s.heights == HeightsOf(chain[..j + 1]) && s.transactions == LocationsOf(chain[..j + 1])
    ensures s.RemoveCanonicalBlock(chain[j]) ==
            Ok(s.(heights := HeightsOf(chain[..j]), transactions := LocationsOf(chain[..j])))
    ensures j in s.heights && s.heights[j] == chain[j].Hash()
  {
    hide WellFormed, GenesisOk, LocationsOf, Replay, UniqueIds, AllTxs, Snapshot.OwnedIds;
    var upto := chain[..j + 1];
    assert upto[..|upto| - 1] == chain[..j] && Tip(upto) == chain[j] && |upto| - 1 == j;
    LinkedPrefix(chain, j + 1);
    DropTipLocations(s, upto);
    DropTipHeight(upto);
    assert chain[j].header.height == j;
  }

  lemma Held(blocks: BlockTable, chain: seq<Block>, i: nat)
    requires Holds(blocks, chain) && i < |chain|
    ensures chain[i].Hash() in blocks && blocks[chain[i].Hash()] == chain[i]
  {}

  lemma {:induction false} DetachUnfolds(s: Snapshot, b: Block, s': Snapshot, ancestor: u64, lca: BlockHash,
                                         done: seq<ChainPos>)
    requires b.Hash() != lca && ancestor < b.header.height
    requires b.Hash() in s.blocks && s.blocks[b.Hash()] == b
    requires b.header.height in s.heights && s.heights[b.header.height] == b.Hash()
    requires s.RemoveCanonicalBlock(b) == Ok(s')
    ensures DetachSpec(s, Pos(b), ancestor, lca, done) ==
            DetachSpec(s', (b.header.height - 1, b.header.previousBlockHash), ancestor, lca, done + [Pos(b)])
  {
    hide Snapshot.RemoveCanonicalBlock;
  }

  lemma {:induction false} DetachCanonical(s: Snapshot, chain: seq<Block>, j: nat, k: nat, done: seq<ChainPos>)
    requires Linked(chain) && Replay(chain).Ok? && Holds(s.blocks, chain) && k <= j < |chain|
    requires s.heights == HeightsOf(chain[..j + 1]) && s.transactions == LocationsOf(chain[..j + 1])
    ensures DetachSpec(s, Pos(chain[j]), chain[k].header.height, chain[k].Hash(), done) ==
            Ok((s.(heights := HeightsOf(chain[..k + 1]), transactions := LocationsOf(chain[..k + 1])),
                Pos(chain[k]), done + Suffix(chain, j, k)))
    decreases j
  {
    hide WellFormed, GenesisOk, LocationsOf, HeightsOf, Holds, Snapshot.RemoveCanonicalBlock, Replay;
    assert chain[j].header.height == j && chain[k].header.height == k;
    if j == k {
      assert done + Suffix(chain, j, k) == done;
    } else {
      hide DetachSpec;
      HashesDistinct(chain, k, j);
      DetachStep(s, chain, j);
      Held(s.blocks, chain, j);
      var s' := s.(heights := HeightsOf(chain[..j]), transactions := LocationsOf(chain[..j]));
      DetachUnfolds(s, chain[j], s', chain[k].header.height, chain[k].Hash(), done);
      assert Pos(chain[j - 1]) == (j - 1, chain[j].header.previousBlockHash);
      DetachCanonical(s', chain, j - 1, k, done + [Pos(chain[j])]);
      assert done + [Pos(chain[j])] + Suffix(chain, j - 1, k) == done + Suffix(chain, j, k);
    }
  }

  lemma {:induction false} RewindTipsCanonical(s: Snapshot, chain: seq<Block>, n: nat)
    requires Canonical(s, chain) && n < |chain|
    ensures RewindTips(s, n).Ok?
    ensures var s' := RewindTips(s, n).value;
            && Canonical(s', chain[..|chain| - n])
            && s'.blocks == s.blocks && s'.indexes == s.indexes && s'.undos == s.undos && s'.metadata == s.metadata
    decreases n
  {
    hide Canonical, RewindTip;
    if n == 0 {
      assert chain[..|chain|] == chain;
    } else {
      RewindTipKeepsCanonical(s, chain);
      var shorter := chain[..|chain| - 1];
      RewindTipsCanonical(RewindTip(s).value, shorter, n - 1);
      assert shorter[..|shorter| - (n - 1)] == chain[..|chain| - n];
    }
  }

  // ---------------------------------------------------------------- attaching

  /** The prepared list carries the blocks with the undo records of their replay. */
  predicate Prepared(prepared: seq<(Block, BlockUndo)>, blocks: seq<Block>, undos: seq<BlockUndo>)
  {
    && |prepared| == |blocks| == |undos|
    && forall i :: 0 <= i < |blocks| ==> prepared[i] == (blocks[i], undos[i])
  }

  ghost predicate AllWellFormed(blocks: seq<Block>) { forall b :: b in blocks ==> WellFormed(b) }

  /** The transaction ids of the branch are new to the chain below it and to each other. */
  ghost predicate NewIdsOnBranch(chain: seq<Block>, blocks: seq<Block>) { UniqueIds(AllTxs(chain + blocks)) }

  lemma LinkedNewIds(chain: seq<Block>, blocks: seq<Block>)
    requires Linked(chain + blocks)
    ensures NewIdsOnBranch(chain, blocks)
  {}

  /** The reorganization's view: every table but the UTXO set and the state row agrees. */
  predicate SameTables(s: Snapshot, t: Snapshot) { t == s.(utxos := t.utxos, state := t.state) }

  predicate AtTip(st: ChainState, chain: seq<Block>)
    requires chain != []
  {
    st.latestBlock.0 == |chain| - 1 && st.latestBlock.1 == Tip(chain).Hash() && st.chainWork == ChainWork(chain)
  }

  lemma StateAtTip(s: Snapshot, chain: seq<Block>)
    requires Chained(s, chain)
    ensures chain != [] && s.state.Some? && AtTip(s.state.value, chain)
  {}

  /** Only the position and the work of a state matter to what extends it. */
  lemma ExtendedStateLocal(st: ChainState, st': ChainState, chain: seq<Block>, b: Block)
    requires chain != [] && AtTip(st, chain) && AtTip(st', chain)
    ensures ExtendedState(st, b) == ExtendedState(st', b)
  {}

  /** One prepared block, against the same block appended. */
  lemma PreparedStep(s: Snapshot, chain: seq<Block>, t: Snapshot, st: ChainState, b: Block)
    returns (s': Snapshot, t': Snapshot, next: ChainState)
    requires Chained(s, chain) && WellFormed(b) && SameTables(s, t) && AtTip(st, chain)
    requires ApplyBlock(s.utxos, b.txs).Ok?
    ensures ExtendedState(st, b).Ok? <==> AppendSpec(s, b).Ok?
    ensures AppendSpec(s, b).Ok? ==>
              && AppendSpec(s, b).value.store == s' && ExtendedState(st, b) == Ok(next)
              && t' == Written(t, b, ApplyBlock(s.utxos, b.txs).value.undo, next)
              && Chained(s', chain + [b]) && s'.utxos == ApplyBlock(s.utxos, b.txs).value.utxos
              && Retains(s, s') && SameTables(s', t') && AtTip(next, chain + [b]) && s'.state == Some(next)
              && t'.utxos == t.utxos && t'.state == t.state
  {
    hide Chained, WellFormed, ApplyBlock, Retains, AppendSpec, ExtendedState, StateMatches, CanAppend, AtTip,
         ChainWork, TablesSound, Locations, FirstLocations;
    var a, st' := AppendResult(s, chain, b);
    StateAtTip(s, chain);
    ExtendedStateLocal(st, s.state.value, chain, b);
    s', t', next := Appended(s, b, a, st'), Written(t, b, a.undo, st'), st';
    if AppendSpec(s, b).Ok? {
      AppendKeepsChained(s, chain, b);
      StateAtTip(s', chain + [b]);
    }
  }

  /** One iteration of the attach loop of a reorganization. */
  function Written(t: Snapshot, b: Block, undo: BlockUndo, next: ChainState): Snapshot
  {
    var put := t.PutBlock(b, BlockIndexOf(b, next.chainWork));
    put.(undos := put.undos[b.Hash() := undo])
  }

  lemma {:induction false} AttachUnfolds(t: Snapshot, st: ChainState, prepared: seq<(Block, BlockUndo)>)
    requires prepared != []
    ensures var (b, undo) := prepared[0];
            match ExtendedState(st, b)
            case Err(_) => AttachPreparedSpec(t, st, prepared).Err?
            case Ok(next) => AttachPreparedSpec(t, st, prepared) ==
                             AttachPreparedSpec(Written(t, b, undo, next), next, prepared[1..])
  {}

  /** Writing the prepared blocks agrees with appending them, block by block. */
  lemma {:induction false} PreparedEqualsAppended(s: Snapshot, chain: seq<Block>, t: Snapshot, st: ChainState,
                                                  prepared: seq<(Block, BlockUndo)>, blocks: seq<Block>)
    requires Chained(s, chain) && AllWellFormed(blocks)
    requires SameTables(s, t) && AtTip(st, chain)
    requires ApplyBlocks(s.utxos, blocks).Ok? && Prepared(prepared, blocks, ApplyBlocks(s.utxos, blocks).value.undos)
    ensures AttachPreparedSpec(t, st, prepared).Ok? <==> AppendAll(s, blocks).Ok?
    ensures AppendAll(s, blocks).Ok? ==>
              AttachAgrees(s, chain, t, blocks, AppendAll(s, blocks).value, AttachPreparedSpec(t, st, prepared).value)
    decreases |blocks|
  {
    hide Chained, WellFormed, AppendSpec, ApplyBlock, AtTip, ExtendedState, ApplyBlocks, AttachPreparedSpec, Written,
      SameTables, Retains;
    if blocks == [] {
      assert chain + blocks == chain;
      RetainsTwice(s, s, s);
      EmptyBranch(s.utxos);
      NothingPrepared(t, st);
    } else {
      var b, rest := blocks[0], blocks[1..];
      assert b in blocks && forall x :: x in rest ==> x in blocks;
      FirstOfBranch(s.utxos, blocks);
      AttachUnfolds(t, st, prepared);
      var s1, t1, next := PreparedStep(s, chain, t, st, b);
      if AppendSpec(s, b).Ok? {
        PreparedEqualsAppended(s1, chain + [b], t1, next, prepared[1..], rest);
        assert chain + [b] + rest == chain + blocks;
        if rest == [] { NothingPrepared(t1, next); }
        if AppendAll(s, blocks).Ok? { RetainsTwice(s, s1, AppendAll(s, blocks).value); }
      }
    }
  }

  lemma RetainsTwice(a: Snapshot, b: Snapshot, c: Snapshot)
    ensures Retains(a, b) && Retains(b, c) ==> Retains(a, c)
    ensures Retains(a, a)
  {}

  /** The appended store s' and the attached pair at', next to where they started. */
  ghost predicate AttachAgrees(s: Snapshot, chain: seq<Block>, t: Snapshot, blocks: seq<Block>,
                               s': Snapshot, at': (Snapshot, ChainState))
  {
    && Chained(s', chain + blocks)
    && ApplyBlocks(s.utxos, blocks).Ok? && s'.utxos == ApplyBlocks(s.utxos, blocks).value.utxos
    && Retains(s, s')
    && SameTables(s', at'.0) && at'.0.utxos == t.utxos && at'.0.state == t.state
    && (blocks != [] ==> s'.state == Some(at'.1))
  }

  lemma {:induction false} AttachError(t: Snapshot, st: ChainState, prepared: seq<(Block, BlockUndo)>)
    ensures AttachPreparedSpec(t, st, prepared).Err? ==> AttachPreparedSpec(t, st, prepared).error == InvalidTransition
    decreases |prepared|
  {
    if prepared != [] {
      var (b, undo) := prepared[0];
      if ExtendedState(st, b).Ok? {
        AttachError(Written(t, b, undo, ExtendedState(st, b).value), ExtendedState(st, b).value, prepared[1..]);
      }
    }
  }

  lemma {:induction false} EmptyBranch(m: UtxoSet)
    ensures ApplyBlocks(m, []) == Ok(Branch(m, []))
  {}

  lemma {:induction false} NothingPrepared(t: Snapshot, st: ChainState)
    ensures AttachPreparedSpec(t, st, []) == Ok((t, st))
  {}

  lemma {:induction false} FirstOfBranch(m: UtxoSet, blocks: seq<Block>)
    requires blocks != [] && ApplyBlocks(m, blocks).Ok?
    ensures ApplyBlock(m, blocks[0].txs).Ok?
    ensures var a, all := ApplyBlock(m, blocks[0].txs).value, ApplyBlocks(m, blocks).value;
            && ApplyBlocks(a.utxos, blocks[1..]).Ok?
            && all.undos == [a.undo] + ApplyBlocks(a.utxos, blocks[1..]).value.undos
            && all.utxos == ApplyBlocks(a.utxos, blocks[1..]).value.utxos
  {
    hide ApplyBlock;
    var first := [blocks[0]];
    assert first + blocks[1..] == blocks;
    ApplyBlocksSplit(m, first, blocks[1..]);
    assert first[..0] == [];
    assert ApplyBlocks(m, []) == Ok(Branch(m, []));
  }

  // ---------------------------------------------------------------- the theorem

  /** What an overlay opened at chain[k] and replayed with the blocks hands over. */
  ghost predicate PreparedAt(s: Snapshot, chain: seq<Block>, k: nat, blocks: seq<Block>, delta: ForkDbDelta)
    requires k < |chain|
  {
    var m := Replay(chain[..k + 1]);
    && s.state.Some? && delta.expectedHead == s.state.value.latestBlock
    && delta.commonAncestor == chain[k].Hash()
    && delta.detached == Suffix(chain, |chain| - 1, k)
    && delta.removedUtxos <= s.utxos.Keys
    && m.Ok? && ApplyBlocks(m.value.utxos, blocks).Ok?
    && Prepared(delta.blocks, blocks, ApplyBlocks(m.value.utxos, blocks).value.undos)
    && s.utxos - delta.removedUtxos + delta.utxos == ApplyBlocks(m.value.utxos, blocks).value.utxos
  }

  lemma AncestorFound(s: Snapshot, chain: seq<Block>, k: nat)
    requires Canonical(s, chain) && k < |chain|
    ensures CanonicalAncestor(s, chain[k].Hash()).Ok?
    ensures var (b, index) := CanonicalAncestor(s, chain[k].Hash()).value;
            b == chain[k] && b.header.height == k && index.chainWork == ChainWork(chain[..k + 1])
  {
    hide WellFormed, GenesisOk, LocationsOf, Replay, UndosMatch, UniqueIds, AllTxs, ChainWork;
    WorkAt(chain, k);
    assert s.heights[k] == chain[k].Hash();
  }

  lemma WorkAt(chain: seq<Block>, k: nat)
    requires Linked(chain) && k < |chain|
    ensures ChainWork(chain[..k + 1]) == WorkBelow(chain[k].Hash())
  {
    hide Linked, Joined, UniqueIds, AllTxs;
    LinkedJoined(chain);
    JoinedPrefix(chain, k + 1);
    ChainWorkBelow(chain[..k + 1]);
  }

  /** The two outcomes agree: same success, equal snapshots, which describe the branch, and are
      canonical exactly when the branch repeats no transaction id. */
  ghost predicate SameOutcome(s: Snapshot, chain: seq<Block>, k: nat, blocks: seq<Block>,
                              detached: seq<ChainPos>, fast: Result<Staged, StorageError>,
                              naive: Result<Snapshot, StorageError>)
    requires k < |chain|
  {
    && (fast.Ok? <==> naive.Ok?)
    && (fast.Err? ==> fast.error == InvalidTransition)
    && (naive.Ok? ==>
          && fast.value.store == naive.value
          && naive.value.state == Some(fast.value.state)
          && fast.value.detached == detached
          && Chained(naive.value, chain[..k + 1] + blocks)
          && (Canonical(naive.value, chain[..k + 1] + blocks) <==> NewIdsOnBranch(chain[..k + 1], blocks))
          && Retains(s, naive.value))
  }

  /** The committed result of a prepared reorganization is the result of rewinding the
      detached blocks tip first and appending the fork blocks one at a time: it succeeds
      exactly when that does, and the whole snapshots are equal. */
  lemma {:induction false} ReorganizeIsRewindAndReplay(s: Snapshot, chain: seq<Block>, k: nat, blocks: seq<Block>,
                                                       delta: ForkDbDelta)
    requires Canonical(s, chain) && k < |chain| && blocks != [] && AllWellFormed(blocks)
    requires PreparedAt(s, chain, k, blocks, delta)
    ensures SameOutcome(s, chain, k, blocks, Suffix(chain, |chain| - 1, k), ReorganizeSpec(s, delta),
                        RewindAndReplay(s, |chain| - 1 - k, blocks))
  {
    hide Canonical, Chained, WellFormed, AllWellFormed, ApplyBlocks, Suffix, VerifyCurrentState, CanonicalAncestor,
         DetachSpec, AttachPreparedSpec, AppendAll, RewindTips, HeightsOf, LocationsOf, AtTip, Prepared,
         ReorganizeSpec, UniqueIds, AllTxs;
    var kept := chain[..k + 1];
    RewindTipsCanonical(s, chain, |chain| - 1 - k);
    var s1 := RewindTips(s, |chain| - 1 - k).value;
    assert chain[..|chain| - (|chain| - 1 - k)] == kept;
    CanonicalFacts(s1, kept);
    ChainedIsCanonical(s1, kept);
    PreparedLength(delta.blocks, blocks, ApplyBlocks(s1.utxos, blocks).value.undos);
    var t, st := ReorganizeUpToAttach(s, chain, k, delta);
    AttachError(t, st, delta.blocks);
    PreparedEqualsAppended(s1, kept, t, st, delta.blocks, blocks);
    assert RewindAndReplay(s, |chain| - 1 - k, blocks) == AppendAll(s1, blocks);
    if AppendAll(s1, blocks).Ok? { ChainedIsCanonical(AppendAll(s1, blocks).value, kept + blocks); }
  }

  lemma PreparedLength(prepared: seq<(Block, BlockUndo)>, blocks: seq<Block>, undos: seq<BlockUndo>)
    requires Prepared(prepared, blocks, undos)
    ensures |prepared| == |blocks|
  {}

  /** The checks pass, and what is attached to is the rewound canonical chain. */
  lemma ReorganizeUpToAttach(s: Snapshot, chain: seq<Block>, k: nat, delta: ForkDbDelta)
    returns (t: Snapshot, st: ChainState)
    requires Canonical(s, chain) && k < |chain|
    requires s.state.Some? && delta.expectedHead == s.state.value.latestBlock
    requires delta.commonAncestor == chain[k].Hash() && delta.detached == Suffix(chain, |chain| - 1, k)
    requires delta.removedUtxos <= s.utxos.Keys && delta.blocks != []
    ensures AtTip(st, chain[..k + 1])
    ensures t == s.(heights := HeightsOf(chain[..k + 1]), transactions := LocationsOf(chain[..k + 1]),
                    utxos := s.utxos - delta.removedUtxos + delta.utxos)
    ensures match AttachPreparedSpec(t, st, delta.blocks)
            case Ok((t', st')) => ReorganizeSpec(s, delta) == Ok(Staged(t'.(state := Some(st')), st', delta.detached))
            case Err(e) => ReorganizeSpec(s, delta) == Err(e)
  {
    hide WellFormed, GenesisOk, Canonical, Chained, Suffix, VerifyCurrentState, CanonicalAncestor, DetachSpec,
      AttachPreparedSpec, HeightsOf, LocationsOf, UniqueIds, AllTxs;
    ChainedIsCanonical(s, chain);
    ChainedVerifies(s, chain);
    AncestorFound(s, chain, k);
    DetachFromTip(s, chain, k);
    var index := CanonicalAncestor(s, chain[k].Hash()).value.1;
    var cut := s.(heights := HeightsOf(chain[..k + 1]), transactions := LocationsOf(chain[..k + 1]));
    t := cut.(utxos := cut.utxos - delta.removedUtxos + delta.utxos);
    st := s.state.value.(latestBlock := Pos(chain[k]), chainWork := index.chainWork);
  }

  lemma {:induction false} ChainedFacts(s: Snapshot, chain: seq<Block>)
    requires Chained(s, chain)
    ensures s.heights == HeightsOf(chain) && s.transactions == LocationsOf(chain)
    ensures Replay(chain).Ok? && s.utxos == Replay(chain).value.utxos
  {}

  lemma {:induction false} CanonicalFacts(s: Snapshot, chain: seq<Block>)
    requires Canonical(s, chain)
    ensures s.heights == HeightsOf(chain) && s.transactions == LocationsOf(chain)
    ensures Replay(chain).Ok? && s.utxos == Replay(chain).value.utxos
  {}

  lemma {:induction false} DetachFromTip(s: Snapshot, chain: seq<Block>, k: nat)
    requires Canonical(s, chain) && k < |chain|
    ensures DetachSpec(s, s.state.value.latestBlock, chain[k].header.height, chain[k].Hash(), []) ==
            Ok((s.(heights := HeightsOf(chain[..k + 1]), transactions := LocationsOf(chain[..k + 1])),
                Pos(chain[k]), Suffix(chain, |chain| - 1, k)))
  {
    hide WellFormed, GenesisOk, LocationsOf, HeightsOf, UndosMatch, TablesSound, DetachSpec;
    assert chain[..|chain| - 1 + 1] == chain;
    assert s.state.value.latestBlock == Pos(Tip(chain));
    DetachCanonical(s, chain, |chain| - 1, k, []);
    assert [] + Suffix(chain, |chain| - 1, k) == Suffix(chain, |chain| - 1, k);
  }
}
