/** The consensus engine: every call refines one step of the fork-choice machine, and the
    committed tables and the in-memory index keep describing the same canonical chain. */
module Engine {
  import opened Primitives
  import opened ChainTypes
  import opened UtxoProcessor
  import opened BlockRules
  import opened Ledger
  import opened Storage
  import opened Transition
  import opened CanonicalChain
  import opened Overlay
  import opened Reorg
  import opened ChainIndex
  import opened ForkChoice
  import opened ForkPreparation

  class ForkRegistry {
    var inner: ForkTable

    constructor ()
      ensures inner == map[]
    {
      inner := map[];
    }

    method Insert(e: ForkEntry)
      modifies this
      ensures inner == old(inner)[e.tip := e]
    {
      inner := inner[e.tip := e];
    }

    method Remove(tip: BlockHash)
      modifies this
      ensures inner == old(inner) - {tip}
    {
      inner := inner - {tip};
    }
  }

  datatype KnownLocation = CanonicalChain | ForkTree

  datatype BlockDisposition =
    | Known(location: KnownLocation)
    | ExtendsCanonical
    | CreatesForkFromCanonical(lca: BlockHash)
    | ExtendsFork(parent: BlockHash, forkRoot: BlockHash)
    | Unconnected(parent: BlockHash)

  function Classify(index: IndexValue, forks: ForkTable, b: Block): BlockDisposition
  {
    var (hash, parent) := (b.Hash(), b.header.previousBlockHash);
    if hash in index.entries then Known(CanonicalChain)
    else if hash in forks || InForks(forks, hash) then Known(ForkTree)
    else if index.tip.Some? && parent == index.tip.value.hash then ExtendsCanonical
    else if parent in index.entries then CreatesForkFromCanonical(parent)
    else if parent in forks then ExtendsFork(parent, forks[parent].commonAncestor)
    else Unconnected(parent)
  }

  function ValidateHeight(index: IndexValue, forks: ForkTable, b: Block): bool
  {
    var parent := b.header.previousBlockHash;
    var height :=
      if parent in index.entries then Some(index.entries[parent].height)
      else if parent in forks && forks[parent].blocks != [] then Some(Tip(forks[parent].blocks).header.height)
      else None;
    height.Some? ==> NextU64(height.value) == Some(b.header.height)
  }

  // ---------------------------------------------------------------- routing agrees with the machine

  lemma IndexHeight(index: IndexValue, chain: seq<Block>, h: BlockHash)
    requires Mirrors(index, chain)
    ensures h in index.entries <==> HasBlock(chain, h)
    ensures HasBlock(chain, h) ==> index.entries[h].height == chain[IndexIn(chain, h)].header.height
    ensures HasBlock(chain, h) ==> index.entries[h].work == ChainWork(chain[..IndexIn(chain, h) + 1])
  {
    MirrorsLookup(index, chain, h);
    if HasBlock(chain, h) { IndexParent(index, chain, IndexIn(chain, h)); }
  }

  lemma HeightAgrees(rs: RefState, index: IndexValue, b: Block)
    requires RefOk(rs) && Mirrors(index, rs.chain)
    ensures ValidateHeight(index, rs.forks, b) <==> HeightFollows(rs, b)
  {
    hide RefOk, MirrorsEntries;
    IndexHeight(index, rs.chain, b.header.previousBlockHash);
  }

  /** The disposition the source computes, for a place of the machine. */
  ghost function DispositionOf(rs: RefState, b: Block, p: Place): BlockDisposition
    requires rs.chain != [] && p == PlaceOf(rs, b)
  {
    var parent := b.header.previousBlockHash;
    match p
    case InChain => Known(CanonicalChain)
    case InForkTree => Known(ForkTree)
    case Orphan => Unconnected(parent)
    case On(k, prior) =>
      if HasBlock(rs.chain, parent) then
        if k == |rs.chain| - 1 then ExtendsCanonical else CreatesForkFromCanonical(parent)
      else ExtendsFork(parent, rs.forks[parent].commonAncestor)
  }

  lemma ClassifyAgrees(rs: RefState, index: IndexValue, b: Block)
    requires RefOk(rs) && Mirrors(index, rs.chain)
    ensures Classify(index, rs.forks, b) == DispositionOf(rs, b, PlaceOf(rs, b))
  {
    hide RefOk, Linked, InForks, HasBlock, MirrorsEntries, ChainWork, IndexIn;
    RefFacts(rs);
    var (hash, parent) := (b.Hash(), b.header.previousBlockHash);
    MirrorsLookup(index, rs.chain, hash);
    MirrorsLookup(index, rs.chain, parent);
    IndexUnique(rs.chain, |rs.chain| - 1);
    if hash in rs.forks { ForkKeyInForks(rs, hash); }
  }

  lemma RefFacts(rs: RefState)
    requires RefOk(rs)
    ensures rs.chain != [] && Linked(rs.chain) && Replay(rs.chain).Ok?
  {}

  // ---------------------------------------------------------------- appending at the top of u64

  /** Appending a linked, replayable branch fails only for want of a height above the last u64. */
  lemma {:induction false} AppendAllOk(s: Snapshot, chain: seq<Block>, blocks: seq<Block>)
    requires Chained(s, chain) && Linked(chain + blocks) && Replay(chain + blocks).Ok? && blocks != []
    ensures AppendAll(s, blocks).Ok? <==> Tip(blocks).header.height < U64_MAX
    decreases |blocks|
  {
    hide Chained, Linked, Replay, WellFormed, GenesisOk, ApplyBlock, ApplyBlocks, AppendSpec;
    var b, rest := blocks[0], blocks[1..];
    ChainedFacts(s, chain);
    StateAtTip(s, chain);
    NextOnBranch(chain, blocks);
    NextApplies(s.utxos, chain, blocks);
    AppendKeepsChained(s, chain, b);
    if rest != [] {
      assert chain + [b] + rest == chain + blocks;
      assert Tip(rest) == Tip(blocks);
      TopHeight(chain, blocks);
      AppendAllOk(AppendSpec(s, b).value.store, chain + [b], rest);
    }
  }

  lemma NextOnBranch(chain: seq<Block>, blocks: seq<Block>)
    requires chain != [] && blocks != [] && Linked(chain + blocks)
    ensures WellFormed(blocks[0]) && blocks[0].header.height == |chain|
    ensures blocks[0].header.previousBlockHash == Tip(chain).Hash()
  {
    hide WellFormed, GenesisOk, UniqueIds, AllTxs;
    assert (chain + blocks)[|chain|] == blocks[0] && (chain + blocks)[|chain| - 1] == Tip(chain);
  }

  lemma TopHeight(chain: seq<Block>, blocks: seq<Block>)
    requires |blocks| > 1 && Linked(chain + blocks)
    ensures blocks[0].header.height < U64_MAX
  {
    hide WellFormed, GenesisOk, UniqueIds, AllTxs;
    assert (chain + blocks)[|chain|] == blocks[0] && (chain + blocks)[|chain| + 1] == blocks[1];
  }

  lemma NextApplies(m: UtxoSet, chain: seq<Block>, blocks: seq<Block>)
    requires blocks != [] && Replay(chain + blocks).Ok? && Replay(chain).Ok? && m == Replay(chain).value.utxos
    ensures ApplyBlock(m, blocks[0].txs).Ok?
  {
    hide ApplyBlock, ApplyBlocks;
    ApplyBlocksSplit(map[], chain, blocks);
    FirstOfBranch(m, blocks);
  }

  /** The bodies of the result are those committed before plus the attached ones. */
  lemma {:induction false} AppendAllBodies(s: Snapshot, chain: seq<Block>, blocks: seq<Block>)
    requires Chained(s, chain) && AllWellFormed(blocks)
    requires AppendAll(s, blocks).Ok?
    ensures AppendAll(s, blocks).value.blocks == WithBodies(s.blocks, blocks)
    decreases |blocks|
  {
    hide Chained, WellFormed, AppendSpec;
    if blocks != [] {
      var b, rest := blocks[0], blocks[1..];
      assert b in blocks && forall x :: x in rest ==> x in blocks;
      AppendKeepsChained(s, chain, b);
      var a, st := AppendResult(s, chain, b);
      AppendAllBodies(AppendSpec(s, b).value.store, chain + [b], rest);
      FirstBody(s.blocks, blocks);
    }
  }

  lemma {:induction false} FirstBody(bodies: BlockTable, blocks: seq<Block>)
    requires blocks != []
    ensures WithBodies(bodies[blocks[0].Hash() := blocks[0]], blocks[1..]) == WithBodies(bodies, blocks)
    decreases |blocks|
  {
    var before := blocks[..|blocks| - 1];
    if before == [] {
      assert blocks[1..] == [] && WithBodies(bodies, before) == bodies;
    } else {
      FirstBody(bodies, before);
      assert blocks[1..][..|blocks| - 2] == before[1..];
    }
  }

  /** Appending one block is the machine's adoption of a branch that only adds it. */
  lemma NothingDropped(rs: RefState, b: Block)
    requires RefOk(rs) && !InForks(rs.forks, b.Hash())
    ensures Surviving(rs.forks, rs.chain + [b]) == rs.forks
  {
    hide Linked, Replay, Disjoint;
    var longer := rs.chain + [b];
    forall t | t in rs.forks ensures Survives(rs.forks[t], longer) {
      assert ForkOk(t, rs.forks[t], rs.chain);
      var e := rs.forks[t];
      var i := PositionOf(rs.chain, e.commonAncestor);
      assert longer[i] == rs.chain[i] && longer[i] in longer;
      forall x | x in e.blocks ensures !HasBlock(longer, x.Hash()) {
        assert !HasBlock(rs.chain, x.Hash());
        assert !HasBlock(e.blocks, b.Hash());
      }
    }
  }

  lemma AppendError(s: Snapshot, chain: seq<Block>, b: Block)
    requires Chained(s, chain) && ExtendedState(s.state.value, b).Err?
    ensures AppendSpec(s, b) == Err(InvalidTransition)
  {
    ChainedVerifies(s, chain);
    hide Chained;
  }

  // ---------------------------------------------------------------- the engine

  /** The committed tables are those of undoing the canonical suffix tip first and then
      appending the branch one block at a time. */
  ghost predicate NaiveCommit(rs: RefState, b: Block, before: Snapshot, after: Snapshot)
  {
    rs.chain != [] && PlaceOf(rs, b).On? &&
    var On(k, prior) := PlaceOf(rs, b);
    RewindAndReplay(before, |rs.chain| - 1 - k, prior + [b]) == Ok(after)
  }

  class ConsensusEngine {
    const db: InMemoryStorage
    const index: Index
    const forks: ForkRegistry
    /** The canonical chain the tables describe. */
    ghost var chain: seq<Block>

    ghost function Ref(): RefState
      reads this, db, forks
    {
      RefState(chain, forks.inner, db.data.blocks)
    }

    ghost predicate Valid()
      reads this, db, index, forks
    {
      Canonical(db.data, chain) && Mirrors(index.Value(), chain) && RefOk(Ref())
    }

    /** An engine over an initialized store and an index built from it; no fork is buffered. */
    constructor Over(store: InMemoryStorage, built: Index, ghost canonical: seq<Block>)
      requires Canonical(store.data, canonical) && Mirrors(built.Value(), canonical)
      ensures Valid() && db == store && index == built && fresh(forks) && chain == canonical && forks.inner == map[]
    {
      db, index, chain := store, built, canonical;
      forks := new ForkRegistry();
      new;
      hide WellFormed, GenesisOk, LocationsOf, TablesSound, UndosMatch, HeightsOf, Mirrors;
    }

    /** Cumulative work of every prefix of the branch; no sum overflows. */
    method SumBranch(lca: BlockHash, blocks: seq<Block>, ghost k: nat) returns (works: seq<u512>)
      requires Valid() && k < |chain| && lca == chain[k].Hash() && Linked(chain[..k + 1] + blocks)
      ensures |works| == |blocks|
      ensures forall i :: 0 <= i < |blocks| ==> works[i] == ChainWork(chain[..k + 1] + blocks[..i + 1])
    {
      hide Canonical, RefOk, MirrorsEntries, Linked, Mirrors, ChainWork, Replay;
      IndexParent(index.Value(), chain, k);
      works := [];
      PrefixWork(chain[..k + 1], blocks, 0);
      assert blocks[..0] == [] && chain[..k + 1] + [] == chain[..k + 1];
      WorkFits(chain[..k + 1], chain[k]);
      var work: u512 := index.entries[lca].work;
      for i := 0 to |blocks|
        invariant |works| == i && work == ChainWork(chain[..k + 1] + blocks[..i])
        invariant forall j :: 0 <= j < i ==> works[j] == ChainWork(chain[..k + 1] + blocks[..j + 1])
      {
        PrefixWork(chain[..k + 1], blocks, i);
        StepWork(chain[..k + 1], blocks, i);
        var sum := AddWork(work, blocks[i].Work());
        assert sum.Ok?;
        work := sum.value;
        works := works + [work];
      }
    }

    /** Rewind to the ancestor, replay the fork, and keep the net changes. */
    method PrepareDelta(lca: BlockHash, blocks: seq<Block>, ghost k: nat) returns (delta: ForkDbDelta)
      requires Valid() && k < |chain| && lca == chain[k].Hash() && blocks != []
      requires Linked(chain[..k + 1] + blocks) && Replay(chain[..k + 1] + blocks).Ok?
      ensures PreparedAt(db.data, chain, k, blocks, delta)
    {
      hide Canonical, RefOk, Mirrors, Linked, Replay, PreparedAt, RewoundTo;
      var view := db.data;
      var overlay := BuildForkOverlay(view, index, lca, chain, k);
      ReplayAll(overlay, blocks, chain, k);
      DeltaReady(overlay, chain, k, blocks);
      var delta0 := overlay.IntoDelta();
      assert delta0.Ok?;
      delta := delta0.value;
      DeltaPrepared(view, chain, k, blocks, overlay, delta);
    }

    /** Drops the detached blocks tip first; each removal re-scans for the heaviest entry. */
    method RemoveDetached(detached: seq<ChainPos>, ghost k: nat)
      requires k < |chain| && Linked(chain) && Mirrors(index.Value(), chain)
      requires detached == Suffix(chain, |chain| - 1, k)
      modifies index
      ensures Mirrors(index.Value(), chain[..k + 1])
    {
      hide Linked, MirrorsEntries, Suffix, ChainWork;
      SuffixLength(chain, |chain| - 1, k);
      assert chain[..|chain|] == chain;
      for i := 0 to |detached|
        invariant Mirrors(index.Value(), chain[..|chain| - i])
      {
        ghost var upto := chain[..|chain| - i];
        SuffixAt(chain, |chain| - 1, k, i);
        LinkedPrefix(chain, |chain| - i);
        MirrorsLookup(index.Value(), upto, Tip(upto).Hash());
        HashAt(upto, |upto| - 1);
        ghost var before := index.Value();
        var existed := index.Remove(detached[i].1);
        MirrorsRemoveTip(before, upto, index.Value());
        assert upto[..|upto| - 1] == chain[..|chain| - (i + 1)];
      }
      assert chain[..|chain| - |detached|] == chain[..k + 1];
    }

    method InsertBranch(blocks: seq<Block>, works: seq<u512>, ghost kept: seq<Block>)
      requires kept != [] && Mirrors(index.Value(), kept) && Linked(kept + blocks) && |works| == |blocks|
      requires forall i :: 0 <= i < |blocks| ==> works[i] == ChainWork(kept + blocks[..i + 1])
      modifies index
      ensures Mirrors(index.Value(), kept + blocks)
    {
      hide Linked, Mirrors, ChainWork;
      assert kept + blocks[..0] == kept;
      for i := 0 to |blocks|
        invariant Mirrors(index.Value(), kept + blocks[..i])
      {
        PrefixWork(kept, blocks, i + 1);
        assert kept + blocks[..i + 1] == (kept + blocks[..i]) + [blocks[i]];
        MirrorsInsert(index.Value(), kept + blocks[..i], blocks[i]);
        index.Insert(blocks[i], works[i]);
      }
      assert blocks[..|blocks|] == blocks;
    }

    /** Drops every fork whose ancestor left the chain or whose block joined it. */
    method DropStaleForks(ghost longer: seq<Block>)
      requires Mirrors(index.Value(), longer)
      requires forall t :: t in forks.inner ==> forks.inner[t].tip == t
      modifies forks
      ensures forks.inner == Surviving(old(forks.inner), longer)
    {
      hide HasBlock, Mirrors;
      ghost var before := forks.inner;
      var all := forks.inner;
      var left := all.Keys;
      while left != {}
        invariant left <= all.Keys && all == before
        invariant forks.inner == map t | t in before && (t in left || Survives(before[t], longer)) :: before[t]
        decreases left
      {
        var t :| t in left;
        var e := all[t];
        StaleAgrees(index.Value(), longer, e);
        if e.commonAncestor !in index.entries || exists b :: b in e.blocks && b.Hash() in index.entries {
          forks.Remove(e.tip);
        }
        left := left - {t};
      }
    }

    method PerformReorg(lca: BlockHash, blocks: seq<Block>, ghost k: nat) returns (r: Result<Verdict, CoreError>)
      requires Valid() && k < |chain| && lca == chain[k].Hash() && blocks != [] && Extends(Ref(), k, blocks)
      requires ChainWork(chain[..k + 1] + blocks) > ChainWork(chain)
      modifies this, db, index, forks
      ensures (Ref(), r) == Adopt(old(Ref()), k, blocks, false)
      ensures Valid()
      ensures r.Err? ==> db.data == old(db.data) && index.Value() == old(index.Value())
      ensures r.Ok? ==> RewindAndReplay(old(db.data), |old(chain)| - 1 - k, blocks) == Ok(db.data)
    {
      hide Canonical, Chained, RefOk, Mirrors, Linked, Replay, PreparedAt, ChainWork, Suffix, RewindAndReplay,
        ReorganizeSpec, Surviving, WithBodies, AllWellFormed, NewIdsOnBranch, Retains;
      ghost var rs, longer := Ref(), chain[..k + 1] + blocks;
      AdoptKeeps(rs, k, blocks, false);
      RefFacts(rs);
      var works := SumBranch(lca, blocks, k);
      var delta := PrepareDelta(lca, blocks, k);
      LinkedNewIds(chain[..k + 1], blocks);
      ReorganizeIsRewindAndReplay(db.data, chain, k, blocks, delta);
      ReorganizeFits(db.data, chain, k, blocks);
      var committed := db.ApplyTransition(Reorganize(delta));
      if committed.Err? { return Err(StorageFailure(committed.error)); }
      TipFacts(db.data, longer);
      RemoveDetached(committed.value.detached, k);
      InsertBranch(blocks, works, chain[..k + 1]);
      chain := longer;
      ForkKeys(rs);
      DropStaleForks(longer);
      r := Ok(CausedReorganization(CommittedTransition(committed.value.newHead, committed.value.chainWork, blocks,
                                                        committed.value.detached)));
    }

    /** The block extends the canonical tip. */
    method HandleExtendCanonical(b: Block, check: Check) returns (r: Result<Verdict, CoreError>)
      requires Valid() && Placed(Ref(), b, |chain| - 1, []) && PlaceOf(Ref(), b) == On(|chain| - 1, [])
      requires b.header.WorkShapeOk() && HeightFollows(Ref(), b) && Sound(check)
      modifies this, db, index
      ensures Valid() && (Ref(), r) == RefStep(old(Ref()), b, check)
      ensures r.Ok? && r.value.Commits() ==> NaiveCommit(old(Ref()), b, old(db.data), db.data)
      ensures !(r.Ok? && r.value.Commits()) ==> db.data == old(db.data) && index.Value() == old(index.Value())
    {
      hide Canonical, RefOk, Mirrors, Linked, Replay, ChainWork, Suffix, AppendSpec, Surviving, WithBodies, PlaceOf,
           HeightFollows, Sound, Extends, OnBranch, InForks, HeightsOf, WellFormed;
      ghost var rs := Ref();
      RefFacts(rs);
      WholeChain(db.data, chain);
      assert [] + [b] == [b] && chain[..|chain| - 1 + 1] + [b] == chain + [b];
      var view := db.data;
      var checked := check(b, CanonicalView(view));
      if checked.Err? {
        if checked.error.StorageFailure? { return Err(checked.error); }
        return Ok(Rejected(checked.error));
      }
      AppendFits(rs, view, b, check);
      ghost var longer := chain + [b];
      MirrorsTip(index.Value(), chain);
      var sum := AddWork(index.tip.value.work, b.Work());
      assert sum.Ok?;
      var committed := db.ApplyTransition(Append(b));
      if committed.Err? { return Err(StorageFailure(committed.error)); }
      TipFacts(db.data, longer);
      MirrorsInsert(index.Value(), chain, b);
      index.Insert(b, sum.value);
      chain := longer;
      r := Ok(Verdict.Applied(CommittedTransition(committed.value.newHead, committed.value.chainWork, [b],
                                                  committed.value.detached)));
    }

    /** The block forks off the canonical chain below its tip. */
    method HandleCreatesFork(b: Block, lca: BlockHash, check: Check, ghost k: nat)
      returns (r: Result<Verdict, CoreError>)
      requires Valid() && k < |chain| - 1 && Placed(Ref(), b, k, []) && PlaceOf(Ref(), b) == On(k, [])
      requires b.header.WorkShapeOk() && HeightFollows(Ref(), b) && Sound(check) && lca == chain[k].Hash()
      modifies this, db, index, forks
      ensures Valid() && (Ref(), r) == RefStep(old(Ref()), b, check)
      ensures r.Ok? && r.value.Commits() ==> NaiveCommit(old(Ref()), b, old(db.data), db.data)
      ensures !(r.Ok? && r.value.Commits()) ==> db.data == old(db.data) && index.Value() == old(index.Value())
    {
      hide Canonical, RefOk, Mirrors, Linked, Replay, ChainWork, Suffix, Surviving, WithBodies, PlaceOf, HeightFollows,
           Sound, Extends, OnBranch, InForks, HeightsOf, WellFormed, RewoundTo, ReplayedTo, ViewOf, RewindAndReplay;
      ghost var rs := Ref();
      RefFacts(rs);
      var view := db.data;
      var overlay := BuildForkOverlay(view, index, lca, chain, k);
      NothingReplayed(overlay, chain, k, []);
      BranchIsView(overlay, chain, k, []);
      var checked := check(b, overlay.Branch());
      if checked.Err? {
        if checked.error.StorageFailure? { return Err(checked.error); }
        return Ok(Rejected(checked.error));
      }
      ExtendedBranch(rs, b, check, k, []);
      assert [] + [b] == [b];
      BranchSum(rs, k, [], b);
      IndexParent(index.Value(), chain, k);
      MirrorsTip(index.Value(), chain);
      var sum := AddWork(index.entries[lca].work, b.Work());
      assert sum.Ok?;
      if sum.value > index.tip.value.work {
        r := PerformReorg(lca, [b], k);
      } else {
        PlacedParent(rs, b, k, []);
        BufferKeeps(rs, b, k, []);
        ParentNotForkKey(rs, k);
        assert forks.inner - {lca} == forks.inner;
        forks.Insert(ForkEntry(b.Hash(), sum.value, lca, [b]));
        r := Ok(Buffered);
      }
    }

    /** The block extends the last block of a buffered fork. */
    method HandleExtendsFork(b: Block, check: Check, ghost k: nat) returns (r: Result<Verdict, CoreError>)
      requires b.header.previousBlockHash in forks.inner
      requires var prior := forks.inner[b.header.previousBlockHash].blocks;
               Valid() && prior != [] && Placed(Ref(), b, k, prior) && PlaceOf(Ref(), b) == On(k, prior)
      requires b.header.WorkShapeOk() && HeightFollows(Ref(), b) && Sound(check)
      modifies this, db, index, forks
      ensures Valid() && (Ref(), r) == RefStep(old(Ref()), b, check)
      ensures r.Ok? && r.value.Commits() ==> NaiveCommit(old(Ref()), b, old(db.data), db.data)
      ensures !(r.Ok? && r.value.Commits()) ==> db.data == old(db.data) && index.Value() == old(index.Value())
    {
      hide Canonical, RefOk, Mirrors, Linked, Replay, ChainWork, Suffix, Surviving, WithBodies, PlaceOf, HeightFollows,
           Sound, Extends, InForks, HeightsOf, WellFormed, RewoundTo, ReplayedTo, ViewOf, RewindAndReplay;
      ghost var rs := Ref();
      RefFacts(rs);
      var parent := b.header.previousBlockHash;
      var e := forks.inner[parent];
      var lca := e.commonAncestor;
      PlacedParent(rs, b, k, e.blocks);
      var view := db.data;
      var overlay := BuildForkOverlay(view, index, lca, chain, k);
      ReplayAll(overlay, e.blocks, chain, k);
      BranchIsView(overlay, chain, k, e.blocks);
      var checked := check(b, overlay.Branch());
      if checked.Err? {
        if checked.error.StorageFailure? { return Err(checked.error); }
        return Ok(Rejected(checked.error));
      }
      var blocks := e.blocks + [b];
      ExtendedBranch(rs, b, check, k, e.blocks);
      BranchSum(rs, k, e.blocks, b);
      ForkWork(rs, parent, k);
      MirrorsTip(index.Value(), chain);
      var sum := AddWork(e.cumulativeWork, b.Work());
      assert sum.Ok?;
      if sum.value > index.tip.value.work {
        r := PerformReorg(lca, blocks, k);
        if r.Ok? {
          ExtendedForkGone(rs, k, e.blocks, b);
          assert forks.inner - {parent} == forks.inner;
          forks.Remove(parent);
        }
      } else {
        BufferKeeps(rs, b, k, e.blocks);
        forks.Remove(parent);
        forks.Insert(ForkEntry(b.Hash(), sum.value, lca, blocks));
        r := Ok(Buffered);
      }
    }

    /** One block. The engine takes exactly the machine's step; the tables change only on a
        commit, and then to what rewinding and replaying one block at a time would leave. */
    method OnBlock(b: Block, check: Check) returns (r: Result<Verdict, CoreError>)
      requires Valid() && Sound(check)
      modifies this, db, index, forks
      ensures Valid() && (Ref(), r) == RefStep(old(Ref()), b, check)
      ensures r.Ok? && r.value.Commits() ==> NaiveCommit(old(Ref()), b, old(db.data), db.data)
      ensures !(r.Ok? && r.value.Commits()) ==> db.data == old(db.data) && index.Value() == old(index.Value())
    {
      hide Canonical, RefOk, Mirrors, Placed, NaiveCommit, Adopt, Buffer, ViewOf, ChainWork, HeightFollows, Sound,
           HasBlock, InForks, RefStep, Linked, Replay, Classify, ValidateHeight;
      RefFacts(Ref());
      IdleSteps(Ref(), b, check);
      if !b.header.WorkShapeOk() { return Ok(Rejected(ValidationFailed)); }
      HeightAgrees(Ref(), index.Value(), b);
      if !ValidateHeight(index.Value(), forks.inner, b) { return Ok(Rejected(ValidationFailed)); }
      ClassifyAgrees(Ref(), index.Value(), b);
      ghost var place := PlaceOf(Ref(), b);
      if place.On? { PlacedOnBranch(Ref(), b); PlacedSource(Ref(), b); }
      match Classify(index.Value(), forks.inner, b) {
        case Known(CanonicalChain) => r := Ok(AlreadyIncludedInChain);
        case Known(ForkTree) => r := Ok(AlreadyKnownInForkTree);
        case ExtendsCanonical => r := HandleExtendCanonical(b, check);
        case CreatesForkFromCanonical(lca) => r := HandleCreatesFork(b, lca, check, place.at);
        case ExtendsFork(_, _) => r := HandleExtendsFork(b, check, place.at);
        case Unconnected(_) => r := Ok(Buffered);
      }
    }
  }

  // ---------------------------------------------------------------- facts the methods use

  /** The steps that need no validator. */
  lemma IdleSteps(rs: RefState, b: Block, check: Check)
    requires rs.chain != []
    ensures !b.header.WorkShapeOk() || !HeightFollows(rs, b) ==>
              RefStep(rs, b, check) == (rs, Ok(Rejected(ValidationFailed)))
    ensures b.header.WorkShapeOk() && HeightFollows(rs, b) ==>
              match PlaceOf(rs, b)
              case InChain => RefStep(rs, b, check) == (rs, Ok(AlreadyIncludedInChain))
              case InForkTree => RefStep(rs, b, check) == (rs, Ok(AlreadyKnownInForkTree))
              case Orphan => RefStep(rs, b, check) == (rs, Ok(Buffered))
              case On(_, _) => true
  {
    hide HeightFollows, PlaceOf, BlockHeader.WorkShapeOk, ChainWork, ViewOf, Adopt, Buffer;
  }

  lemma PrefixWork(kept: seq<Block>, blocks: seq<Block>, i: nat)
    requires kept != [] && Linked(kept + blocks) && i <= |blocks|
    ensures Linked(kept + blocks[..i])
  {
    assert (kept + blocks)[..|kept| + i] == kept + blocks[..i];
    LinkedPrefix(kept + blocks, |kept| + i);
  }

  lemma {:induction false} WorkFits(kept: seq<Block>, b: Block)
    requires Linked(kept)
    ensures ChainWork(kept) + b.Work() < TWO_512
  {
    hide Linked, Joined, ChainWork, UniqueIds, AllTxs;
    LinkedJoined(kept);
    AddWorkNeverFails(kept, b);
  }

  lemma {:induction false} StepWork(kept: seq<Block>, blocks: seq<Block>, i: nat)
    requires i < |blocks| && kept != [] && Linked(kept + blocks[..i])
    ensures ChainWork(kept + blocks[..i + 1]) == ChainWork(kept + blocks[..i]) + blocks[i].Work() < TWO_512
  {
    hide Linked;
    WorkFits(kept + blocks[..i], blocks[i]);
    var longer := kept + blocks[..i + 1];
    assert longer[..|longer| - 1] == kept + blocks[..i] && longer[|longer| - 1] == blocks[i];
  }

  lemma DeltaReady(o: ForkDbOverlay, chain: seq<Block>, k: nat, blocks: seq<Block>)
    requires k < |chain| && blocks != [] && ReplayedTo(o, chain, k, blocks, |blocks|)
    ensures o.Valid() && o.rewindTip == o.commonAncestor && o.branch != []
  {}

  lemma StaleAgrees(index: IndexValue, chain: seq<Block>, e: ForkEntry)
    requires Mirrors(index, chain)
    ensures Survives(e, chain) <==>
            e.commonAncestor in index.entries && !exists b :: b in e.blocks && b.Hash() in index.entries
  {
    hide Mirrors, HasBlock;
    MirrorsLookup(index, chain, e.commonAncestor);
    forall b | b in e.blocks ensures b.Hash() in index.entries <==> HasBlock(chain, b.Hash()) {
      MirrorsLookup(index, chain, b.Hash());
    }
  }

  lemma ForkKeys(rs: RefState)
    requires RefOk(rs)
    ensures forall t :: t in rs.forks ==> rs.forks[t].tip == t
  {
    hide Linked, Replay, Disjoint;
    forall t | t in rs.forks ensures rs.forks[t].tip == t { assert ForkOk(t, rs.forks[t], rs.chain); }
  }

  lemma {:induction false} TipFacts(s: Snapshot, chain: seq<Block>)
    requires Canonical(s, chain)
    ensures chain != [] && s.state.Some? && s.state.value.latestBlock == Pos(Tip(chain))
    ensures s.state.value.chainWork == ChainWork(chain)
  {
    hide WellFormed, GenesisOk, LocationsOf, TablesSound, UndosMatch, Replay, HeightsOf;
  }

  /** Rewinding and replaying a valid branch succeeds below the last u64 height. */
  lemma {:induction false} ReorganizeFits(s: Snapshot, chain: seq<Block>, k: nat, blocks: seq<Block>)
    requires Canonical(s, chain) && k < |chain| && blocks != [] && AllWellFormed(blocks)
    requires Linked(chain[..k + 1] + blocks) && Replay(chain[..k + 1] + blocks).Ok?
    ensures var r := RewindAndReplay(s, |chain| - 1 - k, blocks);
            && (r.Ok? <==> Tip(blocks).header.height < U64_MAX)
            && (r.Ok? ==> r.value.blocks == WithBodies(s.blocks, blocks))
  {
    hide Canonical, Chained, Linked, Replay, AppendAll, RewindTips, AllWellFormed, WithBodies, UniqueIds, AllTxs;
    RewindTipsCanonical(s, chain, |chain| - 1 - k);
    assert chain[..|chain| - (|chain| - 1 - k)] == chain[..k + 1];
    var s1 := RewindTips(s, |chain| - 1 - k).value;
    ChainedIsCanonical(s1, chain[..k + 1]);
    AppendAllOk(s1, chain[..k + 1], blocks);
    if AppendAll(s1, blocks).Ok? { AppendAllBodies(s1, chain[..k + 1], blocks); }
  }

  lemma WholeChain(s: Snapshot, chain: seq<Block>)
    requires Canonical(s, chain)
    ensures chain != [] && chain[..|chain| - 1 + 1] + [] == chain
    ensures ViewOf(s.blocks, chain, []) == CanonicalView(s)
  {
    hide WellFormed, GenesisOk, LocationsOf, TablesSound, UndosMatch;
  }

  lemma {:induction false} MirrorsTip(index: IndexValue, chain: seq<Block>)
    requires Mirrors(index, chain)
    ensures index.tip.Some? && index.tip.value.hash == Tip(chain).Hash() && index.tip.value.work == ChainWork(chain)
  {}

  /** A validated block on the tip is appended unless no height is left, and nothing is dropped. */
  lemma AppendFits(rs: RefState, s: Snapshot, b: Block, check: Check)
    requires Canonical(s, rs.chain) && rs.bodies == s.blocks && RefOk(rs)
    requires Placed(rs, b, |rs.chain| - 1, []) && Sound(check) && check(b, CanonicalView(s)).Ok?
    ensures Linked(rs.chain + [b]) && ChainWork(rs.chain + [b]) == ChainWork(rs.chain) + b.Work() < TWO_512
    ensures ChainWork(rs.chain + [b]) > ChainWork(rs.chain)
    ensures AppendSpec(s, b).Ok? <==> b.header.height < U64_MAX
    ensures AppendSpec(s, b).Err? ==> AppendSpec(s, b).error == InvalidTransition
    ensures AppendSpec(s, b).Ok? ==>
              var a := AppendSpec(s, b).value;
              && Canonical(a.store, rs.chain + [b]) && a.store.blocks == WithBodies(s.blocks, [b])
              && a.store.state == Some(a.state) && a.detached == []
              && RewindAndReplay(s, 0, [b]) == Ok(a.store)
    ensures RefOk(Adopt(rs, |rs.chain| - 1, [b], true).0) && Surviving(rs.forks, rs.chain + [b]) == rs.forks
    ensures Suffix(rs.chain, |rs.chain| - 1, |rs.chain| - 1) == []
  {
    hide Canonical, RefOk, Linked, Replay, ChainWork, Sound, InForks, HeightsOf, WellFormed, AppendSpec, Surviving,
         AllWellFormed, WithBodies;
    var chain := rs.chain;
    WholeChain(s, chain);
    assert [] + [b] == [b] && chain[..|chain| - 1 + 1] + [b] == chain + [b];
    ExtendedBranch(rs, b, check, |chain| - 1, []);
    BranchSum(rs, |chain| - 1, [], b);
    AppendOutcome(rs, s, b);
    AdoptKeeps(rs, |chain| - 1, [b], true);
    NothingDropped(rs, b);
  }

  lemma AppendOutcome(rs: RefState, s: Snapshot, b: Block)
    requires Canonical(s, rs.chain) && Extends(rs, |rs.chain| - 1, [b])
    ensures AppendSpec(s, b).Ok? <==> b.header.height < U64_MAX
    ensures AppendSpec(s, b).Err? ==> AppendSpec(s, b).error == InvalidTransition
    ensures AppendSpec(s, b).Ok? ==>
              var a := AppendSpec(s, b).value;
              && Canonical(a.store, rs.chain + [b]) && a.store.blocks == WithBodies(s.blocks, [b])
              && a.store.state == Some(a.state) && a.detached == []
              && RewindAndReplay(s, 0, [b]) == Ok(a.store)
  {
    hide Canonical, Chained, Linked, ApplyBlocks, WellFormed, AppendSpec, ApplyBlock, ExtendedState, UniqueIds, AllTxs;
    var chain := rs.chain;
    CanonicalFacts(s, chain);
    CanonicalLinked(s, chain);
    assert b in [b];
    assert chain[..|chain| - 1 + 1] + [b] == chain + [b] && Tip([b]) == b;
    LinkedNewIds(chain, [b]);
    AllTxsExtend(chain, b);
    ChainedIsCanonical(s, chain);
    AppendAllOk(s, chain, [b]);
    AppendsOne(s, b);
    AppendKeepsCanonical(s, chain, b);
    var a, st := AppendResult(s, chain, b);
    if AppendSpec(s, b).Ok? {
      AppendAllBodies(s, chain, [b]);
    } else {
      assert ApplyBlock(s.utxos, b.txs).Ok? by {
        ApplyBlocksSplit(map[], chain, [b]);
        FirstOfBranch(s.utxos, [b]);
      }
      AppendError(s, chain, b);
    }
  }

  lemma {:induction false} AppendsOne(s: Snapshot, b: Block)
    ensures AppendAll(s, [b]).Ok? <==> AppendSpec(s, b).Ok?
    ensures AppendSpec(s, b).Ok? ==> RewindAndReplay(s, 0, [b]) == Ok(AppendSpec(s, b).value.store) == AppendAll(s, [b])
  {
    hide AppendSpec;
    assert [b][1..] == [];
    if AppendSpec(s, b).Ok? {
      assert AppendAll(AppendSpec(s, b).value.store, []) == Ok(AppendSpec(s, b).value.store);
    }
    assert RewindTips(s, 0) == Ok(s);
  }

  /** The work the source adds up is the branch's, and it does not overflow. */
  lemma {:induction false} BranchSum(rs: RefState, k: nat, prior: seq<Block>, b: Block)
    requires k < |rs.chain| && Extends(rs, k, prior + [b])
    ensures ChainWork(rs.chain[..k + 1] + (prior + [b])) == ChainWork(rs.chain[..k + 1] + prior) + b.Work() < TWO_512
    ensures b.Work() > 0
    ensures prior == [] ==> rs.chain[..k + 1] + prior == rs.chain[..k + 1]
    ensures AllWellFormed(prior + [b]) && Linked(rs.chain[..k + 1] + prior) && Replay(rs.chain[..k + 1] + prior).Ok?
  {
    hide Linked, Replay, ChainWork;
    var kept, blocks := rs.chain[..k + 1], prior + [b];
    assert blocks[..|prior|] == prior && blocks[..|prior| + 1] == blocks && b in blocks;
    assert (kept + blocks)[..|kept| + |prior|] == kept + prior;
    ReplayOfPrefix(kept + blocks, |kept| + |prior|);
    PrefixWork(kept, blocks, |prior|);
    StepWork(kept, blocks, |prior|);
    NotGenesis(b);
  }

  /** A canonical hash is never the key of a fork. */
  lemma ParentNotForkKey(rs: RefState, k: nat)
    requires RefOk(rs) && k < |rs.chain|
    ensures rs.chain[k].Hash() !in rs.forks
  {
    hide Linked, Replay, Disjoint;
    if rs.chain[k].Hash() in rs.forks {
      assert ForkOk(rs.chain[k].Hash(), rs.forks[rs.chain[k].Hash()], rs.chain);
      HashAt(rs.chain, k);
    }
  }

  lemma ForkIs(rs: RefState, t: BlockHash)
    requires RefOk(rs) && t in rs.forks
    ensures ForkOk(t, rs.forks[t], rs.chain)
  {
    hide ForkOk, Linked, Replay, Disjoint;
  }

  lemma ForkWork(rs: RefState, t: BlockHash, k: nat)
    requires RefOk(rs) && t in rs.forks && k < |rs.chain| && rs.forks[t].commonAncestor == rs.chain[k].Hash()
    ensures rs.forks[t].cumulativeWork == ChainWork(rs.chain[..k + 1] + rs.forks[t].blocks)
  {
    hide Linked, Replay, Disjoint, ChainWork, HasBlock, IndexIn;
    assert ForkAt(t, rs.forks[t], rs.chain, IndexIn(rs.chain, rs.forks[t].commonAncestor)) by { ForkIs(rs, t); }
    RefFacts(rs);
    IndexUnique(rs.chain, k);
  }

  /** The fork that became canonical does not survive as a fork. */
  lemma ExtendedForkGone(rs: RefState, k: nat, prior: seq<Block>, b: Block)
    requires k < |rs.chain| && prior != [] && Tip(prior).Hash() in rs.forks
    requires rs.forks[Tip(prior).Hash()].blocks == prior
    ensures Tip(prior).Hash() !in Surviving(rs.forks, rs.chain[..k + 1] + (prior + [b]))
  {
    var longer := rs.chain[..k + 1] + (prior + [b]);
    assert longer[k + |prior|] == Tip(prior);
    HashAt(longer, k + |prior|);
    assert Tip(prior) in prior;
  }

  /** Which kind of place a branch is, as the dispositions name it. */
  lemma PlacedSource(rs: RefState, b: Block)
    requires RefOk(rs) && PlaceOf(rs, b).On?
    ensures var On(k, prior) := PlaceOf(rs, b);
            if HasBlock(rs.chain, b.header.previousBlockHash)
            then prior == [] && k < |rs.chain| && rs.chain[k].Hash() == b.header.previousBlockHash
            else b.header.previousBlockHash in rs.forks && prior == rs.forks[b.header.previousBlockHash].blocks != []
  {
    hide Linked, Replay, Disjoint;
    if !HasBlock(rs.chain, b.header.previousBlockHash) {
      assert ForkOk(b.header.previousBlockHash, rs.forks[b.header.previousBlockHash], rs.chain);
    }
  }
}
