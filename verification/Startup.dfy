/** Rebuilding the chain index from the committed tables at startup. */
module Startup {
  import opened Primitives
  import opened Collections
  import opened ChainTypes
  import opened BlockRules
  import opened Storage
  import opened Transition
  import opened CanonicalChain
  import opened ChainIndex

  // ---------------------------------------------------------------- specification

  /** One stop of the walk from the tip to genesis. */
  function WalkCheck(s: Snapshot, height: u64, hash: BlockHash): Result<Block, CoreError>
  {
    if hash !in s.blocks then Err(StorageFailure(Corruption))
    else
      var b := s.blocks[hash];
      if b.Hash() != hash || b.header.height != height || height !in s.heights || s.heights[height] != hash
      then Err(StorageFailure(Corruption))
      else if !b.header.WorkShapeOk() then Err(ValidationFailed)
      else if height > 0 && hash !in s.undos then Err(StorageFailure(Corruption))
      else if height == 0 && !b.header.IsGenesis() then Err(StorageFailure(Corruption))
      else Ok(b)
  }

  function Ancestry(s: Snapshot, height: u64, hash: BlockHash): Result<seq<Block>, CoreError>
    decreases height
  {
    var b :- WalkCheck(s, height, hash);
    if height == 0 then Ok([b])
    else
      var below :- Ancestry(s, height - 1, b.header.previousBlockHash);
      Ok(below + [b])
  }

  function CheckedRow(s: Snapshot, b: Block, work: nat): Result<u512, CoreError>
    requires work < TWO_512
  {
    if !b.header.WorkShapeOk() then Err(ValidationFailed)
    else
      var sum :- AddWork(work, b.Work());
      if b.Hash() !in s.indexes then Err(StorageFailure(Corruption))
      else if !RowMatches(s.indexes[b.Hash()], b, sum) then Err(StorageFailure(Corruption))
      else Ok(sum)
  }

  function Rebuilt(s: Snapshot, blocks: seq<Block>): Result<(IndexValue, u512), CoreError>
  {
    if blocks == [] then Ok((IndexValue(map[], None), 0))
    else
      var (index, work) :- Rebuilt(s, blocks[..|blocks| - 1]);
      var sum :- CheckedRow(s, blocks[|blocks| - 1], work);
      Ok((index.Insert(blocks[|blocks| - 1], sum), sum))
  }

  function BuildSpec(s: Snapshot): Result<IndexValue, CoreError>
  {
    if s.state == None then Err(StorageFailure(Uninitialized))
    else
      var st := s.state.value;
      var blocks :- Ancestry(s, st.latestBlock.0, st.latestBlock.1);
      var (index, work) :- Rebuilt(s, blocks);
      if work != st.chainWork || NextU64(st.latestBlock.0) != Some(st.blocksCount)
      then Err(StorageFailure(Corruption))
      else Ok(index)
  }

  // ---------------------------------------------------------------- the source's two phases

  /** The walk pushes blocks tip first and reverses them at the end. */
  method CollectAncestry(s: Snapshot, tip: ChainPos) returns (r: Result<seq<Block>, CoreError>)
    ensures r == Ancestry(s, tip.0, tip.1)
  {
    var cursor: ChainPos := tip;
    var blocks: seq<Block> := [];
    ghost var all := Ancestry(s, tip.0, tip.1);
    if all.Ok? { assert all.value + Reversed(blocks) == all.value; }
    while true
      invariant Ancestry(s, tip.0, tip.1) ==
                match Ancestry(s, cursor.0, cursor.1)
                case Ok(below) => Ok(below + Reversed(blocks))
                case Err(e) => Err(e)
      decreases cursor.0
    {
      var b :- WalkCheck(s, cursor.0, cursor.1);
      ReversedAppend(blocks, b);
      ghost var before := blocks;
      blocks := blocks + [b];
      if cursor.0 == 0 {
        assert [b] + Reversed(before) == Reversed(blocks);
        break;
      }
      ghost var below := Ancestry(s, cursor.0 - 1, b.header.previousBlockHash);
      if below.Ok? { assert below.value + [b] + Reversed(before) == below.value + Reversed(blocks); }
      cursor := (cursor.0 - 1, b.header.previousBlockHash);
    }
    r := Ok(Reversed(blocks));
  }

  method BuildChainIndex(s: Snapshot) returns (r: Result<Index, CoreError>)
    ensures match BuildSpec(s)
            case Ok(v) => r.Ok? && fresh(r.value) && r.value.Value() == v
            case Err(e) => r == Err(e)
  {
    hide CheckedRow, Ancestry;
    if s.state == None { return Err(StorageFailure(Uninitialized)); }
    var st := s.state.value;
    var blocks :- CollectAncestry(s, st.latestBlock);
    var index := new Index();
    var work: u512 := 0;
    for i := 0 to |blocks|
      invariant fresh(index)
      invariant Rebuilt(s, blocks[..i]) == Ok((index.Value(), work))
    {
      assert blocks[..i + 1][..i] == blocks[..i];
      BadPrefix(s, blocks, i + 1);
      work :- CheckedRow(s, blocks[i], work);
      index.Insert(blocks[i], work);
    }
    assert blocks[..|blocks|] == blocks;
    if work != st.chainWork || NextU64(st.latestBlock.0) != Some(st.blocksCount) {
      return Err(StorageFailure(Corruption));
    }
    r := Ok(index);
  }

  /** A failing prefix fails the whole rebuild with the same error. */
  lemma {:induction false} BadPrefix(s: Snapshot, blocks: seq<Block>, n: nat)
    requires n <= |blocks|
    ensures Rebuilt(s, blocks[..n]).Err? ==> Rebuilt(s, blocks) == Err(Rebuilt(s, blocks[..n]).error)
    decreases |blocks|
  {
    if n < |blocks| {
      var before := blocks[..|blocks| - 1];
      assert before[..n] == blocks[..n];
      BadPrefix(s, before, n);
    } else {
      assert blocks[..n] == blocks;
    }
  }

  // ---------------------------------------------------------------- what a successful startup certifies

  predicate StoredAt(s: Snapshot, chain: seq<Block>, i: nat)
    requires i < |chain|
  {
    var (b, hash) := (chain[i], chain[i].Hash());
    && hash in s.blocks && s.blocks[hash] == b && b.header.height == i && b.header.WorkShapeOk()
    && i in s.heights && s.heights[i] == hash
    && (i == 0 ==> b.header.IsGenesis())
    && (i > 0 ==> hash in s.undos && b.header.previousBlockHash == chain[i - 1].Hash())
  }

  predicate RowAt(s: Snapshot, chain: seq<Block>, i: nat)
    requires i < |chain|
  {
    chain[i].Hash() in s.indexes && RowMatches(s.indexes[chain[i].Hash()], chain[i], ChainWork(chain[..i + 1]))
  }

  /** The stored tables hold this chain: bodies, heights, undo, links, work rows and state. */
  predicate StoredShape(s: Snapshot, chain: seq<Block>)
  {
    && chain != [] && s.state.Some?
    && (forall i :: 0 <= i < |chain| ==> StoredAt(s, chain, i) && RowAt(s, chain, i))
    && s.state.value.latestBlock.0 == |chain| - 1 && s.state.value.latestBlock.1 == Tip(chain).Hash()
    && s.state.value.chainWork == ChainWork(chain) && s.state.value.blocksCount == |chain|
  }

  lemma {:induction false} AncestryFinds(s: Snapshot, chain: seq<Block>, i: nat)
    requires i < |chain| && forall j :: 0 <= j <= i ==> StoredAt(s, chain, j)
    ensures Ancestry(s, chain[i].header.height, chain[i].Hash()) == Ok(chain[..i + 1])
    decreases i
  {
    assert StoredAt(s, chain, i);
    if i == 0 {
      assert chain[..1] == [chain[0]];
    } else {
      assert StoredAt(s, chain, i - 1);
      AncestryFinds(s, chain, i - 1);
      assert chain[..i] + [chain[i]] == chain[..i + 1];
    }
  }

  lemma {:induction false} AncestryCertifies(s: Snapshot, height: u64, hash: BlockHash)
    requires Ancestry(s, height, hash).Ok?
    ensures var chain := Ancestry(s, height, hash).value;
            && |chain| == height + 1 && Tip(chain).Hash() == hash
            && forall i :: 0 <= i < |chain| ==> StoredAt(s, chain, i)
    decreases height
  {
    var b := WalkCheck(s, height, hash).value;
    if height > 0 {
      AncestryCertifies(s, height - 1, b.header.previousBlockHash);
      var below := Ancestry(s, height - 1, b.header.previousBlockHash).value;
      var chain := below + [b];
      forall i | 0 <= i < |chain| ensures StoredAt(s, chain, i) {
        if i < |below| { assert StoredAt(s, below, i); }
      }
    }
  }

  lemma {:induction false} RebuiltIff(s: Snapshot, chain: seq<Block>)
    requires forall i :: 0 <= i < |chain| ==> StoredAt(s, chain, i)
    ensures Rebuilt(s, chain).Ok? <==> forall i :: 0 <= i < |chain| ==> RowAt(s, chain, i)
    ensures Rebuilt(s, chain).Ok? ==> Rebuilt(s, chain).value.1 == ChainWork(chain)
  {
    if chain != [] {
      var before, top := chain[..|chain| - 1], |chain| - 1;
      forall i | 0 <= i < |before| ensures StoredAt(s, before, i) && (RowAt(s, before, i) <==> RowAt(s, chain, i)) {
        assert StoredAt(s, chain, i);
        assert before[..i + 1] == chain[..i + 1];
      }
      RebuiltIff(s, before);
      assert StoredAt(s, chain, top) && chain[..top + 1] == chain;
      assert (forall i :: 0 <= i < |chain| ==> RowAt(s, chain, i)) <==>
             RowAt(s, chain, top) && forall i :: 0 <= i < |before| ==> RowAt(s, before, i);
    }
  }

  /** Startup succeeds exactly on tables that hold some chain in this shape. */
  lemma BuildSucceedsIff(s: Snapshot)
    ensures BuildSpec(s).Ok? <==> exists chain :: StoredShape(s, chain)
  {
    if exists chain :: StoredShape(s, chain) {
      var chain :| StoredShape(s, chain);
      BuildFinds(s, chain);
    }
    if BuildSpec(s).Ok? {
      var st := s.state.value;
      var chain := Ancestry(s, st.latestBlock.0, st.latestBlock.1).value;
      AncestryCertifies(s, st.latestBlock.0, st.latestBlock.1);
      RebuiltIff(s, chain);
      assert StoredShape(s, chain);
    }
  }

  lemma StoredHeight(s: Snapshot, chain: seq<Block>, i: nat)
    requires i < |chain| && StoredAt(s, chain, i)
    ensures chain[i].header.height == i
  {}

  lemma {:induction false} BuildFinds(s: Snapshot, chain: seq<Block>)
    requires StoredShape(s, chain)
    ensures BuildSpec(s).Ok? && Rebuilt(s, chain).Ok? && BuildSpec(s).value == Rebuilt(s, chain).value.0
  {
    hide Rebuilt, Ancestry, StoredAt, RowAt;
    var top := |chain| - 1;
    assert chain[top].header.height == top by { StoredHeight(s, chain, top); }
    assert StoredAt(s, chain, top) && chain[..top + 1] == chain;
    AncestryFinds(s, chain, top);
    RebuiltIff(s, chain);
  }

  // ---------------------------------------------------------------- restart equivalence

  lemma CanonicalIsStored(s: Snapshot, chain: seq<Block>)
    requires Canonical(s, chain)
    ensures StoredShape(s, chain)
  {
    hide StructureOk, LocationsOf, Replay, StateMatches, HeaderOk, AllocationsOk;
    forall i | 0 <= i < |chain| ensures StoredAt(s, chain, i) && RowAt(s, chain, i) {
      LinkedPrefix(chain, i + 1);
      ChainWorkBelow(chain[..i + 1]);
      assert i > 0 ==> WellFormed(chain[i]);
    }
    StateShape(s, chain);
  }

  lemma StateShape(s: Snapshot, chain: seq<Block>)
    requires Canonical(s, chain)
    ensures s.state.Some? && StateMatches(s.state.value, chain)
  {}

  lemma {:induction false} RebuiltMirrors(s: Snapshot, chain: seq<Block>)
    requires Linked(chain) && Rebuilt(s, chain).Ok? && Rebuilt(s, chain).value.1 == ChainWork(chain)
    requires forall n :: 1 <= n <= |chain| ==>
               Rebuilt(s, chain[..n]).Ok? && Rebuilt(s, chain[..n]).value.1 == ChainWork(chain[..n])
    ensures Mirrors(Rebuilt(s, chain).value.0, chain)
  {
    hide Mirrors, ChainWork, Linked, GenesisOk, CheckedRow;
    GenesisFirst(chain);
    if |chain| == 1 {
      assert chain == [chain[0]] && chain[..0] == [];
      assert ChainWork(chain[..0]) == 0 by { EmptyWork(); }
      FirstWork(chain[0]);
      MirrorsFirst(chain[0]);
    } else {
      var before, b := chain[..|chain| - 1], Tip(chain);
      LinkedPrefix(chain, |chain| - 1);
      forall n | 1 <= n <= |before| ensures before[..n] == chain[..n] {}
      RebuiltMirrors(s, before);
      assert before + [b] == chain;
      MirrorsInsert(Rebuilt(s, before).value.0, before, b);
    }
  }

  lemma GenesisFirst(chain: seq<Block>)
    requires Linked(chain)
    ensures chain != [] && GenesisOk(chain[0])
  {}

  lemma EmptyWork()
    ensures ChainWork([]) == 0
  {}

  lemma FirstWork(g: Block)
    requires GenesisOk(g)
    ensures ChainWork([g]) == 0 == g.Work()
  {
    assert [g][..0] == [];
  }

  lemma {:induction false} PrefixesRebuilt(s: Snapshot, chain: seq<Block>, n: nat)
    requires StoredShape(s, chain) && 1 <= n <= |chain|
    ensures Rebuilt(s, chain[..n]).Ok? && Rebuilt(s, chain[..n]).value.1 == ChainWork(chain[..n])
  {
    var part := chain[..n];
    forall i | 0 <= i < n ensures StoredAt(s, part, i) && RowAt(s, part, i) {
      assert StoredAt(s, chain, i) && RowAt(s, chain, i);
      assert part[..i + 1] == chain[..i + 1];
    }
    RebuiltIff(s, part);
  }

  /** From canonical tables the rebuild succeeds and lists exactly the canonical chain. */
  lemma RebuildMirrors(s: Snapshot, chain: seq<Block>)
    requires Canonical(s, chain)
    ensures BuildSpec(s).Ok? && Mirrors(BuildSpec(s).value, chain)
  {
    hide Canonical, StoredShape, Mirrors, Linked, ChainWork, BuildSpec, Rebuilt;
    CanonicalIsStored(s, chain);
    LinkedOf(s, chain);
    BuildFinds(s, chain);
    forall n | 1 <= n <= |chain|
      ensures Rebuilt(s, chain[..n]).Ok? && Rebuilt(s, chain[..n]).value.1 == ChainWork(chain[..n])
    {
      PrefixesRebuilt(s, chain, n);
    }
    assert chain[..|chain|] == chain;
    RebuiltMirrors(s, chain);
  }

  /** Whenever the live index mirrors the committed chain, rebuilding gives it back exactly. */
  lemma RestartRebuildsIndex(s: Snapshot, chain: seq<Block>, live: IndexValue)
    requires Canonical(s, chain) && Mirrors(live, chain)
    ensures BuildSpec(s) == Ok(live)
  {
    hide Canonical, Mirrors, BuildSpec;
    RebuildMirrors(s, chain);
    MirrorsUnique(live, BuildSpec(s).value, chain);
  }

  lemma LinkedOf(s: Snapshot, chain: seq<Block>)
    requires Canonical(s, chain)
    ensures Linked(chain) && chain != []
  {}
}
