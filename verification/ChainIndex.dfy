/** The in-memory index of the active chain. */
module ChainIndex {
  import opened Primitives
  import opened ChainTypes
  import opened Ledger
  import opened CanonicalChain

  datatype Entry = Entry(parent: BlockHash, height: u64, work: nat)

  datatype TipInfo = TipInfo(height: u64, hash: BlockHash, work: nat)

  datatype IndexValue = IndexValue(entries: map<BlockHash, Entry>, tip: Option<TipInfo>)
  {
    function Insert(b: Block, work: nat): IndexValue
    {
      IndexValue(entries[b.Hash() := Entry(b.header.previousBlockHash, b.header.height, work)],
                 if tip == None || work > tip.value.work then Some(TipInfo(b.header.height, b.Hash(), work)) else tip)
    }
  }

  /** A re-scan may return any entry of maximal work. */
  predicate HeaviestOf(entries: map<BlockHash, Entry>, tip: Option<TipInfo>)
  {
    if entries == map[] then tip == None
    else
      && tip.Some? && tip.value.hash in entries
      && tip.value.height == entries[tip.value.hash].height && tip.value.work == entries[tip.value.hash].work
      && forall h :: h in entries ==> entries[h].work <= tip.value.work
  }

  class Index {
    var entries: map<BlockHash, Entry>
    var tip: Option<TipInfo>

    function Value(): IndexValue
      reads this
    {
      IndexValue(entries, tip)
    }

    constructor ()
      ensures Value() == IndexValue(map[], None)
    {
      entries, tip := map[], None;
    }

    method Insert(b: Block, work: nat)
      modifies this
      ensures Value() == old(Value()).Insert(b, work)
    {
      entries := entries[b.Hash() := Entry(b.header.previousBlockHash, b.header.height, work)];
      if tip == None || work > tip.value.work {
        tip := Some(TipInfo(b.header.height, b.Hash(), work));
      }
    }

    method Remove(hash: BlockHash) returns (existed: bool)
      modifies this
      ensures existed == (hash in old(entries))
      ensures entries == old(entries) - {hash}
      ensures if existed && old(tip).Some? && old(tip).value.hash == hash
              then HeaviestOf(entries, tip) else tip == old(tip)
    {
      existed := hash in entries;
      entries := entries - {hash};
      if existed && tip.Some? && tip.value.hash == hash { RecomputeTip(); }
    }

    method RecomputeTip()
      modifies this`tip
      ensures HeaviestOf(entries, tip)
    {
      tip := None;
      var left := entries.Keys;
      while left != {}
        invariant left <= entries.Keys
        invariant left == entries.Keys <==> tip == None
        invariant HeaviestOf(map h | h in entries && h !in left :: entries[h], tip)
        decreases left
      {
        var h :| h in left;
        var e := entries[h];
        ghost var before := map x | x in entries && x !in left :: entries[x];
        left := left - {h};
        ghost var after := map x | x in entries && x !in left :: entries[x];
        assert after == before[h := e];
        assert h in after;
        if tip == None || e.work >= tip.value.work {
          tip := Some(TipInfo(e.height, h, e.work));
        }
      }
      assert (map h | h in entries && h !in left :: entries[h]) == entries;
    }
  }

  // ---------------------------------------------------------------- agreement with a chain

  predicate Listed(entries: map<BlockHash, Entry>, chain: seq<Block>, i: nat)
    requires i < |chain|
  {
    && chain[i].Hash() in entries
    && entries[chain[i].Hash()] ==
       Entry(chain[i].header.previousBlockHash, chain[i].header.height, ChainWork(chain[..i + 1]))
  }

  predicate MirrorsEntries(entries: map<BlockHash, Entry>, chain: seq<Block>)
  {
    && (forall h :: h in entries ==> HasBlock(chain, h))
    && (forall i :: 0 <= i < |chain| ==> Listed(entries, chain, i))
  }

  /** The index lists exactly the blocks of the chain with their cumulative work, tip last. */
  predicate Mirrors(index: IndexValue, chain: seq<Block>)
  {
    && chain != []
    && MirrorsEntries(index.entries, chain)
    && index.tip == Some(TipInfo(Tip(chain).header.height, Tip(chain).Hash(), ChainWork(chain)))
  }

  lemma PositionOf(chain: seq<Block>, h: BlockHash) returns (i: nat)
    requires HasBlock(chain, h)
    ensures i < |chain| && chain[i].Hash() == h
  {
    var b :| b in chain && b.Hash() == h;
    i :| 0 <= i < |chain| && chain[i] == b;
  }

  lemma HashAt(chain: seq<Block>, i: nat)
    requires i < |chain|
    ensures HasBlock(chain, chain[i].Hash())
  {
    assert chain[i] in chain;
  }

  lemma MirrorsUnique(x: IndexValue, y: IndexValue, chain: seq<Block>)
    requires Mirrors(x, chain) && Mirrors(y, chain)
    ensures x == y
  {
    hide Listed;
    forall h | h in x.entries || h in y.entries
      ensures h in x.entries && h in y.entries && x.entries[h] == y.entries[h]
    {
      var i := PositionOf(chain, h);
      ListedSame(x.entries, y.entries, chain, i);
    }
    assert x.entries == y.entries;
  }

  lemma ListedSame(x: map<BlockHash, Entry>, y: map<BlockHash, Entry>, chain: seq<Block>, i: nat)
    requires i < |chain| && Listed(x, chain, i) && Listed(y, chain, i)
    ensures chain[i].Hash() in x && chain[i].Hash() in y && x[chain[i].Hash()] == y[chain[i].Hash()]
  {}

  lemma MirrorsLookup(index: IndexValue, chain: seq<Block>, h: BlockHash)
    requires Mirrors(index, chain)
    ensures h in index.entries <==> HasBlock(chain, h)
  {
    if HasBlock(chain, h) {
      var i := PositionOf(chain, h);
      assert Listed(index.entries, chain, i);
    }
  }

  lemma {:induction false} InsertListed(entries: map<BlockHash, Entry>, entries': map<BlockHash, Entry>,
                                        chain: seq<Block>, b: Block)
    requires MirrorsEntries(entries, chain) && Linked(chain + [b])
    requires entries'.Keys == entries.Keys + {b.Hash()}
    requires forall h :: h in entries && h != b.Hash() ==> entries'[h] == entries[h]
    requires Listed(entries', chain + [b], |chain|)
    ensures MirrorsEntries(entries', chain + [b])
  {
    hide WellFormedChain, ChainWork;
    var longer := chain + [b];
    forall i | 0 <= i < |chain| ensures Listed(entries', longer, i) {
      HashesDistinct(longer, i, |chain|);
      assert Listed(entries, chain, i);
      assert longer[..i + 1] == chain[..i + 1];
    }
    forall h | h in entries' ensures HasBlock(longer, h) {
      HashAt(longer, |chain|);
      if h != b.Hash() {
        var i := PositionOf(chain, h);
        HashAt(longer, i);
      }
    }
  }

  lemma {:induction false} MirrorsInsert(index: IndexValue, chain: seq<Block>, b: Block)
    requires Mirrors(index, chain) && Linked(chain + [b])
    ensures Mirrors(index.Insert(b, ChainWork(chain + [b])), chain + [b])
  {
    hide Linked, BlockWork, ChainWork, MirrorsEntries;
    var longer := chain + [b];
    assert longer[..|chain|] == chain && longer[..|longer|] == longer;
    WorkGrows(longer, |chain| - 1, |chain|);
    InsertListed(index.entries, index.Insert(b, ChainWork(longer)).entries, chain, b);
  }

  lemma MirrorsFirst(g: Block)
    requires g.header.IsGenesis() && g.Work() == 0
    ensures Mirrors(IndexValue(map[], None).Insert(g, 0), [g])
  {
    assert [g][..0] == [] && [g][..1] == [g];
    assert ChainWork([g]) == ChainWork([]) + g.Work();
    assert g in [g];
  }

  lemma EntriesWithoutTip(entries: map<BlockHash, Entry>, chain: seq<Block>)
    requires MirrorsEntries(entries, chain) && Linked(chain) && |chain| >= 2
    ensures MirrorsEntries(entries - {Tip(chain).Hash()}, chain[..|chain| - 1])
  {
    hide WellFormedChain, ChainWork;
    var shorter, left := chain[..|chain| - 1], entries - {Tip(chain).Hash()};
    forall i | 0 <= i < |shorter| ensures Listed(left, shorter, i) {
      HashesDistinct(chain, i, |chain| - 1);
      assert Listed(entries, chain, i);
      assert shorter[..i + 1] == chain[..i + 1];
    }
    forall h | h in left ensures HasBlock(shorter, h) {
      var i := PositionOf(chain, h);
      HashAt(shorter, i);
    }
  }

  lemma {:induction false} HeaviestIsTip(entries: map<BlockHash, Entry>, chain: seq<Block>, tip: Option<TipInfo>)
    requires chain != [] && MirrorsEntries(entries, chain) && Linked(chain) && HeaviestOf(entries, tip)
    ensures tip == Some(TipInfo(Tip(chain).header.height, Tip(chain).Hash(), ChainWork(chain)))
  {
    hide WellFormedChain, ChainWork;
    var top := |chain| - 1;
    assert Listed(entries, chain, top) && chain[..top + 1] == chain;
    var i := PositionOf(chain, tip.value.hash);
    assert Listed(entries, chain, i);
    if i < top { WorkGrows(chain, i, top); }
  }

  /** Dropping the tip and re-scanning for the heaviest entry finds the parent. */
  lemma MirrorsRemoveTip(index: IndexValue, chain: seq<Block>, index': IndexValue)
    requires Mirrors(index, chain) && Linked(chain) && |chain| >= 2
    requires index'.entries == index.entries - {Tip(chain).Hash()} && HeaviestOf(index'.entries, index'.tip)
    ensures Mirrors(index', chain[..|chain| - 1])
  {
    EntriesWithoutTip(index.entries, chain);
    LinkedPrefix(chain, |chain| - 1);
    HeaviestIsTip(index'.entries, chain[..|chain| - 1], index'.tip);
  }
}
