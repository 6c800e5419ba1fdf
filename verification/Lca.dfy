/** Binary search for the last common block of two chains. */
module Lca {
  import opened Primitives
  import opened ChainTypes
  import opened BlockRules
  import opened CanonicalChain

  function HashesOf(chain: seq<Block>): (hs: seq<BlockHash>)
    ensures |hs| == |chain| && forall i :: 0 <= i < |chain| ==> hs[i] == chain[i].Hash()
  {
    seq(|chain|, i requires 0 <= i < |chain| => chain[i].Hash())
  }

  predicate AgreeAt(local: seq<BlockHash>, remote: seq<BlockHash>, i: nat)
  {
    i < |local| && i < |remote| && local[i] == remote[i]
  }

  /** Where two chains agree they agree all the way down. */
  ghost predicate AgreeDownwards(local: seq<BlockHash>, remote: seq<BlockHash>)
  {
    forall i: nat, j: nat :: i <= j && AgreeAt(local, remote, j) ==> AgreeAt(local, remote, i)
  }

  /** The answer: the greatest agreeing height, or the initial values when there is none. */
  ghost predicate IsLca(local: seq<BlockHash>, remote: seq<BlockHash>, height: nat, hash: BlockHash)
  {
    if AgreeAt(local, remote, 0)
    then AgreeAt(local, remote, height) && hash == local[height]
         && forall k: nat :: AgreeAt(local, remote, k) ==> k <= height
    else height == 0 && hash == ZeroHash
  }

  function Min(a: nat, b: nat): nat { if a <= b then a else b }

  function SaturatingNext(n: u64): u64 { if n < U64_MAX then n + 1 else n }

  /** Tips below the last u64, as storage keeps them. */
  method FindLca(local: seq<BlockHash>, remote: seq<BlockHash>) returns (height: u64, hash: BlockHash)
    requires 0 < |local| <= U64_MAX && 0 < |remote| <= U64_MAX
    requires AgreeDownwards(local, remote)
    ensures IsLca(local, remote, height, hash)
  {
    var low: u64, high: u64 := 0, Min(|remote| - 1, |local| - 1);
    height, hash := 0, ZeroHash;
    while low <= high
      invariant low <= high + 1 && high < |local| && high < |remote|
      invariant forall k: nat :: AgreeAt(local, remote, k) ==> k <= high
      invariant if low == 0 then height == 0 && hash == ZeroHash
                else height == low - 1 && AgreeAt(local, remote, height) && hash == local[height]
      decreases high + 1 - low
    {
      var mid: u64 := low + (high - low) / 2;
      if local[mid] == remote[mid] {
        height, hash := mid, local[mid];
        low := SaturatingNext(mid);
      } else {
        assert !AgreeAt(local, remote, mid);
        if mid == 0 { break; }
        high := mid - 1;
      }
    }
  }

  /** A hash contains its parent's, so linked chains agree downwards. */
  lemma LinkedAgreeDownwards(local: seq<Block>, remote: seq<Block>)
    requires Linked(local) && Linked(remote)
    ensures AgreeDownwards(HashesOf(local), HashesOf(remote))
  {
    hide WellFormed, GenesisOk;
    forall i: nat, j: nat | i <= j && AgreeAt(HashesOf(local), HashesOf(remote), j)
      ensures AgreeAt(HashesOf(local), HashesOf(remote), i)
    {
      AgreeBelow(local, remote, i, j);
    }
  }

  lemma {:induction false} AgreeBelow(local: seq<Block>, remote: seq<Block>, i: nat, j: nat)
    requires Linked(local) && Linked(remote) && i <= j < |local| && j < |remote|
    requires local[j].Hash() == remote[j].Hash()
    ensures local[i].Hash() == remote[i].Hash()
    decreases j
  {
    hide HeaderOk, StructureOk, AllocationsOk;
    if i < j {
      assert WellFormed(local[j]) && WellFormed(remote[j]);
      AgreeBelow(local, remote, i, j - 1);
    }
  }

  /** On two linked chains the search returns the last block they share. */
  method FindForkPoint(local: seq<Block>, remote: seq<Block>) returns (height: u64, hash: BlockHash)
    requires Linked(local) && Linked(remote) && |local| <= U64_MAX && |remote| <= U64_MAX
    ensures height < |local| && height < |remote|
    ensures local[height].Hash() == remote[height].Hash() == hash
    ensures forall k: nat :: height < k < |local| && k < |remote| ==> local[k].Hash() != remote[k].Hash()
  {
    var hs, ks := HashesOf(local), HashesOf(remote);
    LinkedAgreeDownwards(local, remote);
    GenesisAgrees(local, remote);
    height, hash := FindLca(hs, ks);
    forall k: nat | height < k < |local| && k < |remote| ensures local[k].Hash() != remote[k].Hash() {
      assert !AgreeAt(hs, ks, k);
    }
  }

  lemma GenesisAgrees(local: seq<Block>, remote: seq<Block>)
    requires Linked(local) && Linked(remote)
    ensures AgreeAt(HashesOf(local), HashesOf(remote), 0)
  {}
}
