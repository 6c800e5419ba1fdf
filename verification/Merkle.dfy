/** Merkle trees that duplicate the last node of an odd level, and their membership proofs.
    The hash functions are parameters: `combine` for pairs, and one for leaves. */
module Merkle {
  import opened Arithmetic
  import opened Primitives

  // ---------------------------------------------------------------- levels

  /** Node i of a level padded to even length. */
  function Padded<H>(level: seq<H>, i: nat): H
    requires level != [] && i <= |level|
  {
    if i < |level| then level[i] else level[|level| - 1]
  }

  function NextLevel<H>(level: seq<H>, combine: (H, H) -> H): (next: seq<H>)
    requires |level| > 1
    ensures |next| == (|level| + 1) / 2
  {
    seq((|level| + 1) / 2, i requires 0 <= i < (|level| + 1) / 2 =>
      combine(Padded(level, 2 * i), Padded(level, 2 * i + 1)))
  }

  function Levels<H>(level: seq<H>, combine: (H, H) -> H): (ls: seq<seq<H>>)
    requires level != []
    ensures ls != [] && ls[0] == level
    decreases |level|
  {
    if |level| == 1 then [level] else [level] + Levels(NextLevel(level, combine), combine)
  }

  function Root<H>(level: seq<H>, combine: (H, H) -> H): H
    requires level != []
    decreases |level|
  {
    if |level| == 1 then level[0] else Root(NextLevel(level, combine), combine)
  }

  function Depth(n: nat): nat
    requires n >= 1
  {
    if n == 1 then 0 else 1 + Depth((n + 1) / 2)
  }

  datatype MerkleTree<H> = MerkleTree(levels: seq<seq<H>>, root: Option<H>)

  datatype MerkleProof<H> = MerkleProof(siblings: seq<H>, leafIndex: nat)

  function LeafLevel<D, H>(leaves: seq<D>, leafHash: D -> H): (level: seq<H>)
    ensures |level| == |leaves| && forall i :: 0 <= i < |leaves| ==> level[i] == leafHash(leaves[i])
  {
    seq(|leaves|, i requires 0 <= i < |leaves| => leafHash(leaves[i]))
  }

  lemma {:induction false} LevelsUnfold<H>(level: seq<H>, combine: (H, H) -> H)
    requires level != []
    ensures |level| == 1 ==> Levels(level, combine) == [level] && Root(level, combine) == level[0]
    ensures |level| > 1 ==>
              var next := NextLevel(level, combine);
              Levels(level, combine) == [level] + Levels(next, combine) && Root(level, combine) == Root(next, combine)
  {}

  /** The pairing on small lists: left before right, and the last of three with itself. */
  lemma {:induction false} SmallRoots<H>(a: H, b: H, c: H, combine: (H, H) -> H)
    ensures Root([a], combine) == a && Root([a, b], combine) == combine(a, b)
    ensures Root([a, b, c], combine) == combine(combine(a, b), combine(c, c))
  {
    assert NextLevel([a, b], combine) == [combine(a, b)];
    assert NextLevel([a, b, c], combine) == [combine(a, b), combine(c, c)];
    hide NextLevel;
    TwoRoots(combine(a, b), combine(c, c), combine);
  }

  lemma {:induction false} TwoRoots<H>(a: H, b: H, combine: (H, H) -> H)
    ensures Root([a, b], combine) == combine(a, b)
  {
    assert NextLevel([a, b], combine) == [combine(a, b)];
  }

  method NewTree<D, H>(leaves: seq<D>, leafHash: D -> H, combine: (H, H) -> H) returns (tree: MerkleTree<H>)
    ensures leaves == [] ==> tree == MerkleTree([], None)
    ensures leaves != [] ==>
              var level := LeafLevel(leaves, leafHash);
              tree == MerkleTree(Levels(level, combine), Some(Root(level, combine)))
  {
    hide Levels, Root, NextLevel;
    var current := LeafLevel(leaves, leafHash);
    if current == [] { return MerkleTree([], None); }
    ghost var all, root := Levels(current, combine), Root(current, combine);
    var levels := [current];
    LevelsUnfold(current, combine);
    while |current| > 1
      invariant current != [] && levels != [] && levels[|levels| - 1] == current
      invariant all == levels[..|levels| - 1] + Levels(current, combine) && root == Root(current, combine)
      decreases |current|
    {
      LevelsUnfold(current, combine);
      var next := CombinePairs(current, combine);
      assert levels[..|levels| - 1] + [current] == levels;
      levels := levels + [next];
      current := next;
    }
    LevelsUnfold(current, combine);
    assert levels[..|levels| - 1] + [current] == levels;
    tree := MerkleTree(levels, Some(current[0]));
  }

  /** Pads an odd level with its last node, then combines the chunks of two. */
  method CombinePairs<H>(level: seq<H>, combine: (H, H) -> H) returns (next: seq<H>)
    requires |level| > 1
    ensures next == NextLevel(level, combine)
  {
    var current := level;
    if |current| % 2 != 0 { current := current + [current[|current| - 1]]; }
    next := [];
    for i := 0 to |current| / 2
      invariant next == NextLevel(level, combine)[..i]
    {
      next := next + [combine(current[2 * i], current[2 * i + 1])];
    }
  }

  // ---------------------------------------------------------------- proofs

  function Sibling<H>(level: seq<H>, index: nat): H
    requires index < |level|
  {
    if index % 2 == 0 then Padded(level, index + 1) else level[index - 1]
  }

  function ProofFrom<H>(level: seq<H>, index: nat, combine: (H, H) -> H): (siblings: seq<H>)
    requires index < |level|
    ensures |siblings| == Depth(|level|)
    decreases |level|
  {
    if |level| == 1 then []
    else [Sibling(level, index)] + ProofFrom(NextLevel(level, combine), index / 2, combine)
  }

  function Fold<H>(h: H, index: nat, siblings: seq<H>, combine: (H, H) -> H): H
    decreases |siblings|
  {
    if siblings == [] then h
    else
      var above := if index % 2 == 0 then combine(h, siblings[0]) else combine(siblings[0], h);
      Fold(above, index / 2, siblings[1..], combine)
  }

  method GenerateProof<H>(tree: MerkleTree<H>, ghost level: seq<H>, leafIndex: nat, combine: (H, H) -> H)
    returns (proof: Option<MerkleProof<H>>)
    requires if level == [] then tree.levels == [] else tree.levels == Levels(level, combine)
    ensures leafIndex < |level| ==> proof == Some(MerkleProof(ProofFrom(level, leafIndex, combine), leafIndex))
    ensures leafIndex >= |level| ==> proof == None
  {
    hide Levels, Root, NextLevel, ProofFrom, Padded, Sibling, Depth;
    if level != [] { LevelsUnfold(level, combine); }
    if tree.levels == [] || leafIndex >= |tree.levels[0]| { return None; }
    var index: nat, siblings: seq<H> := leafIndex, [];
    ghost var current := level;
    assert tree.levels[0..] == tree.levels;
    assert siblings + ProofFrom(level, index, combine) == ProofFrom(level, index, combine);
    for k := 0 to |tree.levels| - 1
      invariant index < |current| && tree.levels[k..] == Levels(current, combine)
      invariant siblings + ProofFrom(current, index, combine) == ProofFrom(level, leafIndex, combine)
    {
      ProofStep(tree.levels[k..], siblings, current, index, combine);
      var here := tree.levels[k];
      var other := if index % 2 == 0 then index + 1 else index - 1;
      var sibling := if other < |here| then here[other] else here[|here| - 1];
      assert tree.levels[k..][1..] == tree.levels[k + 1..];
      siblings := siblings + [sibling];
      current := NextLevel(current, combine);
      index := index / 2;
    }
    LevelsUnfold(current, combine);
    ProofUnfolds(current, index, combine);
    assert |current| == 1 by { assert |tree.levels[|tree.levels| - 1..]| == 1; }
    assert siblings + [] == siblings;
    proof := Some(MerkleProof(siblings, leafIndex));
  }

  /** One level of the walk: the sibling taken extends the path to the node above. */
  lemma {:induction false} ProofStep<H>(levels: seq<seq<H>>, siblings: seq<H>, level: seq<H>, index: nat,
                                        combine: (H, H) -> H)
    requires index < |level| && levels == Levels(level, combine) && |levels| > 1
    ensures levels[0] == level && levels[1..] == Levels(NextLevel(level, combine), combine)
    ensures index / 2 < |NextLevel(level, combine)|
    ensures var other := if index % 2 == 0 then index + 1 else index - 1;
            var sibling := if other < |level| then level[other] else level[|level| - 1];
            siblings + ProofFrom(level, index, combine) ==
            siblings + [sibling] + ProofFrom(NextLevel(level, combine), index / 2, combine)
  {
    hide Levels, NextLevel, ProofFrom, Padded, Sibling;
    LevelsUnfold(level, combine);
    ProofUnfolds(level, index, combine);
    SiblingIs(level, index);
    Regroup(siblings, Sibling(level, index), ProofFrom(NextLevel(level, combine), index / 2, combine));
  }

  lemma Regroup<H>(before: seq<H>, x: H, after: seq<H>)
    ensures before + ([x] + after) == before + [x] + after
  {}

  lemma SiblingIs<H>(level: seq<H>, index: nat)
    requires index < |level|
    ensures Sibling(level, index) ==
            if index % 2 == 1 then level[index - 1]
            else if index + 1 < |level| then level[index + 1] else level[|level| - 1]
  {}

  lemma {:induction false} ProofUnfolds<H>(level: seq<H>, index: nat, combine: (H, H) -> H)
    requires index < |level|
    ensures |level| == 1 ==> ProofFrom(level, index, combine) == []
    ensures |level| > 1 ==>
              && index / 2 < |NextLevel(level, combine)|
              && ProofFrom(level, index, combine) ==
                 [Sibling(level, index)] + ProofFrom(NextLevel(level, combine), index / 2, combine)
  {}

  method Verify<D, H(==)>(proof: MerkleProof<H>, leaf: D, expectedRoot: H, leafHash: D -> H, combine: (H, H) -> H)
    returns (ok: bool)
    ensures ok <==> Fold(leafHash(leaf), proof.leafIndex, proof.siblings, combine) == expectedRoot
  {
    var computed, index := leafHash(leaf), proof.leafIndex;
    for k := 0 to |proof.siblings|
      invariant Fold(computed, index, proof.siblings[k..], combine)
                == Fold(leafHash(leaf), proof.leafIndex, proof.siblings, combine)
    {
      assert proof.siblings[k..][1..] == proof.siblings[k + 1..];
      var sibling := proof.siblings[k];
      computed := if index % 2 == 0 then combine(computed, sibling) else combine(sibling, computed);
      index := index / 2;
    }
    ok := computed == expectedRoot;
  }

  // ---------------------------------------------------------------- completeness

  /** A node and its sibling, on the side their positions say, make the parent. */
  lemma PairAt<H>(level: seq<H>, index: nat, combine: (H, H) -> H)
    requires |level| > 1 && index < |level|
    ensures var sibling := Sibling(level, index);
            && index / 2 < |NextLevel(level, combine)|
            && NextLevel(level, combine)[index / 2] ==
               if index % 2 == 0 then combine(level[index], sibling) else combine(sibling, level[index])
  {
    assert index == 2 * (index / 2) + index % 2;
  }

  lemma {:induction false} FoldUnfolds<H>(h: H, index: nat, sibling: H, rest: seq<H>, combine: (H, H) -> H)
    ensures Fold(h, index, [sibling] + rest, combine) ==
            Fold(if index % 2 == 0 then combine(h, sibling) else combine(sibling, h), index / 2, rest, combine)
  {
    assert ([sibling] + rest)[1..] == rest;
  }

  /** Every generated proof leads to the root. */
  lemma {:induction false} ProofVerifies<H>(level: seq<H>, index: nat, combine: (H, H) -> H)
    requires index < |level|
    ensures Fold(level[index], index, ProofFrom(level, index, combine), combine) == Root(level, combine)
    decreases |level|
  {
    if |level| > 1 {
      hide NextLevel, Fold, Sibling;
      var next := NextLevel(level, combine);
      PairAt(level, index, combine);
      FoldUnfolds(level[index], index, Sibling(level, index), ProofFrom(next, index / 2, combine), combine);
      ProofVerifies(next, index / 2, combine);
    }
  }

  /** The round trip of the interface: build, prove, verify. */
  method ProveAndVerify<D, H(==)>(leaves: seq<D>, index: nat, leafHash: D -> H, combine: (H, H) -> H) returns (ok: bool)
    requires index < |leaves|
    ensures ok
  {
    var tree := NewTree(leaves, leafHash, combine);
    ghost var level := LeafLevel(leaves, leafHash);
    var proof := GenerateProof(tree, level, index, combine);
    ProofVerifies(level, index, combine);
    ok := Verify(proof.value, leaves[index], tree.root.value, leafHash, combine);
  }

  // ---------------------------------------------------------------- soundness

  ghost predicate Injective<H(!new)>(combine: (H, H) -> H)
  {
    forall a, b, c, d :: combine(a, b) == combine(c, d) ==> a == c && b == d
  }

  ghost predicate InjectiveLeaf<D(!new), H>(leafHash: D -> H)
  {
    forall a, b :: leafHash(a) == leafHash(b) ==> a == b
  }

  lemma {:induction false} DepthUnfolds(n: nat)
    requires n > 1
    ensures Depth(n) == 1 + Depth((n + 1) / 2)
  {}

  /** A node of the next level combines two nodes of this one. */
  lemma NodeAt<H>(level: seq<H>, i: nat, combine: (H, H) -> H)
    requires |level| > 1 && i < |NextLevel(level, combine)|
    ensures exists a, b :: a in level && b in level && NextLevel(level, combine)[i] == combine(a, b)
  {
    assert NextLevel(level, combine)[i] == combine(Padded(level, 2 * i), Padded(level, 2 * i + 1));
  }

  /** A full-depth path that ends at the root starts at a node of the level, whatever index
      it claims; at an index in range it starts at that very node. */
  lemma {:induction false} AcceptedIsMember<H(!new)>(level: seq<H>, h: H, index: nat, siblings: seq<H>,
                                                       combine: (H, H) -> H)
    requires level != [] && Injective(combine) && |siblings| == Depth(|level|)
    requires Fold(h, index, siblings, combine) == Root(level, combine)
    ensures h in level && (index < |level| ==> h == level[index])
    decreases |level|
  {
    if |level| > 1 {
      hide NextLevel, Fold, Sibling, Depth;
      var next := NextLevel(level, combine);
      var up := if index % 2 == 0 then combine(h, siblings[0]) else combine(siblings[0], h);
      DepthUnfolds(|level|);
      assert siblings == [siblings[0]] + siblings[1..];
      FoldUnfolds(h, index, siblings[0], siblings[1..], combine);
      AcceptedIsMember(next, up, index / 2, siblings[1..], combine);
      var i :| 0 <= i < |next| && next[i] == up;
      NodeAt(level, i, combine);
      if index < |level| { PairAt(level, index, combine); }
    }
  }

  // ---------------------------------------------------------------- equal roots

  /** The leaf that stands at position j of the full tree over n leaves: where a level is odd,
      what lies right of its last node repeats that node. */
  function LeafAt(n: nat, j: nat): (i: nat)
    requires n >= 1
    ensures i < n
  {
    if n == 1 then 0
    else
      var i := 2 * LeafAt((n + 1) / 2, j / 2) + j % 2;
      if i < n then i else n - 1
  }

  /** The lists have the same leaf at every position of full trees of one depth. */
  ghost predicate SameTree<H>(xs: seq<H>, ys: seq<H>)
    requires xs != [] && ys != []
  {
    && Depth(|xs|) == Depth(|ys|)
    && forall j: nat :: j < Pow2(Depth(|xs|)) ==> xs[LeafAt(|xs|, j)] == ys[LeafAt(|ys|, j)]
  }

  /** Two nodes below position j of the level above stand at positions 2j and 2j + 1. */
  lemma {:induction false} AboveLeaf<H>(xs: seq<H>, j: nat, combine: (H, H) -> H)
    requires |xs| > 1
    ensures LeafAt((|xs| + 1) / 2, j) < |NextLevel(xs, combine)|
    ensures NextLevel(xs, combine)[LeafAt((|xs| + 1) / 2, j)]
            == combine(xs[LeafAt(|xs|, 2 * j)], xs[LeafAt(|xs|, 2 * j + 1)])
  {
    var i := LeafAt((|xs| + 1) / 2, j);
    assert (2 * j) / 2 == j && (2 * j + 1) / 2 == j;
    assert LeafAt(|xs|, 2 * j) == if 2 * i < |xs| then 2 * i else |xs| - 1;
    assert LeafAt(|xs|, 2 * j + 1) == if 2 * i + 1 < |xs| then 2 * i + 1 else |xs| - 1;
  }

  /** Trees that agree at every position agree one level up. */
  lemma {:induction false} SameAbove<H>(xs: seq<H>, ys: seq<H>, combine: (H, H) -> H)
    requires |xs| > 1 && |ys| > 1 && SameTree(xs, ys)
    ensures SameTree(NextLevel(xs, combine), NextLevel(ys, combine))
  {
    hide LeafAt, NextLevel;
    var up, vp := NextLevel(xs, combine), NextLevel(ys, combine);
    forall j: nat | j < Pow2(Depth(|up|)) ensures up[LeafAt(|up|, j)] == vp[LeafAt(|vp|, j)] {
      AboveLeaf(xs, j, combine);
      AboveLeaf(ys, j, combine);
    }
  }

  lemma {:induction false} SameBelow<H(!new)>(xs: seq<H>, ys: seq<H>, combine: (H, H) -> H)
    requires |xs| > 1 && |ys| > 1 && Injective(combine)
    requires SameTree(NextLevel(xs, combine), NextLevel(ys, combine))
    ensures SameTree(xs, ys)
  {
    hide LeafAt, NextLevel;
    forall j: nat | j < Pow2(Depth(|xs|)) ensures xs[LeafAt(|xs|, j)] == ys[LeafAt(|ys|, j)] {
      AboveLeaf(xs, j / 2, combine);
      AboveLeaf(ys, j / 2, combine);
      assert j == 2 * (j / 2) || j == 2 * (j / 2) + 1;
    }
  }

  /** Equal trees have equal roots, whatever the combiner. */
  lemma {:induction false} SameTreeSameRoot<H>(xs: seq<H>, ys: seq<H>, combine: (H, H) -> H)
    requires xs != [] && ys != [] && SameTree(xs, ys)
    ensures Root(xs, combine) == Root(ys, combine)
    decreases |xs|
  {
    if |xs| == 1 {
      assert xs[LeafAt(1, 0)] == ys[LeafAt(1, 0)];
    } else {
      hide SameTree, NextLevel;
      assert |ys| > 1 by { SameDepth(xs, ys); }
      SameAbove(xs, ys, combine);
      SameTreeSameRoot(NextLevel(xs, combine), NextLevel(ys, combine), combine);
    }
  }

  lemma {:induction false} SameDepth<H>(xs: seq<H>, ys: seq<H>)
    requires xs != [] && ys != [] && SameTree(xs, ys)
    ensures |xs| == 1 <==> |ys| == 1
  {}

  lemma {:induction false} SameRootSameTree<H(!new)>(xs: seq<H>, ys: seq<H>, combine: (H, H) -> H)
    requires xs != [] && ys != [] && Injective(combine) && Depth(|xs|) == Depth(|ys|)
    requires Root(xs, combine) == Root(ys, combine)
    ensures SameTree(xs, ys)
    decreases |xs|
  {
    if |xs| > 1 {
      hide SameTree, NextLevel;
      SameRootSameTree(NextLevel(xs, combine), NextLevel(ys, combine), combine);
      SameBelow(xs, ys, combine);
    }
  }

  /** The first n positions hold the n leaves in order. */
  lemma {:induction false} LeafAtItself(n: nat, j: nat)
    requires j < n
    ensures LeafAt(n, j) == j && j < Pow2(Depth(n))
  {
    if n > 1 { LeafAtItself((n + 1) / 2, j / 2); }
  }

  lemma {:induction false} SameTreeShared<H>(xs: seq<H>, ys: seq<H>)
    requires xs != [] && ys != [] && SameTree(xs, ys)
    ensures forall j :: 0 <= j < |xs| && j < |ys| ==> xs[j] == ys[j]
  {
    forall j: nat | j < |xs| && j < |ys| ensures xs[j] == ys[j] {
      LeafAtItself(|xs|, j);
      LeafAtItself(|ys|, j);
    }
  }

  /** Equal roots of lists of the same length force equal lists. */
  lemma {:induction false} EqualRootsSameLength<H(!new)>(xs: seq<H>, ys: seq<H>, combine: (H, H) -> H)
    requires xs != [] && |xs| == |ys| && Injective(combine)
    ensures Root(xs, combine) == Root(ys, combine) <==> xs == ys
  {
    if Root(xs, combine) == Root(ys, combine) {
      SameRootSameTree(xs, ys, combine);
      SameTreeShared(xs, ys);
    }
  }

  /** n is an odd number above one, doubled k times. */
  predicate OddAfter(n: nat, k: nat)
  {
    if k == 0 then n > 1 && n % 2 == 1 else n % 2 == 0 && OddAfter(n / 2, k - 1)
  }

  /** Adding a node right of an odd level's last one moves only the leaves of that node. */
  lemma {:induction false} LastTwice(n: nat, j: nat)
    requires n > 1 && n % 2 == 1
    ensures Depth(n + 1) == Depth(n)
    ensures LeafAt(n, j) == if LeafAt(n + 1, j) < n then LeafAt(n + 1, j) else n - 1
  {
    assert (n + 2) / 2 == (n + 1) / 2;
  }

  /** A tail of 2^k leaves that fills an odd level with one node stands twice in the tree. */
  lemma {:induction false} TailTwice(n: nat, k: nat, j: nat)
    requires OddAfter(n, k)
    ensures n >= Pow2(k) && Depth(n + Pow2(k)) == Depth(n)
    ensures LeafAt(n + Pow2(k), j) == LeafAt(n, j) + if LeafAt(n + Pow2(k), j) < n then 0 else Pow2(k)
  {
    hide LeafAt, Depth, Pow2, OddAfter;
    OddUnfolds(n, k);
    if k == 0 {
      LastTwice(n, j);
    } else {
      TailTwice(n / 2, k - 1, j / 2);
      var m, p := n / 2, Pow2(k - 1);
      assert n == 2 * m && n + Pow2(k) == 2 * (m + p);
      EvenStep(n, j);
      EvenStep(n + Pow2(k), j);
      assert (n + Pow2(k)) / 2 == m + p;
    }
  }

  lemma {:induction false} OddUnfolds(n: nat, k: nat)
    requires OddAfter(n, k)
    ensures k == 0 ==> n > 1 && n % 2 == 1 && Pow2(k) == 1
    ensures k > 0 ==> n > 0 && n % 2 == 0 && OddAfter(n / 2, k - 1) && Pow2(k) == 2 * Pow2(k - 1)
  {
    if k > 1 { OddUnfolds(n / 2, k - 1); }
  }

  lemma {:induction false} EvenStep(n: nat, j: nat)
    requires n > 0 && n % 2 == 0
    ensures Depth(n) == 1 + Depth(n / 2) && LeafAt(n, j) == 2 * LeafAt(n / 2, j / 2) + j % 2
  {
    assert (n + 1) / 2 == n / 2;
  }

  /** Without the length the root does not commit: repeating such a tail keeps the root. */
  lemma {:induction false} RepeatedTailCollides<H>(level: seq<H>, k: nat, combine: (H, H) -> H)
    requires OddAfter(|level|, k)
    ensures level != [] && Pow2(k) <= |level|
    ensures Root(level, combine) == Root(level + level[|level| - Pow2(k)..], combine)
  {
    hide LeafAt, Depth, Pow2, Root, OddAfter;
    TailTwice(|level|, k, 0);
    var longer := level + level[|level| - Pow2(k)..];
    forall j: nat ensures level[LeafAt(|level|, j)] == longer[LeafAt(|longer|, j)] {
      TailTwice(|level|, k, j);
    }
    SameTreeSameRoot(level, longer, combine);
  }

  /** In particular an odd list and the same list with its last element repeated. */
  lemma {:induction false} DuplicatedLastCollides<H>(level: seq<H>, combine: (H, H) -> H)
    requires |level| > 1 && |level| % 2 == 1
    ensures Root(level, combine) == Root(level + [level[|level| - 1]], combine)
  {
    RepeatedTailCollides(level, 0, combine);
    assert level[|level| - Pow2(0)..] == [level[|level| - 1]];
  }

  // ---------------------------------------------------------------- commitment

  /** No leaf hash is the hash of a pair. */
  ghost predicate Separated<D(!new), H(!new)>(leafHash: D -> H, combine: (H, H) -> H)
  {
    forall d, a, b :: leafHash(d) != combine(a, b)
  }

  lemma {:induction false} FoldLast<H>(h: H, siblings: seq<H>, combine: (H, H) -> H)
    requires siblings != []
    ensures Fold(h, 0, siblings, combine) ==
            combine(Fold(h, 0, siblings[..|siblings| - 1], combine), siblings[|siblings| - 1])
    decreases |siblings|
  {
    if |siblings| > 1 {
      FoldLast(combine(h, siblings[0]), siblings[1..], combine);
      assert siblings[1..][..|siblings| - 2] == siblings[..|siblings| - 1][1..];
    } else {
      assert siblings[..0] == [];
      assert siblings[1..] == [];
    }
  }

  /** Left spines of different height over leaf hashes cannot meet. */
  lemma {:induction false} SpineHeights<D(!new), H(!new)>(a: D, p: seq<H>, b: D, q: seq<H>, leafHash: D -> H,
                                          combine: (H, H) -> H)
    requires Injective(combine) && Separated(leafHash, combine)
    requires Fold(leafHash(a), 0, p, combine) == Fold(leafHash(b), 0, q, combine)
    ensures |p| == |q|
    decreases |p|
  {
    if p != [] { FoldLast(leafHash(a), p, combine); }
    if q != [] { FoldLast(leafHash(b), q, combine); }
    if p != [] && q != [] { SpineHeights(a, p[..|p| - 1], b, q[..|q| - 1], leafHash, combine); }
  }

  lemma {:induction false} EqualRootsSameDepth<D(!new), H(!new)>(xs: seq<D>, ys: seq<D>, leafHash: D -> H,
                                                 combine: (H, H) -> H)
    requires xs != [] && ys != [] && Injective(combine) && Separated(leafHash, combine)
    requires Root(LeafLevel(xs, leafHash), combine) == Root(LeafLevel(ys, leafHash), combine)
    ensures Depth(|xs|) == Depth(|ys|)
  {
    var ls, ms := LeafLevel(xs, leafHash), LeafLevel(ys, leafHash);
    ProofVerifies(ls, 0, combine);
    ProofVerifies(ms, 0, combine);
    SpineHeights(xs[0], ProofFrom(ls, 0, combine), ys[0], ProofFrom(ms, 0, combine), leafHash, combine);
  }

  /** Two lists of leaves have one root exactly when their trees agree at every position. */
  lemma EqualRootsIff<D(!new), H(!new)>(xs: seq<D>, ys: seq<D>, leafHash: D -> H, combine: (H, H) -> H)
    requires xs != [] && ys != []
    requires Injective(combine) && InjectiveLeaf(leafHash) && Separated(leafHash, combine)
    ensures Root(LeafLevel(xs, leafHash), combine) == Root(LeafLevel(ys, leafHash), combine) <==> SameTree(xs, ys)
  {
    hide Root, Depth, LeafAt;
    var ls, ms := LeafLevel(xs, leafHash), LeafLevel(ys, leafHash);
    assert SameTree(ls, ms) <==> SameTree(xs, ys);
    if Root(ls, combine) == Root(ms, combine) {
      EqualRootsSameDepth(xs, ys, leafHash, combine);
      SameRootSameTree(ls, ms, combine);
    }
    if SameTree(xs, ys) { SameTreeSameRoot(ls, ms, combine); }
  }

  /** On lists without repetition, as block validation demands, the root commits to the whole
      list, its length included. */
  lemma RootCommits<D(!new), H(!new)>(xs: seq<D>, ys: seq<D>, leafHash: D -> H, combine: (H, H) -> H)
    requires xs != [] && ys != [] && Distinct(xs) && Distinct(ys)
    requires Injective(combine) && InjectiveLeaf(leafHash) && Separated(leafHash, combine)
    ensures Root(LeafLevel(xs, leafHash), combine) == Root(LeafLevel(ys, leafHash), combine) <==> xs == ys
  {
    hide Root;
    EqualRootsIff(xs, ys, leafHash, combine);
    if SameTree(xs, ys) {
      LongerRepeats(xs, ys);
      LongerRepeats(ys, xs);
      SameTreeShared(xs, ys);
    }
  }

  lemma {:induction false} LongerRepeats<D(!new)>(xs: seq<D>, ys: seq<D>)
    requires xs != [] && ys != [] && SameTree(xs, ys) && Distinct(ys)
    ensures |ys| <= |xs|
  {
    if |xs| < |ys| {
      SameTreeShared(xs, ys);
      LeafAtItself(|ys|, |xs|);
    }
  }
}
