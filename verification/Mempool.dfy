/** The mempool: stored transactions and tracker kept in step through every operation. */
module Mempool {
  import opened Primitives
  import opened Collections
  import opened ChainTypes
  import opened BlockDag
  import opened Tracker
  import opened Selection
  import opened MempoolStorage

  // ---------------------------------------------------------------- graphs under removal

  ghost function WithoutAll(g: TxGraph, gone: set<TxId>): TxGraph
  {
    TxGraph(g.txs - gone, set l | l in g.links && l.parent !in gone && l.child !in gone)
  }

  /** The members of s and everything below them. */
  ghost function Doomed(g: TxGraph, s: set<TxId>): set<TxId>
  {
    set t | t in g.txs && (t in s || exists h :: h in s && IsAncestor(g.links, h, t))
  }

  lemma WithoutAllStep(g: TxGraph, gone: set<TxId>, t: TxId)
    ensures WithoutTx(WithoutAll(g, gone), t) == WithoutAll(g, gone + {t})
    ensures WithoutAll(g, {}) == g
  {
    assert WithoutAll(g, {}).links == g.links;
  }

  lemma WithoutAllTwice(g: TxGraph, s: set<TxId>, t: set<TxId>)
    ensures WithoutAll(WithoutAll(g, s), t) == WithoutAll(g, s + t)
  {}

  /** Links join tracked transactions. */
  ghost predicate Within(g: TxGraph) { forall l :: l in g.links ==> l.parent in g.txs && l.child in g.txs }

  lemma {:induction false} WalkInside(g: TxGraph, s: set<TxId>, p: seq<TxId>)
    requires LinkWalk(g.links, p)
    requires forall i :: 0 <= i < |p| ==> p[i] !in s
    ensures LinkWalk(WithoutAll(g, s).links, p)
  {
    forall i | 0 <= i < |p| - 1 ensures Link(p[i], p[i + 1]) in WithoutAll(g, s).links {
      assert p[i] !in s && p[i + 1] !in s;
    }
  }

  lemma WalkTail(links: set<Link>, p: seq<TxId>, i: nat)
    requires LinkWalk(links, p) && i < |p| - 1
    ensures IsAncestor(links, p[i], p[|p| - 1])
  {
    var q := p[i..];
    forall k | 0 <= k < |q| - 1 ensures Link(q[k], q[k + 1]) in links {
      assert Link(p[i + k], p[i + k + 1]) in links;
    }
    assert LinkWalk(links, q);
  }

  /** Ancestry among what is left is ancestry as it was, when whole subtrees were removed. */
  lemma AncestryLeft(g: TxGraph, s: set<TxId>, a: TxId, b: TxId)
    requires Within(g) && b !in Doomed(g, s)
    ensures IsAncestor(WithoutAll(g, Doomed(g, s)).links, a, b) <==> IsAncestor(g.links, a, b)
  {
    var gone := Doomed(g, s);
    if IsAncestor(g.links, a, b) {
      var p :| LinkWalk(g.links, p) && p[0] == a && p[|p| - 1] == b;
      forall i | 0 <= i < |p| ensures p[i] !in gone {
        if i < |p| - 1 {
          WalkTail(g.links, p, i);
          assert Link(p[|p| - 2], p[|p| - 1]) in g.links;
          if p[i] in gone { DoomedBelow(g, s, p[i], b); }
        }
      }
      WalkInside(g, gone, p);
    }
    if IsAncestor(WithoutAll(g, gone).links, a, b) {
      var p :| LinkWalk(WithoutAll(g, gone).links, p) && p[0] == a && p[|p| - 1] == b;
      assert forall i :: 0 <= i < |p| - 1 ==> Link(p[i], p[i + 1]) in WithoutAll(g, gone).links;
      assert LinkWalk(g.links, p);
    }
  }

  lemma JoinWalks(links: set<Link>, a: TxId, b: TxId, c: TxId)
    requires IsAncestor(links, a, b) && IsAncestor(links, b, c)
    ensures IsAncestor(links, a, c)
  {
    var p :| LinkWalk(links, p) && p[0] == a && p[|p| - 1] == b;
    var q :| LinkWalk(links, q) && q[0] == b && q[|q| - 1] == c;
    var r := p + q[1..];
    forall i | 0 <= i < |r| - 1 ensures Link(r[i], r[i + 1]) in links {
      if i < |p| - 1 {
        assert Link(p[i], p[i + 1]) in links;
      } else {
        assert Link(q[i - (|p| - 1)], q[i - (|p| - 1) + 1]) in links;
      }
    }
    assert LinkWalk(links, r);
  }

  lemma DoomedBelow(g: TxGraph, s: set<TxId>, a: TxId, b: TxId)
    requires a in Doomed(g, s) && IsAncestor(g.links, a, b) && b in g.txs
    ensures b in Doomed(g, s)
  {
    hide IsAncestor;
    if a !in s {
      var h :| h in s && IsAncestor(g.links, h, a);
      JoinWalks(g.links, h, a, b);
    }
  }

  lemma AncestorInside(g: TxGraph, a: TxId, b: TxId)
    requires Within(g) && IsAncestor(g.links, a, b)
    ensures a in g.txs && b in g.txs
  {
    var p :| LinkWalk(g.links, p) && p[0] == a && p[|p| - 1] == b;
    assert Link(p[0], p[1]) in g.links && Link(p[|p| - 2], p[|p| - 1]) in g.links;
  }

  /** Removing one subtree after another removes the union of the subtrees. */
  lemma DoomedStep(g: TxGraph, s: set<TxId>, h: TxId)
    requires Within(g)
    ensures Doomed(g, s) + Doomed(WithoutAll(g, Doomed(g, s)), {h}) == Doomed(g, s + {h})
  {
    hide IsAncestor;
    var gone := Doomed(g, s);
    var left := WithoutAll(g, gone);
    forall t | t in g.txs ensures t in gone + Doomed(left, {h}) <==> t in Doomed(g, s + {h}) {
      if t !in gone { AncestryLeft(g, s, h, t); }
    }
  }

  /** No transaction is left behind by one it depends on. */
  lemma NothingOrphaned(g: TxGraph, s: set<TxId>, l: Link)
    requires Within(g) && l in g.links && l.child in g.txs - Doomed(g, s)
    ensures l.parent in g.txs - Doomed(g, s)
  {
    assert LinkWalk(g.links, [l.parent, l.child]);
    if l.parent in Doomed(g, s) { DoomedBelow(g, s, l.parent, l.child); }
  }

  // ---------------------------------------------------------------- conflicts and fees

  /** Stored transactions that spend an input of tx. */
  ghost function ConflictsOf(pool: Pool, tx: Transaction): set<TxId>
  {
    set h | h in pool && exists op :: op in InputsOf(tx) && Spends(pool, h, op)
  }

  ghost function FeeOf(pool: Pool): TxId -> nat { t => if t in pool then pool[t].fee else 0 }

  ghost function Descendants(g: TxGraph, c: TxId): set<TxId>
  {
    set d | d in g.txs && IsAncestor(g.links, c, d)
  }

  /** A conflict's own fee and those of everything tracked below it. */
  ghost function Burden(pool: Pool, g: TxGraph, c: TxId): nat
  {
    FeeOf(pool)(c) + SetSum(Descendants(g, c), FeeOf(pool))
  }

  /** A replacement answers once for the conflict and once for every transaction below it. */
  lemma BurdenCounts(pool: Pool, g: TxGraph, c: TxId)
    requires c in pool && g.txs <= pool.Keys
    ensures Descendants(g, c) == {} ==> Burden(pool, g, c) == pool[c].fee
    ensures forall d :: d in g.txs && IsAncestor(g.links, c, d) ==>
              Burden(pool, g, c) == pool[c].fee + pool[d].fee + SetSum(Descendants(g, c) - {d}, FeeOf(pool))
  {
    hide IsAncestor;
    forall d | d in g.txs && IsAncestor(g.links, c, d)
      ensures Burden(pool, g, c) == pool[c].fee + pool[d].fee + SetSum(Descendants(g, c) - {d}, FeeOf(pool))
    {
      SetSumAdd(Descendants(g, c) - {d}, FeeOf(pool), d);
      assert Descendants(g, c) - {d} + {d} == Descendants(g, c);
    }
  }

  ghost function BurdenOf(pool: Pool, g: TxGraph): TxId -> nat { c => Burden(pool, g, c) }

  function Saturated(n: nat): u64 { if n <= U64_MAX then n else U64_MAX }

  /** The fee reaches what `required` asks for the fees evicted and the number of conflicts. */
  ghost predicate Outbids(pool: Pool, g: TxGraph, conflicts: set<TxId>, fee: u64, required: (u64, nat) -> u64)
  {
    conflicts == {} || fee >= required(Saturated(SetSum(conflicts, BurdenOf(pool, g))), |conflicts|)
  }

  /** Links a transaction gets when it enters: one from each stored creator of an input. */
  ghost function ParentLinks(pool: Pool, tx: Transaction): set<Link>
  {
    set op | op in InputsOf(tx) && Created(pool, op) :: Link(op.txid, tx.data.Hash())
  }

  /** Every link is a real dependency. */
  ghost predicate LinksReal(links: set<Link>, pool: Pool)
  {
    forall l :: l in links ==>
      && l.parent in pool && l.child in pool
      && exists op :: op in InputsOf(pool[l.child].transaction) && op.txid == l.parent && Created(pool, op)
  }

  lemma NotOwnInput(tx: Transaction, op: OutPoint)
    requires op in InputsOf(tx)
    ensures op.txid != tx.data.Hash()
  {
    var k :| 0 <= k < |tx.data.inputs| && tx.data.inputs[k].previousOutput == op;
    assert tx.data decreases to tx.data.inputs;
    var input := tx.data.inputs[k];
    assert tx.data.inputs decreases to input;
    assert input decreases to op.txid.preimage;
  }

  lemma LinksRealLess(links: set<Link>, pool: Pool, gone: set<TxId>)
    requires LinksReal(links, pool)
    ensures LinksReal((set l | l in links && l.parent !in gone && l.child !in gone), pool - gone)
  {
    hide InputsOf;
  }

  lemma LinksRealMore(links: set<Link>, pool: Pool, tx: Transaction, entry: MemPoolTx)
    requires LinksReal(links, pool) && tx.data.Hash() !in pool && entry.transaction == tx
    ensures var pool' := pool[tx.data.Hash() := entry]; LinksReal(links + ParentLinks(pool', tx), pool')
  {
    hide InputsOf;
  }

  /** Every dependency between stored transactions has its link. */
  ghost predicate LinksComplete(links: set<Link>, pool: Pool)
  {
    forall h, op :: Spends(pool, h, op) && Created(pool, op) ==> Link(op.txid, h) in links
  }

  /** Removal leaves no dependency without its link. */
  lemma CompleteLess(links: set<Link>, pool: Pool, gone: set<TxId>)
    requires LinksComplete(links, pool)
    ensures LinksComplete((set l | l in links && l.parent !in gone && l.child !in gone), pool - gone)
  {
    hide InputsOf;
    var left := pool - gone;
    forall h, op | Spends(left, h, op) && Created(left, op) ensures Link(op.txid, h) in links {
      assert Spends(pool, h, op) && Created(pool, op);
    }
  }

  /** An admission keeps the links complete exactly when no stored transaction spends an output
      of the new one: a parent that arrives after its child gets no link. */
  lemma CompleteMoreIff(links: set<Link>, pool: Pool, tx: Transaction, entry: MemPoolTx)
    requires LinksReal(links, pool) && LinksComplete(links, pool)
    requires tx.data.Hash() !in pool && entry.transaction == tx
    ensures var pool' := pool[tx.data.Hash() := entry];
            LinksComplete(links + ParentLinks(pool', tx), pool') <==>
            forall h, op :: Spends(pool, h, op) ==> op.txid != tx.data.Hash() || op.vout >= |tx.data.outputs|
  {
    hide InputsOf;
    var hash := tx.data.Hash();
    var pool', links' := pool[hash := entry], links + ParentLinks(pool[hash := entry], tx);
    assert forall h, op :: Spends(pool', h, op) <==> Spends(pool, h, op) || (h == hash && op in InputsOf(tx));
    assert forall op :: Created(pool', op) <==>
      Created(pool, op) || (op.txid == hash && op.vout < |tx.data.outputs|);
    if LinksComplete(links', pool') {
      forall h, op | Spends(pool, h, op) ensures op.txid != hash || op.vout >= |tx.data.outputs| {
        assert Link(hash, h) !in links';
        assert Spends(pool', h, op);
      }
    }
  }

  datatype AddError = DuplicateTransaction | PoolFull | Invalid | DoubleSpend | InsufficientFee

  lemma TrackedWithin(t: DependencyTracker)
    requires t.Valid()
    ensures Within(t.Graph())
  {}

  lemma TrackedNodes(t: DependencyTracker)
    requires t.Valid()
    ensures forall x :: x in t.nodes <==> x in t.Graph().txs
  {}

  lemma SpentByNone(pool: Pool, tx: Transaction)
    requires Unspent(pool, tx)
    ensures SpentByNoOther(pool, tx)
  {}

  lemma NothingDoomed(g: TxGraph)
    ensures Doomed(g, {}) == {} && WithoutAll(g, {}) == g
  {
    assert WithoutAll(g, {}).links == g.links;
  }

  lemma RemovedDoomed(g: TxGraph, hash: TxId, descendants: seq<TxId>)
    requires Within(g) && forall d :: d in descendants <==> IsAncestor(g.links, hash, d)
    ensures WithoutAll(g, Elements(descendants + [hash])) == WithoutAll(g, Doomed(g, {hash}))
    ensures forall t :: t in g.txs ==> (t in descendants + [hash] <==> t in Doomed(g, {hash}))
  {
    hide IsAncestor;
  }

  lemma DescendantsListed(g: TxGraph, c: TxId, descendants: seq<TxId>)
    requires Within(g) && forall d :: d in descendants <==> IsAncestor(g.links, c, d)
    ensures Elements(descendants) == Descendants(g, c)
  {
    hide IsAncestor;
    forall d | d in descendants ensures d in g.txs { AncestorInside(g, c, d); }
  }

  lemma DoomedOne(g: TxGraph, s: set<TxId>, c: TxId)
    requires c in g.txs
    ensures Doomed(g, s + {c}) == Doomed(g, s) + {c} + Descendants(g, c)
  {
    hide IsAncestor;
  }

  lemma NoFees(f: TxId -> nat)
    ensures Elements<TxId>([]) == {} && SetSum({}, f) == 0
  {}

  /** The stored creators of the outpoints, in their order. */
  ghost function Creators(pool: Pool, ops: seq<OutPoint>): seq<TxId>
  {
    if ops == [] then []
    else
      var before, op := Creators(pool, ops[..|ops| - 1]), ops[|ops| - 1];
      if Created(pool, op) then before + [op.txid] else before
  }

  lemma {:induction false} CreatorsAre(pool: Pool, ops: seq<OutPoint>)
    ensures forall p :: p in Creators(pool, ops) <==> exists op :: op in ops && Created(pool, op) && op.txid == p
  {
    if ops != [] {
      CreatorsAre(pool, ops[..|ops| - 1]);
      assert ops == ops[..|ops| - 1] + [ops[|ops| - 1]];
      assert ops[|ops| - 1] in ops;
    }
  }

  lemma {:induction false} ParentsAreLinks(pool: Pool, tx: Transaction, g: TxGraph)
    requires g.txs + {tx.data.Hash()} == pool.Keys
    ensures var parents := Creators(pool, InputsOf(tx));
            tx.data.Hash() !in parents
            && WithTx(g, tx.data.Hash(), parents).links == g.links + ParentLinks(pool, tx)
  {
    CreatorsAre(pool, InputsOf(tx));
    hide Creators;
    forall op | op in InputsOf(tx) ensures op.txid != tx.data.Hash() { NotOwnInput(tx, op); }
    hide InputsOf;
  }

  /** Once its conflicts and their descendants are gone, nothing stored spends an input of tx. */
  lemma ConflictsGone(g: TxGraph, pool: Pool, tx: Transaction)
    requires g.txs == pool.Keys
    ensures ConflictsOf(pool, tx) <= pool.Keys
    ensures Unspent(pool - Doomed(g, ConflictsOf(pool, tx)), tx)
  {
    hide IsAncestor, InputsOf;
    var left := pool - Doomed(g, ConflictsOf(pool, tx));
    forall h, op | op in InputsOf(tx) && h in left ensures !Spends(left, h, op) {
      assert Spends(left, h, op) ==> Spends(pool, h, op);
      assert Spends(pool, h, op) ==> h in ConflictsOf(pool, tx);
    }
  }

  lemma NoBurden(pool: Pool, g: TxGraph)
    ensures SetSum({}, BurdenOf(pool, g)) == 0 && Doomed(g, {}) == {}
  {}

  lemma {:induction false} AffectedStep(pool: Pool, g: TxGraph, done: set<TxId>, c: TxId, descendants: seq<TxId>)
    requires Within(g) && c in g.txs && c in pool && c !in done
    requires forall d :: d in descendants <==> IsAncestor(g.links, c, d)
    ensures SetSum(done + {c}, BurdenOf(pool, g)) ==
            SetSum(done, BurdenOf(pool, g)) + pool[c].fee + SetSum(Elements(descendants), FeeOf(pool))
    ensures Doomed(g, done + {c}) == Doomed(g, done) + {c} + Elements(descendants)
  {
    hide IsAncestor, SetSum;
    DescendantsListed(g, c, descendants);
    SetSumAdd(done, BurdenOf(pool, g), c);
    DoomedOne(g, done, c);
  }

  lemma FeeStep(pool: Pool, hashes: seq<TxId>, k: nat)
    requires Distinct(hashes) && k < |hashes|
    ensures SetSum(Elements(hashes[..k + 1]), FeeOf(pool))
              == SetSum(Elements(hashes[..k]), FeeOf(pool)) + FeeOf(pool)(hashes[k])
  {
    assert hashes[..k + 1] == hashes[..k] + [hashes[k]];
    PrefixOfDistinct(hashes, hashes[..k + 1]);
    DistinctAppend(hashes[..k], hashes[k]);
    assert Elements(hashes[..k + 1]) == Elements(hashes[..k]) + {hashes[k]};
    SetSumAdd(Elements(hashes[..k]), FeeOf(pool), hashes[k]);
  }

  /** Saturating sum of the fees of a list of transactions onto a running total. */
  method AddFees(pool: Pool, total: u64, hashes: seq<TxId>) returns (sum: u64)
    requires Distinct(hashes)
    ensures sum == Saturated(total + SetSum(Elements(hashes), FeeOf(pool)))
  {
    sum := total;
    NoFees(FeeOf(pool));
    for k := 0 to |hashes|
      invariant sum == Saturated(total + SetSum(Elements(hashes[..k]), FeeOf(pool)))
    {
      FeeStep(pool, hashes, k);
      if hashes[k] in pool {
        sum := Saturated(sum + pool[hashes[k]].fee);
      }
      hide *;
    }
    assert hashes[..|hashes|] == hashes;
  }

  // ---------------------------------------------------------------- selection

  ghost predicate Reorders(s: seq<TxId>, r: seq<TxId>)
  {
    (forall t :: t in r <==> t in s) && (Distinct(s) ==> Distinct(r))
  }

  ghost predicate AncestorClosed(g: TxGraph, s: set<TxId>)
  {
    forall a, t :: t in s && IsAncestor(g.links, a, t) ==> a in s
  }

  /** The listed transactions are the chosen ones, in order. */
  ghost predicate Fetched(pool: Pool, chosen: seq<TxId>, result: seq<Transaction>)
  {
    && |chosen| == |result|
    && forall i :: 0 <= i < |chosen| ==> chosen[i] in pool && pool[chosen[i]].transaction == result[i]
  }

  /** Adding a transaction with all its ancestors keeps a set closed. */
  lemma PackageCloses(g: TxGraph, selected: set<TxId>, tx: TxId, package: seq<TxId>)
    requires AncestorClosed(g, selected)
    requires forall a :: a in package <==> (a == tx || IsAncestor(g.links, a, tx)) && a !in selected
    ensures AncestorClosed(g, selected + Elements(package))
  {
    hide IsAncestor;
    forall a, t | t in selected + Elements(package) && IsAncestor(g.links, a, t)
      ensures a in selected + Elements(package)
    {
      if t !in selected && t != tx { JoinWalks(g.links, a, t, tx); }
    }
  }

  /** A package that is new to the selection fits beside it among all stored transactions. */
  lemma PackageFits(pool: Pool, selected: set<TxId>, package: seq<TxId>)
    requires selected <= pool.Keys && Distinct(package) && forall t :: t in package ==> t in pool && t !in selected
    ensures |selected| + |package| <= |pool|
  {
    DistinctSize(package);
    SubsetSize(selected + Elements(package), pool.Keys);
  }

  lemma FullSelection(pool: Pool, selected: set<TxId>)
    requires selected <= pool.Keys && |selected| >= |pool|
    ensures selected == pool.Keys
  {
    if selected != pool.Keys { StrictSubsetSize(selected, pool.Keys); }
  }

  /** Appends a package to the result. */
  method Include(pool: Pool, package: seq<TxId>, selected: set<TxId>, result: seq<Transaction>, ghost chosen: seq<TxId>)
    returns (selected': set<TxId>, result': seq<Transaction>)
    requires Distinct(package) && forall t :: t in package ==> t in pool && t !in selected
    requires Distinct(chosen) && Elements(chosen) == selected && Fetched(pool, chosen, result)
    ensures selected' == selected + Elements(package)
    ensures Distinct(chosen + package) && Elements(chosen + package) == selected'
              && Fetched(pool, chosen + package, result')
  {
    selected', result' := selected, result;
    for k := 0 to |package|
      invariant selected' == selected + Elements(package[..k])
      invariant Fetched(pool, chosen + package[..k], result')
    {
      var hash := package[k];
      assert hash in package && package[..k + 1] == package[..k] + [hash];
      PrefixOfDistinct(package, package[..k + 1]);
      DistinctAppend(package[..k], hash);
      if hash !in selected' {
        selected' := selected' + {hash};
        if hash in pool { result' := result' + [pool[hash].transaction]; }
      }
    }
    assert package[..|package|] == package;
    DistinctConcat(chosen, package);
  }

  /** State of the selection loop. */
  ghost predicate Picked(g: TxGraph, pool: Pool, chosen: seq<TxId>, result: seq<Transaction>, selected: set<TxId>)
  {
    && Distinct(chosen) && Elements(chosen) == selected && Fetched(pool, chosen, result)
    && |result| == |selected| && selected <= pool.Keys
    && AncestorClosed(g, selected)
  }

  lemma NothingPicked(pool: Pool, g: TxGraph)
    ensures Picked(g, pool, [], [], {})
  {
    assert Elements<TxId>([]) == {};
  }

  lemma PickedSize(g: TxGraph, pool: Pool, chosen: seq<TxId>, result: seq<Transaction>, selected: set<TxId>)
    requires Picked(g, pool, chosen, result, selected)
    ensures |chosen| == |result| == |selected| && selected <= pool.Keys && Elements(chosen) == selected
    ensures Distinct(chosen) && Fetched(pool, chosen, result) && AncestorClosed(g, Elements(chosen))
  {}

  lemma FullTaken(g: TxGraph, pool: Pool, chosen: seq<TxId>, result: seq<Transaction>, selected: set<TxId>, limit: nat)
    requires Picked(g, pool, chosen, result, selected) && |result| == limit
    ensures limit >= |pool| ==> selected == pool.Keys
  {
    if limit >= |pool| { FullSelection(pool, selected); }
  }

  lemma AllTaken(g: TxGraph, pool: Pool, chosen: seq<TxId>, result: seq<Transaction>, selected: set<TxId>,
                 ranked: seq<TxId>, limit: nat)
    requires Picked(g, pool, chosen, result, selected) && forall t :: t in pool ==> t in ranked
    requires limit >= |pool| ==> forall k :: 0 <= k < |ranked| ==> ranked[k] in selected
    ensures limit >= |pool| ==> selected == pool.Keys
  {}

  lemma PackageSize(selected: set<TxId>, package: seq<TxId>)
    requires Distinct(package) && forall t :: t in package ==> t !in selected
    ensures |selected + Elements(package)| == |selected| + |package|
  {
    DistinctSize(package);
  }

  lemma RankedAre(g: TxGraph, order: seq<TxId>, ranked: seq<TxId>)
    requires ParentsFirst(g, order) && Reorders(order, ranked)
    ensures forall t :: t in ranked <==> t in g.txs
  {}

  lemma AncestorsStored(g: TxGraph, pool: Pool, tx: TxId, gathered: seq<TxId>)
    requires Within(g) && g.txs == pool.Keys && tx in g.txs
    requires forall a :: a in gathered <==> a == tx || IsAncestor(g.links, a, tx)
    ensures forall a :: a in gathered ==> a in pool
  {
    hide IsAncestor;
    forall a | IsAncestor(g.links, a, tx) ensures a in pool { AncestorInside(g, a, tx); }
  }

  lemma ChosenSize(pool: Pool, chosen: seq<TxId>, result: seq<Transaction>, selected: set<TxId>)
    requires Distinct(chosen) && Elements(chosen) == selected && Fetched(pool, chosen, result)
    ensures |result| == |selected| == |chosen| && selected <= pool.Keys
  {
    DistinctSize(chosen);
  }

  /** A set in some order. */
  method Listed(s: set<TxId>) returns (order: seq<TxId>)
    ensures Elements(order) == s
  {
    order := [];
    var left := s;
    while left != {}
      invariant left <= s && Elements(order) == s - left
      decreases left
    {
      var t :| t in left;
      assert Elements(order + [t]) == Elements(order) + {t};
      order := order + [t];
      left := left - {t};
    }
  }

  // ---------------------------------------------------------------- the pool

  class MemPool {
    const storage: TransactionStorage
    const tracker: DependencyTracker
    const maxSize: nat
    const expiryTime: u64
    const rbfDisabled: bool

    ghost predicate Valid()
      reads storage, tracker
    {
      && storage.Valid() && tracker.Valid()
      && tracker.Graph().txs == storage.transactions.Keys
      && LinksReal(tracker.Graph().links, storage.transactions)
    }

    constructor (maxSize: nat, expiryTime: u64, rbfDisabled: bool)
      ensures Valid() && storage.transactions == map[] && fresh(storage) && fresh(tracker)
    {
      storage := new TransactionStorage();
      tracker := new DependencyTracker();
      this.maxSize, this.expiryTime, this.rbfDisabled := maxSize, expiryTime, rbfDisabled;
    }

    method RemoveStored(hash: TxId)
      requires Valid()
      modifies storage, tracker
      ensures Valid() && storage.transactions == old(storage.transactions) - {hash}
      ensures tracker.Graph() == WithoutTx(old(tracker.Graph()), hash)
    {
      hide LinksReal, TransactionStorage.Valid, DependencyTracker.Valid, DependencyTracker.Graph;
      LinksRealLess(tracker.Graph().links, storage.transactions, {hash});
      storage.Remove(hash);
      tracker.RemoveTransaction(hash);
      assert WithoutTx(old(tracker.Graph()), hash) == WithoutAll(old(tracker.Graph()), {hash});
    }

    method RemoveEach(hashes: seq<TxId>)
      requires Valid()
      modifies storage, tracker
      ensures Valid() && storage.transactions == old(storage.transactions) - Elements(hashes)
      ensures tracker.Graph() == WithoutAll(old(tracker.Graph()), Elements(hashes))
    {
      hide WithoutAll, WithoutTx, LinksReal, TransactionStorage.Valid, DependencyTracker.Valid, DependencyTracker.Graph;
      ghost var g := tracker.Graph();
      NothingDoomed(g);
      assert Elements(hashes[..0]) == {};
      for k := 0 to |hashes|
        invariant Valid() && storage.transactions == old(storage.transactions) - Elements(hashes[..k])
        invariant tracker.Graph() == WithoutAll(g, Elements(hashes[..k]))
      {
        assert hashes[..k + 1] == hashes[..k] + [hashes[k]];
        assert Elements(hashes[..k + 1]) == Elements(hashes[..k]) + {hashes[k]};
        WithoutAllStep(g, Elements(hashes[..k]), hashes[k]);
        RemoveStored(hashes[k]);
      }
      assert hashes[..|hashes|] == hashes;
    }

    /** Removes a transaction and all that is tracked below it. */
    method RemoveTransaction(hash: TxId)
      requires Valid()
      modifies storage, tracker
      ensures Valid()
      ensures var gone := Doomed(old(tracker.Graph()), {hash});
              && storage.transactions == old(storage.transactions) - gone
              && tracker.Graph() == WithoutAll(old(tracker.Graph()), gone)
    {
      ghost var g := tracker.Graph();
      var descendants := tracker.GetDescendants(hash);
      TrackedWithin(tracker);
      RemoveEach(descendants + [hash]);
      RemovedDoomed(g, hash, descendants);
    }

    /** Confirmed transactions go; what is tracked below them stays. */
    method UpdateOnBlock(block: seq<Transaction>)
      requires Valid()
      modifies storage, tracker
      ensures Valid()
      ensures var gone := set tx | tx in block :: tx.data.Hash();
              && storage.transactions == old(storage.transactions) - gone
              && tracker.Graph() == WithoutAll(old(tracker.Graph()), gone)
    {
      var hashes := seq(|block|, i requires 0 <= i < |block| => block[i].data.Hash());
      RemoveEach(hashes);
      assert Elements(hashes) == set tx | tx in block :: tx.data.Hash() by {
        forall tx | tx in block ensures tx.data.Hash() in hashes {
          var i :| 0 <= i < |block| && block[i] == tx;
          assert hashes[i] == tx.data.Hash();
        }
      }
    }

    predicate IsExpired(entry: MemPoolTx, now: u64)
    {
      (if now >= entry.timestamp then now - entry.timestamp else 0) > expiryTime
    }

    /** Expired transactions go, each with all that was tracked below it. */
    method CleanupExpired(now: u64)
      requires Valid()
      modifies storage, tracker
      ensures Valid()
      ensures var pool := old(storage.transactions);
              var expired := set h | h in pool && now > pool[h].timestamp + expiryTime;
              var gone := Doomed(old(tracker.Graph()), expired);
              && storage.transactions == old(storage.transactions) - gone
              && tracker.Graph() == WithoutAll(old(tracker.Graph()), gone)
    {
      hide WithoutAll, Doomed, LinksReal, TransactionStorage.Valid, DependencyTracker.Valid, DependencyTracker.Graph;
      ghost var g := tracker.Graph();
      TrackedWithin(tracker);
      var expired := set h | h in storage.transactions && IsExpired(storage.transactions[h], now);
      assert expired == set h | h in storage.transactions && now > storage.transactions[h].timestamp + expiryTime;
      var left, done: set<TxId> := expired, {};
      NothingDoomed(g);
      while left != {}
        invariant done + left == expired && done !! left
        invariant Valid() && storage.transactions == old(storage.transactions) - Doomed(g, done)
        invariant tracker.Graph() == WithoutAll(g, Doomed(g, done))
        decreases left
      {
        var hash :| hash in left;
        DoomedStep(g, done, hash);
        WithoutAllTwice(g, Doomed(g, done), Doomed(tracker.Graph(), {hash}));
        RemoveTransaction(hash);
        left, done := left - {hash}, done + {hash};
      }
    }

    // -------------------------------------------------------------- replacement

    method FindConflicts(tx: Transaction) returns (conflicts: set<TxId>)
      requires Valid()
      ensures conflicts == ConflictsOf(storage.transactions, tx)
    {
      hide LinksReal, DependencyTracker.Valid, DependencyTracker.Graph, InputsOf, CreationExact, Keyed;
      var ops := InputsOf(tx);
      conflicts := {};
      for k := 0 to |ops|
        invariant forall h :: h in conflicts <==> exists op :: op in ops[..k] && Spends(storage.transactions, h, op)
      {
        assert ops[..k + 1] == ops[..k] + [ops[k]];
        assert ops[k] in ops[..k + 1];
        if ops[k] in storage.inputSpendingIndex {
          conflicts := conflicts + {storage.inputSpendingIndex[ops[k]]};
        }
      }
      assert ops[..|ops|] == ops;
    }

    /** First loop of resolve_conflicts: what the replacement has to outbid and evict. */
    method Affected(conflicts: set<TxId>) returns (total: u64, affected: set<TxId>)
      requires Valid() && conflicts <= storage.transactions.Keys
      ensures total == Saturated(SetSum(conflicts, BurdenOf(storage.transactions, tracker.Graph())))
      ensures affected == Doomed(tracker.Graph(), conflicts)
    {
      hide IsAncestor, LinksReal, TransactionStorage.Valid, DependencyTracker.Valid, DependencyTracker.Graph, Distinct,
        SetSum, BurdenOf, Doomed, FeeOf, Elements;
      ghost var pool, g := storage.transactions, tracker.Graph();
      TrackedWithin(tracker);
      NoBurden(pool, g);
      total, affected := 0, {};
      var left := conflicts;
      assert conflicts - left == {};
      while left != {}
        invariant left <= conflicts
        invariant total == Saturated(SetSum(conflicts - left, BurdenOf(pool, g)))
        invariant affected == Doomed(g, conflicts - left)
        decreases left
      {
        var c :| c in left;
        var descendants := tracker.GetDescendants(c);
        AffectedStep(pool, g, conflicts - left, c, descendants);
        assert conflicts - left + {c} == conflicts - (left - {c});
        total := Saturated(total + storage.transactions[c].fee);
        total := AddFees(storage.transactions, total, descendants);
        affected := affected + {c} + Elements(descendants);
        left := left - {c};
      }
      assert conflicts - {} == conflicts;
    }

    method ResolveConflicts(conflicts: set<TxId>, newFee: u64, required: (u64, nat) -> u64) returns (ok: bool)
      requires Valid() && conflicts <= storage.transactions.Keys
      modifies storage, tracker
      ensures Valid()
      ensures ok <==> Outbids(old(storage.transactions), old(tracker.Graph()), conflicts, newFee, required)
      ensures var burden := SetSum(conflicts, BurdenOf(old(storage.transactions), old(tracker.Graph())));
              ok <==> conflicts == {} || required(if burden <= U64_MAX then burden else U64_MAX, |conflicts|) <= newFee
      ensures var gone := if ok then Doomed(old(tracker.Graph()), conflicts) else {};
              && storage.transactions == old(storage.transactions) - gone
              && tracker.Graph() == WithoutAll(old(tracker.Graph()), gone)
    {
      hide LinksReal, TransactionStorage.Valid, DependencyTracker.Valid, DependencyTracker.Graph, Doomed, WithoutAll;
      ghost var g := tracker.Graph();
      NothingDoomed(g);
      WithoutAllStep(g, {}, TxId(TransactionData(0, Payment, [], [])));
      if conflicts == {} { return true; }
      var total, affected := Affected(conflicts);
      if newFee < required(total, |conflicts|) { return false; }
      var order := Listed(affected);
      RemoveEach(order);
      ok := true;
    }

    // -------------------------------------------------------------- admission

    method ParentHashes(tx: Transaction) returns (parents: seq<TxId>)
      requires storage.Valid()
      ensures parents == Creators(storage.transactions, InputsOf(tx))
    {
      var ops := InputsOf(tx);
      parents := [];
      for k := 0 to |ops|
        invariant parents == Creators(storage.transactions, ops[..k])
      {
        assert ops[..k + 1][..k] == ops[..k];
        if ops[k] in storage.outputCreationIndex {
          parents := parents + [storage.outputCreationIndex[ops[k]]];
        }
      }
      assert ops[..|ops|] == ops;
    }

    /** checked: the validator's verdict, with the fee the transaction pays. */
    method AddTransaction(tx: Transaction, checked: Option<u64>, now: u64, size: nat, required: (u64, nat) -> u64)
      returns (r: Result<(), AddError>)
      requires Valid()
      modifies storage, tracker
      ensures Valid()
      ensures var pool, g, hash := old(storage.transactions), old(tracker.Graph()), tx.data.Hash();
              var conflicts := ConflictsOf(pool, tx);
              r.Ok? <==>
                && hash !in pool && |pool| < maxSize && checked.Some?
                && (conflicts != {} ==> !rbfDisabled)
                && Outbids(pool, g, conflicts, checked.value, required)
      ensures r.Err? ==> storage.transactions == old(storage.transactions) && tracker.Graph() == old(tracker.Graph())
      ensures r == Err(DuplicateTransaction) <==> tx.data.Hash() in old(storage.transactions)
      ensures r == Err(PoolFull) <==>
                tx.data.Hash() !in old(storage.transactions) && |old(storage.transactions)| >= maxSize
      ensures r == Err(Invalid) ==> checked == None
      ensures r == Err(DoubleSpend) ==> ConflictsOf(old(storage.transactions), tx) != {} && rbfDisabled
      ensures r == Err(InsufficientFee) ==>
                checked.Some? && (ConflictsOf(old(storage.transactions), tx) != {} ==> !rbfDisabled)
      ensures r.Ok? ==>
                var pool, g, hash := old(storage.transactions), old(tracker.Graph()), tx.data.Hash();
                var gone := Doomed(g, ConflictsOf(pool, tx));
                && storage.transactions == (pool - gone)[hash := MemPoolTx(tx, now, checked.value, size)]
                && tracker.Graph().links == WithoutAll(g, gone).links + ParentLinks(storage.transactions, tx)
    {
      hide LinksReal, DependencyTracker.Valid, DependencyTracker.Graph, Doomed, InputsOf, TransactionStorage.Valid,
        ConflictsOf, Outbids, Unspent, WithoutAll;
      var hash := tx.data.Hash();
      if hash in storage.transactions { return Err(DuplicateTransaction); }
      if |storage.transactions| >= maxSize { return Err(PoolFull); }
      if checked == None { return Err(Invalid); }
      var conflicts := FindConflicts(tx);
      if conflicts != {} && rbfDisabled { return Err(DoubleSpend); }
      ghost var pool, g := storage.transactions, tracker.Graph();
      ConflictsGone(g, pool, tx);
      NothingDoomed(g);
      var resolved := ResolveConflicts(conflicts, checked.value, required);
      if !resolved { return Err(InsufficientFee); }
      Admit(tx, checked.value, now, size);
      r := Ok(());
    }

    /** The unconditional tail of add_transaction. */
    method Admit(tx: Transaction, fee: u64, now: u64, size: nat)
      requires Valid() && tx.data.Hash() !in storage.transactions && Unspent(storage.transactions, tx)
      modifies storage, tracker
      ensures Valid()
      ensures storage.transactions == old(storage.transactions)[tx.data.Hash() := MemPoolTx(tx, now, fee, size)]
      ensures tracker.Graph().links == old(tracker.Graph()).links + ParentLinks(storage.transactions, tx)
      ensures tracker.nodes == old(tracker.nodes) + [tx.data.Hash()]
      ensures tracker.edges == old(tracker.edges) + ParentEdges(
                tracker.indices, Creators(storage.transactions, InputsOf(tx)), |old(tracker.nodes)|)
    {
      hide LinksReal, DependencyTracker.Valid, DependencyTracker.Graph, TransactionStorage.Valid, Unspent, InputsOf,
        SpentByNoOther, OutputsAdded, InputsAdded, ParentEdges, Creators;
      LinksRealMore(tracker.Graph().links, storage.transactions, tx, MemPoolTx(tx, now, fee, size));
      SpentByNone(storage.transactions, tx);
      TrackedNodes(tracker);
      storage.InsertWithTimestamp(tx, fee, now, size);
      var parents := ParentHashes(tx);
      ParentsAreLinks(storage.transactions, tx, tracker.Graph());
      tracker.AddTransaction(tx.data.Hash(), parents);
    }

    // -------------------------------------------------------------- selection

    /** One candidate: skipped if already selected or if its package does not fit. */
    method Consider(tx: TxId, limit: nat, selected: set<TxId>, result: seq<Transaction>, ghost chosen: seq<TxId>)
      returns (selected': set<TxId>, result': seq<Transaction>, ghost chosen': seq<TxId>)
      requires Valid() && tx in storage.transactions && |result| <= limit
      requires Picked(tracker.Graph(), storage.transactions, chosen, result, selected)
      ensures Picked(tracker.Graph(), storage.transactions, chosen', result', selected')
      ensures |result'| <= limit && selected <= selected'
      ensures limit >= |storage.transactions| ==> tx in selected'
      ensures chosen' == Considered(chosen, tx, PackagesOf(tracker)(tx), limit)
    {
      hide LinksReal, TransactionStorage.Valid, DependencyTracker.Valid, DependencyTracker.Graph, IsAncestor,
        AncestorClosed, Distinct, Unselected, Fetched, Package;
      ghost var pool, g := storage.transactions, tracker.Graph();
      selected', result', chosen' := selected, result, chosen;
      if tx in selected { return; }
      TrackedWithin(tracker);
      var gathered := tracker.GetWithAncestors(tx);
      var package := Unselected(gathered, selected);
      UnselectedAre(gathered, selected);
      AncestorsStored(g, pool, tx, gathered);
      PackageFits(pool, selected, package);
      ChosenSize(pool, chosen, result, selected);
      if |package| > limit - |result| { return; }
      PackageCloses(g, selected, tx, package);
      selected', result' := Include(storage.transactions, package, selected, result, chosen);
      chosen' := chosen + package;
      ChosenSize(pool, chosen', result', selected');
      PackageSize(selected, package);
    }

    /** The selection loop over the ranked transactions. */
    method SelectRanked(ranked: seq<TxId>, limit: nat)
      returns (result: seq<Transaction>, ghost chosen: seq<TxId>, ghost selected: set<TxId>)
      requires Valid() && forall t :: t in ranked <==> t in tracker.Graph().txs
      ensures Picked(tracker.Graph(), storage.transactions, chosen, result, selected) && |result| <= limit
      ensures limit >= |storage.transactions| ==> selected == storage.transactions.Keys
      ensures chosen == Chosen(PackagesOf(tracker), ranked, limit)
    {
      hide LinksReal, TransactionStorage.Valid, DependencyTracker.Valid, DependencyTracker.Graph, Considered, Chosen,
        Picked, PackagesOf, ParentsBefore, AncestorClosed, MemPool.Valid;
      RankedStored(this, ranked);
      ghost var pool, g, packages := storage.transactions, tracker.Graph(), PackagesOf(tracker);
      NothingPicked(pool, g);
      NothingChosen(packages, g.links, limit);
      result, chosen := [], [];
      var taken: set<TxId> := {};
      for i := 0 to |ranked|
        invariant Picked(g, pool, chosen, result, taken) && |result| <= limit
        invariant limit >= |pool| ==> forall k :: 0 <= k < i ==> ranked[k] in taken
        invariant chosen == Chosen(packages, ranked[..i], limit)
      {
        ChosenStep(packages, ranked, i, limit);
        taken, result, chosen := Consider(ranked[i], limit, taken, result, chosen);
        if |result| == limit {
          FullStays(packages, ranked, i + 1, limit) by { PickedSize(g, pool, chosen, result, taken); }
          FullTaken(g, pool, chosen, result, taken, limit);
          selected := taken;
          return;
        }
      }
      assert ranked[..|ranked|] == ranked;
      AllTaken(g, pool, chosen, result, taken, ranked, limit);
      selected := taken;
    }

    /** ranking sorts by package fee rate. The selection is duplicate-free, within the limit,
        closed under tracked ancestors, and complete when the limit covers the pool. It takes the
        candidates' packages in turn; parents come first exactly when each was taken in order, and
        always when all tracked nodes are clean. */
    method GetBestTransactions(limit: nat, ranking: seq<TxId> -> seq<TxId>)
      returns (result: seq<Transaction>, ghost chosen: seq<TxId>)
      requires Valid() && forall s: seq<TxId> :: Reorders(s, ranking(s))
      ensures Distinct(chosen) && Fetched(storage.transactions, chosen, result) && |result| <= limit
      ensures AncestorClosed(tracker.Graph(), Elements(chosen))
      ensures limit >= |storage.transactions| ==> Elements(chosen) == storage.transactions.Keys
      ensures limit > 0 ==>
                exists order :: ParentsFirst(tracker.Graph(), order)
                                && chosen == Chosen(PackagesOf(tracker), ranking(order), limit)
                                && (ParentsBefore(tracker.Graph().links, chosen)
                                    <==> TrackedInOrder(tracker, ranking(order), limit))
      ensures TrackedClean(tracker) ==> ParentsBefore(tracker.Graph().links, chosen)
    {
      ghost var pool, g := storage.transactions, tracker.Graph();
      ghost var selected: set<TxId> := {};
      NothingPicked(pool, g);
      NothingChosen(PackagesOf(tracker), g.links, limit);
      hide LinksReal, TransactionStorage.Valid, DependencyTracker.Valid, DependencyTracker.Graph, AncestorClosed,
        Fetched, Distinct, TrackedClean, TrackedInOrder, ParentsFirst, ParentsBefore, Chosen, Picked;
      result, chosen := [], [];
      PickedSize(g, pool, chosen, result, selected);
      if limit == 0 { return; }
      var order := tracker.TopologicalOrder();
      var ranked := ranking(order);
      RankedAre(g, order, ranked);
      TrackedSelection(tracker, ranked, limit);
      result, chosen, selected := SelectRanked(ranked, limit);
      PickedSize(g, pool, chosen, result, selected);
    }
  }

  /** The ranked transactions are those stored, and each is part of its package. */
  lemma RankedStored(p: MemPool, ranked: seq<TxId>)
    requires p.Valid() && forall t :: t in ranked <==> t in p.tracker.Graph().txs
    ensures p.tracker.Valid()
    ensures forall k :: 0 <= k < |ranked| ==>
              ranked[k] in p.storage.transactions && ranked[k] in PackagesOf(p.tracker)(ranked[k])
    ensures forall t :: t in p.storage.transactions ==> t in ranked
  {
    hide LinksReal, TransactionStorage.Valid, DependencyTracker.Valid, DependencyTracker.Graph, PackagesOf;
    TrackedPackages(p.tracker, ranked);
    assert forall k :: 0 <= k < |ranked| ==> ranked[k] in ranked;
  }
}
