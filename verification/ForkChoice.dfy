/** Fork choice as a pure machine over the canonical chain and the buffered forks. */
module ForkChoice {
  import opened Primitives
  import opened ChainTypes
  import opened UtxoProcessor
  import opened BlockRules
  import opened Ledger
  import opened Transition
  import opened CanonicalChain
  import opened Overlay
  import opened Reorg

  datatype ForkEntry = ForkEntry(tip: BlockHash, cumulativeWork: nat, commonAncestor: BlockHash, blocks: seq<Block>)

  type ForkTable = map<BlockHash, ForkEntry>

  /** A validator's answer for a block on a branch; it may differ from call to call. */
  type Check = (Block, BranchView) -> Result<(), CoreError>

  datatype CommittedTransition = CommittedTransition(
    newHead: ChainPos, chainWork: nat, attached: seq<Block>, detached: seq<ChainPos>)

  datatype Verdict =
    | Applied(transition: CommittedTransition)
    | Buffered
    | AlreadyIncludedInChain
    | AlreadyKnownInForkTree
    | Rejected(error: CoreError)
    | CausedReorganization(transition: CommittedTransition)
  {
    predicate Commits() { Applied? || CausedReorganization? }
  }

  /** A block that comes next on a linked, replayable branch. */
  ghost predicate OnBranch(branch: seq<Block>, b: Block)
  {
    && Linked(branch) && Replay(branch).Ok?
    && b.header.previousBlockHash == Tip(branch).Hash() && b.header.height == |branch|
  }

  /** The view shows the branch: the set it leaves, and its blocks by height. */
  ghost predicate Shows(v: BranchView, branch: seq<Block>)
  {
    Replay(branch).Ok? && v.utxos == Replay(branch).value.utxos && v.heights == HeightsOf(branch)
  }

  /** What a sound validator vouches for. Its own rules are in BlockRules and BlockValidation;
      that an accepted block brings new transaction ids is the one demand they do not imply. */
  ghost predicate Sound(check: Check)
  {
    forall b, v, branch :: OnBranch(branch, b) && Shows(v, branch) && check(b, v).Ok? && !b.header.IsGenesis() ==>
      WellFormed(b) && ApplyBlock(v.utxos, b.txs).Ok? && NewIds(branch, b)
  }

  // ---------------------------------------------------------------- the machine

  /** bodies: every block body the storage ever committed. */
  datatype RefState = RefState(chain: seq<Block>, forks: ForkTable, bodies: BlockTable)

  /** Where a block goes: onto the branch chain[..at + 1] + prior, or nowhere. */
  datatype Place = InChain | InForkTree | Orphan | On(at: nat, prior: seq<Block>)

  predicate InForks(forks: ForkTable, hash: BlockHash)
  {
    exists t :: t in forks && HasBlock(forks[t].blocks, hash)
  }

  ghost function IndexIn(chain: seq<Block>, hash: BlockHash): (i: nat)
    ensures HasBlock(chain, hash) ==> i < |chain| && chain[i].Hash() == hash
    ensures chain != [] ==> i < |chain|
  {
    if HasBlock(chain, hash) then
      var b :| b in chain && b.Hash() == hash;
      var i :| 0 <= i < |chain| && chain[i] == b;
      i
    else 0
  }

  ghost function PlaceOf(rs: RefState, b: Block): (p: Place)
    ensures p.On? && rs.chain != [] ==> p.at < |rs.chain|
  {
    var parent := b.header.previousBlockHash;
    if HasBlock(rs.chain, b.Hash()) then InChain
    else if InForks(rs.forks, b.Hash()) then InForkTree
    else if HasBlock(rs.chain, parent) then On(IndexIn(rs.chain, parent), [])
    else if parent in rs.forks then On(IndexIn(rs.chain, rs.forks[parent].commonAncestor), rs.forks[parent].blocks)
    else Orphan
  }

  /** A known parent fixes the height of its child. */
  ghost predicate HeightFollows(rs: RefState, b: Block)
  {
    var parent := b.header.previousBlockHash;
    if HasBlock(rs.chain, parent)
    then NextU64(rs.chain[IndexIn(rs.chain, parent)].header.height) == Some(b.header.height)
    else if parent in rs.forks && rs.forks[parent].blocks != []
    then NextU64(Tip(rs.forks[parent].blocks).header.height) == Some(b.header.height)
    else true
  }

  function WithBodies(bodies: BlockTable, blocks: seq<Block>): BlockTable
  {
    if blocks == [] then bodies
    else WithBodies(bodies, blocks[..|blocks| - 1])[blocks[|blocks| - 1].Hash() := blocks[|blocks| - 1]]
  }

  /** The state of a branch as its validator sees it. */
  ghost function ViewOf(bodies: BlockTable, branch: seq<Block>, prior: seq<Block>): BranchView
  {
    BranchView(if Replay(branch).Ok? then Replay(branch).value.utxos else map[],
               WithBodies(bodies, prior), HeightsOf(branch))
  }

  /** A fork survives while its ancestor is canonical and none of its blocks is. */
  predicate Survives(e: ForkEntry, chain: seq<Block>)
  {
    HasBlock(chain, e.commonAncestor) && forall b :: b in e.blocks ==> !HasBlock(chain, b.Hash())
  }

  function Surviving(forks: ForkTable, chain: seq<Block>): ForkTable
  {
    map t | t in forks && Survives(forks[t], chain) :: forks[t]
  }

  ghost function RefStep(rs: RefState, b: Block, check: Check): (RefState, Result<Verdict, CoreError>)
    requires rs.chain != []
  {
    if !b.header.WorkShapeOk() || !HeightFollows(rs, b) then (rs, Ok(Rejected(ValidationFailed)))
    else match PlaceOf(rs, b)
      case InChain => (rs, Ok(AlreadyIncludedInChain))
      case InForkTree => (rs, Ok(AlreadyKnownInForkTree))
      case Orphan => (rs, Ok(Buffered))
      case On(k, prior) =>
        match check(b, ViewOf(rs.bodies, rs.chain[..k + 1] + prior, prior))
        case Err(StorageFailure(e)) => (rs, Err(StorageFailure(e)))
        case Err(e) => (rs, Ok(Rejected(e)))
        case Ok(_) =>
          if ChainWork(rs.chain[..k + 1] + (prior + [b])) > ChainWork(rs.chain)
          then Adopt(rs, k, prior + [b], prior == [] && k == |rs.chain| - 1)
          else (Buffer(rs, k, prior + [b]), Ok(Buffered))
  }

  /** The branch becomes canonical. Storage has no height above the last u64. */
  ghost function Adopt(rs: RefState, k: nat, blocks: seq<Block>, linear: bool): (RefState, Result<Verdict, CoreError>)
    requires k < |rs.chain| && blocks != []
  {
    var longer := rs.chain[..k + 1] + blocks;
    var t := CommittedTransition(Pos(Tip(blocks)), ChainWork(longer), blocks, Suffix(rs.chain, |rs.chain| - 1, k));
    if Tip(blocks).header.height == U64_MAX then (rs, Err(StorageFailure(InvalidTransition)))
    else (RefState(longer, Surviving(rs.forks, longer), WithBodies(rs.bodies, blocks)),
          Ok(if linear then Verdict.Applied(t) else CausedReorganization(t)))
  }

  ghost function Buffer(rs: RefState, k: nat, blocks: seq<Block>): RefState
    requires k < |rs.chain| && blocks != []
  {
    var longer := rs.chain[..k + 1] + blocks;
    var hash := Tip(blocks).Hash();
    rs.(forks := (rs.forks - {Tip(blocks).header.previousBlockHash})
                 [hash := ForkEntry(hash, ChainWork(longer), rs.chain[k].Hash(), blocks)])
  }

  // ---------------------------------------------------------------- the invariant

  /** A buffered fork: non-empty, keyed by its last block, linked from chain[k], replayable,
      off the canonical chain, carrying its branch's work, and not heavier than the tip. */
  ghost predicate ForkAt(t: BlockHash, e: ForkEntry, chain: seq<Block>, k: nat)
    requires k < |chain|
  {
    var branch := chain[..k + 1] + e.blocks;
    && e.tip == t && e.blocks != [] && Tip(e.blocks).Hash() == t
    && Linked(branch) && Replay(branch).Ok?
    && e.cumulativeWork == ChainWork(branch) <= ChainWork(chain)
    && forall b :: b in e.blocks ==> !HasBlock(chain, b.Hash())
  }

  ghost predicate ForkOk(t: BlockHash, e: ForkEntry, chain: seq<Block>)
  {
    HasBlock(chain, e.commonAncestor) && ForkAt(t, e, chain, IndexIn(chain, e.commonAncestor))
  }

  predicate NoSharedBlock(x: seq<Block>, y: seq<Block>)
  {
    forall b :: b in x ==> !HasBlock(y, b.Hash())
  }

  predicate Disjoint(forks: ForkTable)
  {
    forall t, u :: t in forks && u in forks && t != u ==> NoSharedBlock(forks[t].blocks, forks[u].blocks)
  }

  ghost predicate RefOk(rs: RefState)
  {
    && Linked(rs.chain) && Replay(rs.chain).Ok?
    && (forall t :: t in rs.forks ==> ForkOk(t, rs.forks[t], rs.chain))
    && Disjoint(rs.forks)
  }

  // ---------------------------------------------------------------- placement

  lemma IndexUnique(chain: seq<Block>, k: nat)
    requires Linked(chain) && k < |chain|
    ensures HasBlock(chain, chain[k].Hash()) && IndexIn(chain, chain[k].Hash()) == k
  {
    hide WellFormedChain;
    assert chain[k] in chain;
    var i := IndexIn(chain, chain[k].Hash());
    if i < k { HashesDistinct(chain, i, k); } else if k < i { HashesDistinct(chain, k, i); }
  }

  /** The branch a block was placed on, and why the block is new to it. */
  ghost predicate Placed(rs: RefState, b: Block, k: nat, prior: seq<Block>)
  {
    && k < |rs.chain|
    && OnBranch(rs.chain[..k + 1] + prior, b)
    && !b.header.IsGenesis()
    && !HasBlock(rs.chain, b.Hash()) && !InForks(rs.forks, b.Hash())
    && (forall x :: x in prior ==> !HasBlock(rs.chain, x.Hash()))
    && (prior != [] ==> Tip(prior).Hash() in rs.forks && rs.forks[Tip(prior).Hash()].blocks == prior
                        && rs.forks[Tip(prior).Hash()].commonAncestor == rs.chain[k].Hash())
  }

  lemma OnCanonicalBranch(rs: RefState, b: Block)
    requires RefOk(rs) && HeightFollows(rs, b) && HasBlock(rs.chain, b.header.previousBlockHash)
    ensures var k := IndexIn(rs.chain, b.header.previousBlockHash); OnBranch(rs.chain[..k + 1], b)
  {
    hide WellFormed, GenesisOk, Replay, ForkOk, Disjoint;
    var k := IndexIn(rs.chain, b.header.previousBlockHash);
    LinkedPrefix(rs.chain, k + 1);
    ReplayOfPrefix(rs.chain, k + 1);
    assert Tip(rs.chain[..k + 1]) == rs.chain[k] && rs.chain[k].header.height == k;
  }

  lemma OnForkBranch(t: BlockHash, e: ForkEntry, chain: seq<Block>, k: nat, b: Block)
    requires k < |chain| && ForkAt(t, e, chain, k)
    requires b.header.previousBlockHash == t && NextU64(Tip(e.blocks).header.height) == Some(b.header.height)
    ensures OnBranch(chain[..k + 1] + e.blocks, b)
  {
    hide WellFormed, GenesisOk, Replay, ChainWork;
    var branch := chain[..k + 1] + e.blocks;
    assert Tip(branch) == Tip(e.blocks) && branch[|branch| - 1].header.height == |branch| - 1;
  }

  /** A block that is placed on a branch extends that branch. */
  lemma PlacedOnBranch(rs: RefState, b: Block)
    requires RefOk(rs) && b.header.WorkShapeOk() && HeightFollows(rs, b) && PlaceOf(rs, b).On?
    ensures var On(k, prior) := PlaceOf(rs, b); Placed(rs, b, k, prior)
  {
    hide Linked, Replay, ChainWork, Disjoint, OnBranch;
    ChainNotEmpty(rs);
    var parent := b.header.previousBlockHash;
    var On(k, prior) := PlaceOf(rs, b);
    if HasBlock(rs.chain, parent) {
      OnCanonicalBranch(rs, b);
      assert rs.chain[..k + 1] + [] == rs.chain[..k + 1];
    } else {
      assert ForkOk(parent, rs.forks[parent], rs.chain);
      OnForkBranch(parent, rs.forks[parent], rs.chain, k, b);
    }
  }

  lemma LongerBranch(branch: seq<Block>, b: Block, v: BranchView, check: Check)
    requires OnBranch(branch, b) && Shows(v, branch) && !b.header.IsGenesis()
    requires Sound(check) && check(b, v).Ok?
    ensures WellFormed(b) && Linked(branch + [b]) && Replay(branch + [b]).Ok?
  {
    LinkedExtend(branch, b);
    assert (branch + [b])[..|branch|] == branch;
  }

  /** What placement and validation together establish about the extended branch. */
  ghost predicate Extends(rs: RefState, k: nat, blocks: seq<Block>)
    requires k < |rs.chain|
  {
    && Linked(rs.chain[..k + 1] + blocks) && Replay(rs.chain[..k + 1] + blocks).Ok?
    && (forall x :: x in blocks ==> !HasBlock(rs.chain, x.Hash()))
    && AllWellFormed(blocks)
  }

  lemma ExtendedBranch(rs: RefState, b: Block, check: Check, k: nat, prior: seq<Block>)
    requires Placed(rs, b, k, prior) && Sound(check)
    requires check(b, ViewOf(rs.bodies, rs.chain[..k + 1] + prior, prior)).Ok?
    ensures Extends(rs, k, prior + [b])
  {
    hide WellFormed, Linked, Replay, Sound, InForks, WithBodies, HeightsOf, AllWellFormed;
    var branch := rs.chain[..k + 1] + prior;
    LongerBranch(branch, b, ViewOf(rs.bodies, branch, prior), check);
    assert branch + [b] == rs.chain[..k + 1] + (prior + [b]);
    BranchWellFormed(rs.chain, k, prior + [b]);
  }

  lemma BranchWellFormed(chain: seq<Block>, k: nat, blocks: seq<Block>)
    requires k < |chain| && Linked(chain[..k + 1] + blocks)
    ensures AllWellFormed(blocks)
  {
    hide WellFormed, GenesisOk;
    var branch := chain[..k + 1] + blocks;
    forall b | b in blocks ensures WellFormed(b) {
      var i :| 0 <= i < |blocks| && blocks[i] == b;
      assert branch[k + 1 + i] == b;
    }
  }

  // ---------------------------------------------------------------- preservation

  lemma {:induction false} BufferKeeps(rs: RefState, b: Block, k: nat, prior: seq<Block>)
    requires RefOk(rs) && Placed(rs, b, k, prior) && Extends(rs, k, prior + [b])
    requires b.header.previousBlockHash == if prior == [] then rs.chain[k].Hash() else Tip(prior).Hash()
    requires ChainWork(rs.chain[..k + 1] + (prior + [b])) <= ChainWork(rs.chain)
    ensures RefOk(Buffer(rs, k, prior + [b]))
  {
    hide Linked, Replay, ChainWork, OnBranch, AllWellFormed, WorkBelow, Extends, ForkOk, Disjoint, InForks;
    NewForkOk(rs, b, k, prior + [b]);
    BufferDisjoint(rs, b, k, prior);
  }

  lemma {:induction false} NewForkOk(rs: RefState, b: Block, k: nat, blocks: seq<Block>)
    requires Linked(rs.chain) && k < |rs.chain| && Extends(rs, k, blocks) && blocks != [] && Tip(blocks) == b
    requires ChainWork(rs.chain[..k + 1] + blocks) <= ChainWork(rs.chain)
    ensures ForkOk(b.Hash(), Buffer(rs, k, blocks).forks[b.Hash()], rs.chain)
  {
    hide Linked, Replay, ChainWork, AllWellFormed;
    IndexUnique(rs.chain, k);
  }

  lemma BufferDisjoint(rs: RefState, b: Block, k: nat, prior: seq<Block>)
    requires k < |rs.chain| && Disjoint(rs.forks) && !InForks(rs.forks, b.Hash())
    requires prior != [] ==> Tip(prior).Hash() in rs.forks && rs.forks[Tip(prior).Hash()].blocks == prior
    requires prior != [] ==> b.header.previousBlockHash == Tip(prior).Hash()
    ensures Disjoint(Buffer(rs, k, prior + [b]).forks)
  {
    hide NoSharedBlock, InForks, ChainWork;
    var blocks, forks' := prior + [b], Buffer(rs, k, prior + [b]).forks;
    forall t, u | t in forks' && u in forks' && t != u ensures NoSharedBlock(forks'[t].blocks, forks'[u].blocks) {
      if t == b.Hash() {
        NewForkDisjoint(rs, b, prior, u);
      } else if u == b.Hash() {
        NewForkDisjoint(rs, b, prior, t);
        SharedSymmetric(blocks, forks'[t].blocks);
      }
    }
  }

  lemma SharedSymmetric(x: seq<Block>, y: seq<Block>)
    requires NoSharedBlock(x, y)
    ensures NoSharedBlock(y, x)
  {
    forall b | b in y ensures !HasBlock(x, b.Hash()) {
      forall c | c in x ensures c.Hash() != b.Hash() {
        assert !HasBlock(y, c.Hash());
      }
    }
  }

  /** The extended fork shares no block with a fork it does not replace. */
  lemma NewForkDisjoint(rs: RefState, b: Block, prior: seq<Block>, u: BlockHash)
    requires Disjoint(rs.forks) && !InForks(rs.forks, b.Hash())
    requires prior != [] ==> Tip(prior).Hash() in rs.forks && rs.forks[Tip(prior).Hash()].blocks == prior
    requires u in rs.forks && (prior != [] ==> u != Tip(prior).Hash())
    ensures NoSharedBlock(prior + [b], rs.forks[u].blocks)
  {
    forall x | x in prior + [b] ensures !HasBlock(rs.forks[u].blocks, x.Hash()) {
      if x in prior {
        assert NoSharedBlock(rs.forks[Tip(prior).Hash()].blocks, rs.forks[u].blocks);
      }
    }
  }

  /** A surviving fork hangs off the part of the chain both selections share. */
  lemma SurvivorAncestor(chain: seq<Block>, k: nat, blocks: seq<Block>, hash: BlockHash)
    requires Linked(chain) && k < |chain| && Linked(chain[..k + 1] + blocks)
    requires forall b :: b in blocks ==> !HasBlock(chain, b.Hash())
    requires HasBlock(chain, hash) && HasBlock(chain[..k + 1] + blocks, hash)
    ensures IndexIn(chain, hash) <= k && IndexIn(chain[..k + 1] + blocks, hash) == IndexIn(chain, hash)
  {
    hide WellFormedChain;
    var longer := chain[..k + 1] + blocks;
    var i := IndexIn(longer, hash);
    forall j | k < j < |longer| ensures longer[j].Hash() != hash {
      assert longer[j] == blocks[j - k - 1];
      assert blocks[j - k - 1] in blocks;
    }
    assert longer[i] == chain[i];
    IndexUnique(chain, i);
  }

  lemma SurvivorKeeps(t: BlockHash, e: ForkEntry, chain: seq<Block>, k: nat, blocks: seq<Block>)
    requires Linked(chain) && k < |chain| && Linked(chain[..k + 1] + blocks)
    requires forall b :: b in blocks ==> !HasBlock(chain, b.Hash())
    requires ChainWork(chain[..k + 1] + blocks) >= ChainWork(chain)
    requires ForkOk(t, e, chain) && Survives(e, chain[..k + 1] + blocks)
    ensures ForkOk(t, e, chain[..k + 1] + blocks)
  {
    hide Linked, ChainWork, Replay;
    var longer := chain[..k + 1] + blocks;
    SurvivorAncestor(chain, k, blocks, e.commonAncestor);
    var i := IndexIn(chain, e.commonAncestor);
    assert longer[..i + 1] == chain[..i + 1];
  }

  lemma {:induction false} AdoptKeeps(rs: RefState, k: nat, blocks: seq<Block>, linear: bool)
    requires RefOk(rs) && k < |rs.chain| && blocks != [] && Extends(rs, k, blocks)
    requires ChainWork(rs.chain[..k + 1] + blocks) > ChainWork(rs.chain)
    ensures RefOk(Adopt(rs, k, blocks, linear).0)
  {
    hide Linked, ChainWork, Replay, ForkOk, Survives, AllWellFormed;
    var longer := rs.chain[..k + 1] + blocks;
    forall t | t in rs.forks && Survives(rs.forks[t], longer) ensures ForkOk(t, rs.forks[t], longer) {
      SurvivorKeeps(t, rs.forks[t], rs.chain, k, blocks);
    }
  }

  /** The parent of a placed block is the last block of the branch. */
  lemma PlacedParent(rs: RefState, b: Block, k: nat, prior: seq<Block>)
    requires Placed(rs, b, k, prior)
    ensures b.header.previousBlockHash == if prior == [] then rs.chain[k].Hash() else Tip(prior).Hash()
  {
    hide Linked, Replay, InForks;
    assert prior == [] ==> Tip(rs.chain[..k + 1] + prior) == rs.chain[k];
  }

  /** Every step keeps the invariant. */
  lemma RefStepKeeps(rs: RefState, b: Block, check: Check)
    requires RefOk(rs) && Sound(check)
    ensures rs.chain != [] && RefOk(RefStep(rs, b, check).0)
  {
    hide Sound, RefOk, PlaceOf, HeightFollows, Buffer, Adopt, ViewOf, ChainWork, Placed, Extends;
    ChainNotEmpty(rs);
    if b.header.WorkShapeOk() && HeightFollows(rs, b) && PlaceOf(rs, b).On? {
      var On(k, prior) := PlaceOf(rs, b);
      PlacedOnBranch(rs, b);
      if check(b, ViewOf(rs.bodies, rs.chain[..k + 1] + prior, prior)).Ok? {
        ExtendedBranch(rs, b, check, k, prior);
        if ChainWork(rs.chain[..k + 1] + (prior + [b])) > ChainWork(rs.chain) {
          AdoptKeeps(rs, k, prior + [b], prior == [] && k == |rs.chain| - 1);
        } else {
          PlacedParent(rs, b, k, prior);
          BufferKeeps(rs, b, k, prior);
        }
      }
    }
  }

  /** A genesis block names the zero hash as its parent, which is the hash of the genesis block
      itself, so the height check turns it away whenever it is submitted again. */
  lemma GenesisAgainRejected(rs: RefState, g: Block, check: Check)
    requires RefOk(rs) && GenesisOk(g)
    ensures rs.chain != [] && RefStep(rs, g, check) == (rs, Ok(Rejected(ValidationFailed)))
  {
    ChainNotEmpty(rs);
    hide Replay, Disjoint, ForkOk;
    assert g.header.previousBlockHash == rs.chain[0].Hash();
    IndexUnique(rs.chain, 0);
  }

  lemma ParentOfCanonical(rs: RefState, i: nat)
    requires RefOk(rs) && 0 < i < |rs.chain|
    ensures rs.chain[i].header.WorkShapeOk() && HeightFollows(rs, rs.chain[i])
  {
    hide Replay, Disjoint, ForkOk, UniqueIds, AllTxs;
    NotGenesis(rs.chain[i]);
    IndexUnique(rs.chain, i - 1);
  }

  /** A canonical block submitted again changes nothing, and is answered as already included
      unless it is the genesis block. */
  lemma CanonicalBlockAgain(rs: RefState, i: nat, check: Check)
    requires RefOk(rs) && i < |rs.chain|
    ensures RefStep(rs, rs.chain[i], check).0 == rs
    ensures RefStep(rs, rs.chain[i], check).1 == Ok(AlreadyIncludedInChain) <==> i != 0
  {
    hide RefOk, HeightFollows;
    if i == 0 {
      GenesisAgainRejected(rs, rs.chain[0], check) by { FirstIsGenesis(rs); }
    } else {
      ParentOfCanonical(rs, i);
      assert HasBlock(rs.chain, rs.chain[i].Hash());
    }
  }

  lemma FirstIsGenesis(rs: RefState)
    requires RefOk(rs)
    ensures rs.chain != [] && GenesisOk(rs.chain[0])
  {
    hide Replay, Disjoint, ForkOk, GenesisOk;
  }

  /** Block i of a branch that leaves the chain above k. */
  lemma OnItsBranch(chain: seq<Block>, blocks: seq<Block>, k: nat, i: nat)
    requires k < |chain| && Linked(chain[..k + 1] + blocks) && i < |blocks|
    ensures WellFormed(blocks[i]) && blocks[i].header.height == k + 1 + i
    ensures blocks[i].header.previousBlockHash == (if i == 0 then chain[k] else blocks[i - 1]).Hash()
  {
    hide WellFormed, GenesisOk, UniqueIds, AllTxs;
    var branch := chain[..k + 1] + blocks;
    assert branch[k + 1 + i] == blocks[i] && branch[k + i] == if i == 0 then chain[k] else blocks[i - 1];
  }

  /** The parent of a buffered block is its ancestor or the buffered block before it. */
  lemma BufferedHeight(rs: RefState, t: BlockHash, k: nat, i: nat)
    requires RefOk(rs) && t in rs.forks && k < |rs.chain| && ForkAt(t, rs.forks[t], rs.chain, k)
    requires i < |rs.forks[t].blocks|
    ensures rs.forks[t].blocks[i].header.WorkShapeOk() && HeightFollows(rs, rs.forks[t].blocks[i])
  {
    hide Linked, Replay, Disjoint, WellFormed, ChainWork, HasBlock, ForkOk;
    var blocks := rs.forks[t].blocks;
    var parent := blocks[i].header.previousBlockHash;
    OnItsBranch(rs.chain, blocks, k, i);
    NotGenesis(blocks[i]);
    if i == 0 {
      CanonicalHeight(rs.chain, k);
    } else {
      OnItsBranch(rs.chain, blocks, k, i - 1);
      NotGenesis(blocks[i - 1]);
      assert blocks[i - 1] in blocks;
      if parent in rs.forks { TipOfFork(rs, parent); }
    }
  }

  /** A block of a buffered fork submitted again is recognized, and changes nothing. */
  lemma ForkBlockAgain(rs: RefState, t: BlockHash, i: nat, check: Check)
    requires RefOk(rs) && t in rs.forks && i < |rs.forks[t].blocks|
    ensures rs.chain != []
    ensures RefStep(rs, rs.forks[t].blocks[i], check) == (rs, Ok(AlreadyKnownInForkTree))
  {
    hide RefOk, ForkAt, HeightFollows, HasBlock, InForks, ChainWork, ViewOf, Suffix, WithBodies, Surviving;
    ChainNotEmpty(rs);
    var k := ForkPoint(rs, t);
    BufferedHeight(rs, t, k, i);
    BufferedKnown(rs, t, k, i);
  }

  lemma BufferedKnown(rs: RefState, t: BlockHash, k: nat, i: nat)
    requires t in rs.forks && k < |rs.chain| && ForkAt(t, rs.forks[t], rs.chain, k) && i < |rs.forks[t].blocks|
    ensures !HasBlock(rs.chain, rs.forks[t].blocks[i].Hash()) && InForks(rs.forks, rs.forks[t].blocks[i].Hash())
  {
    hide Linked, Replay, ChainWork;
    assert rs.forks[t].blocks[i] in rs.forks[t].blocks;
  }

  lemma ForkPoint(rs: RefState, t: BlockHash) returns (k: nat)
    requires RefOk(rs) && t in rs.forks
    ensures k < |rs.chain| && ForkAt(t, rs.forks[t], rs.chain, k)
  {
    hide Linked, Replay, Disjoint, ForkAt;
    assert ForkOk(t, rs.forks[t], rs.chain);
    k := IndexIn(rs.chain, rs.forks[t].commonAncestor);
  }

  lemma CanonicalHeight(chain: seq<Block>, k: nat)
    requires Linked(chain) && k < |chain|
    ensures HasBlock(chain, chain[k].Hash()) && IndexIn(chain, chain[k].Hash()) == k && chain[k].header.height == k
  {
    IndexUnique(chain, k);
    hide WellFormed, GenesisOk, UniqueIds, AllTxs;
  }

  lemma TipOfFork(rs: RefState, t: BlockHash)
    requires RefOk(rs) && t in rs.forks
    ensures rs.forks[t].blocks != [] && Tip(rs.forks[t].blocks).Hash() == t
  {
    hide Linked, Replay, Disjoint;
    assert ForkOk(t, rs.forks[t], rs.chain);
  }

  /** The verdict "buffered" means a stored fork unless the block's parent is unknown; then
      nothing is stored. */
  lemma BufferedIsStored(rs: RefState, b: Block, check: Check)
    requires RefOk(rs)
    ensures rs.chain != []
    ensures RefStep(rs, b, check).1 == Ok(Buffered) ==>
              && (b.Hash() in RefStep(rs, b, check).0.forks <==> !PlaceOf(rs, b).Orphan?)
              && (PlaceOf(rs, b).Orphan? ==> RefStep(rs, b, check).0 == rs)
  {
    hide RefOk, ChainWork, HeightFollows, HasBlock, InForks, ViewOf, Suffix, WithBodies, Surviving;
    ChainNotEmpty(rs);
    if b.Hash() in rs.forks { ForkKeyInForks(rs, b.Hash()); }
  }

  lemma ForkKeyInForks(rs: RefState, t: BlockHash)
    requires RefOk(rs) && t in rs.forks
    ensures InForks(rs.forks, t)
  {
    hide Linked, Replay, Disjoint;
    assert ForkOk(t, rs.forks[t], rs.chain);
    assert Tip(rs.forks[t].blocks) in rs.forks[t].blocks;
  }

  // ---------------------------------------------------------------- runs

  datatype Input = Input(block: Block, check: Check)

  ghost predicate AllSound(inputs: seq<Input>) { forall i :: 0 <= i < |inputs| ==> Sound(inputs[i].check) }

  ghost function Run(rs: RefState, inputs: seq<Input>): RefState
    requires rs.chain != []
    decreases |inputs|
  {
    if inputs == [] then rs
    else
      var next := RefStep(rs, inputs[0].block, inputs[0].check).0;
      if next.chain == [] then next else Run(next, inputs[1..])
  }

  /** Safety over every run, and the canonical work never falls. */
  lemma {:induction false} RunSafe(rs: RefState, inputs: seq<Input>)
    requires RefOk(rs) && AllSound(inputs)
    ensures RefOk(Run(rs, inputs))
    ensures ChainWork(Run(rs, inputs).chain) >= ChainWork(rs.chain)
    decreases |inputs|
  {
    hide RefStep, Linked, Sound, Disjoint, ForkOk;
    if inputs != [] {
      RefStepKeeps(rs, inputs[0].block, inputs[0].check);
      CommitIffHeavier(rs, inputs[0].block, inputs[0].check);
      var next := RefStep(rs, inputs[0].block, inputs[0].check).0;
      ChainNotEmpty(next);
      RunSafe(next, inputs[1..]);
    }
  }

  lemma StepKeepsGenesis(rs: RefState, b: Block, check: Check)
    requires rs.chain != []
    ensures var next := RefStep(rs, b, check).0; next.chain != [] && next.chain[0] == rs.chain[0]
  {
    hide PlaceOf, HeightFollows, ViewOf, ChainWork, Surviving, Suffix;
  }

  lemma {:induction false} RunKeepsGenesis(rs: RefState, inputs: seq<Input>)
    requires rs.chain != []
    ensures Run(rs, inputs).chain != [] && Run(rs, inputs).chain[0] == rs.chain[0]
    decreases |inputs|
  {
    hide RefStep;
    if inputs != [] {
      StepKeepsGenesis(rs, inputs[0].block, inputs[0].check);
      RunKeepsGenesis(RefStep(rs, inputs[0].block, inputs[0].check).0, inputs[1..]);
    }
  }

  lemma ChainNotEmpty(rs: RefState)
    requires RefOk(rs)
    ensures rs.chain != []
  {}

  /** The canonical chain changes exactly on the two committing verdicts, and only to a
      strictly heavier one that ends in the submitted block. */
  lemma CommitIffHeavier(rs: RefState, b: Block, check: Check)
    requires rs.chain != []
    ensures var (rs', out) := RefStep(rs, b, check);
            if out.Ok? && out.value.Commits()
            then ChainWork(rs'.chain) > ChainWork(rs.chain) && rs'.chain != [] && Tip(rs'.chain) == b
            else rs'.chain == rs.chain && rs'.bodies == rs.bodies
    ensures var (rs', out) := RefStep(rs, b, check);
            out != Ok(Buffered) && !(out.Ok? && out.value.Commits()) ==> rs' == rs
  {
    hide ChainWork, PlaceOf, HeightFollows, ViewOf, Surviving, Suffix;
  }

  /** A call fails only if its validator could not read the storage, or no height is left;
      and a failed call changes nothing. */
  lemma FailureCauses(rs: RefState, b: Block, check: Check)
    requires rs.chain != [] && RefStep(rs, b, check).1.Err?
    ensures RefStep(rs, b, check).0 == rs
    ensures b.header.height == U64_MAX || exists v :: check(b, v) == Err(RefStep(rs, b, check).1.error)
  {
    hide ChainWork, HeightFollows, ViewOf, Surviving, Suffix;
    var On(k, prior) := PlaceOf(rs, b);
    var v := ViewOf(rs.bodies, rs.chain[..k + 1] + prior, prior);
    assert check(b, v).Err? ==> check(b, v) == Err(RefStep(rs, b, check).1.error);
  }
}
