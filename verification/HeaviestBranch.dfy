/** What becomes of a block that its validator accepts, and that the heaviest accepted branch wins. */
module HeaviestBranch {
  import opened Primitives
  import opened ChainTypes
  import opened UtxoProcessor
  import opened BlockRules
  import opened CanonicalChain
  import opened Reorg
  import opened ForkChoice

  // ---------------------------------------------------------------- where a block belongs

  /** A block not seen before whose parent is canonical block k, or the last block of the buffered
      fork `prior` that leaves the chain above k. */
  ghost predicate Follows(rs: RefState, b: Block, k: nat, prior: seq<Block>)
  {
    var parent := b.header.previousBlockHash;
    && k < |rs.chain|
    && !HasBlock(rs.chain, b.Hash())
    && (forall t :: t in rs.forks ==> !HasBlock(rs.forks[t].blocks, b.Hash()))
    && if prior == [] then parent == rs.chain[k].Hash()
       else parent in rs.forks && rs.forks[parent].blocks == prior
            && rs.forks[parent].commonAncestor == rs.chain[k].Hash()
  }

  lemma ForkTop(rs: RefState, t: BlockHash, k: nat)
    requires RefOk(rs) && t in rs.forks && k < |rs.chain| && rs.forks[t].commonAncestor == rs.chain[k].Hash()
    ensures var blocks := rs.forks[t].blocks;
            && blocks != [] && Tip(blocks).Hash() == t && Tip(blocks).header.height == k + |blocks|
            && !HasBlock(rs.chain, t) && IndexIn(rs.chain, rs.chain[k].Hash()) == k
            && HasBlock(rs.chain, rs.chain[k].Hash())
  {
    hide Linked, Replay, Disjoint, WellFormed, ChainWork, HasBlock;
    assert ForkOk(t, rs.forks[t], rs.chain);
    CanonicalHeight(rs.chain, k);
    var blocks := rs.forks[t].blocks;
    OnItsBranch(rs.chain, blocks, k, |blocks| - 1);
    assert Tip(blocks) in blocks;
  }

  /** The machine puts such a block onto that branch, and demands the next height of it. */
  lemma FollowsPlaced(rs: RefState, b: Block, k: nat, prior: seq<Block>)
    requires RefOk(rs) && Follows(rs, b, k, prior)
    ensures PlaceOf(rs, b) == On(k, prior)
    ensures HeightFollows(rs, b) <==> b.header.height == k + 1 + |prior|
  {
    hide RefOk, HasBlock, Linked;
    LinkedState(rs);
    if prior == [] {
      CanonicalHeight(rs.chain, k);
    } else {
      hide IndexIn;
      ForkTop(rs, b.header.previousBlockHash, k);
    }
  }

  lemma LinkedState(rs: RefState)
    requires RefOk(rs)
    ensures Linked(rs.chain) && rs.chain != []
  {
    hide Replay, Disjoint, ForkOk;
  }

  // ---------------------------------------------------------------- what becomes of it

  /** The branch is canonical now. Of the forks exactly those are left whose ancestor is on it and
      none of whose blocks is. */
  ghost predicate Committed(rs: RefState, rs': RefState, out: Result<Verdict, CoreError>, k: nat, blocks: seq<Block>)
    requires k < |rs.chain| && blocks != []
  {
    var (branch, b) := (rs.chain[..k + 1] + blocks, Tip(blocks));
    && rs'.chain == branch
    && (forall t :: t in rs'.forks <==>
          t in rs.forks && HasBlock(branch, rs.forks[t].commonAncestor)
          && forall x :: x in rs.forks[t].blocks ==> !HasBlock(branch, x.Hash()))
    && (forall t :: t in rs'.forks ==> rs'.forks[t] == rs.forks[t])
    && out.Ok? && (if k == |rs.chain| - 1 && |blocks| == 1 then out.value.Applied? else out.value.CausedReorganization?)
    && var t := out.value.transition;
       && t.newHead == (b.header.height, b.Hash()) && t.chainWork == ChainWork(branch)
       && t.attached == blocks && TipFirst(rs.chain, k, t.detached)
  }

  /** The branch is a buffered fork now, in place of the fork it extends. */
  ghost predicate Stored(rs: RefState, rs': RefState, out: Result<Verdict, CoreError>, k: nat, blocks: seq<Block>)
    requires k < |rs.chain| && blocks != []
  {
    var (hash, parent) := (Tip(blocks).Hash(), Tip(blocks).header.previousBlockHash);
    && rs'.chain == rs.chain && rs'.bodies == rs.bodies && out == Ok(Buffered)
    && hash in rs'.forks
    && rs'.forks[hash] == ForkEntry(hash, ChainWork(rs.chain[..k + 1] + blocks), rs.chain[k].Hash(), blocks)
    && (parent != hash ==> parent !in rs'.forks)
    && forall t :: t != hash && t != parent ==>
         (t in rs'.forks <==> t in rs.forks) && (t in rs.forks ==> rs'.forks[t] == rs.forks[t])
  }

  /** A block accepted on its branch becomes canonical when its branch is heavier than the chain,
      and is kept as a fork otherwise; only the last height of all cannot be committed. */
  lemma AcceptedBlockKept(rs: RefState, b: Block, k: nat, prior: seq<Block>, check: Check)
    requires RefOk(rs) && Follows(rs, b, k, prior)
    requires !b.header.IsGenesis() && b.header.height == k + 1 + |prior|
    requires check(b, ViewOf(rs.bodies, rs.chain[..k + 1] + prior, prior)).Ok?
    ensures var (branch, blocks) := (rs.chain[..k + 1] + (prior + [b]), prior + [b]);
            var (rs', out) := RefStep(rs, b, check);
            if ChainWork(branch) <= ChainWork(rs.chain) then Stored(rs, rs', out, k, blocks)
            else if b.header.height < U64_MAX then Committed(rs, rs', out, k, blocks)
            else rs' == rs && out == Err(StorageFailure(InvalidTransition))
  {
    hide RefOk, RefStep, ChainWork, ViewOf, Adopt, Buffer, Follows, Committed, Stored;
    StepOfAccepted(rs, b, k, prior, check);
    assert Tip(prior + [b]) == b;
    AdoptCommits(rs, k, prior + [b], prior == [] && k == |rs.chain| - 1);
    BufferStores(rs, k, prior + [b]);
  }

  lemma {:induction false} StepOfAccepted(rs: RefState, b: Block, k: nat, prior: seq<Block>, check: Check)
    requires RefOk(rs) && Follows(rs, b, k, prior)
    requires !b.header.IsGenesis() && b.header.height == k + 1 + |prior|
    requires check(b, ViewOf(rs.bodies, rs.chain[..k + 1] + prior, prior)).Ok?
    ensures k < |rs.chain|
    ensures RefStep(rs, b, check) ==
            if ChainWork(rs.chain[..k + 1] + (prior + [b])) > ChainWork(rs.chain)
            then Adopt(rs, k, prior + [b], prior == [] && k == |rs.chain| - 1)
            else (Buffer(rs, k, prior + [b]), Ok(Buffered))
  {
    hide RefOk, HasBlock, ChainWork, ViewOf, HeightFollows, PlaceOf, Adopt, Buffer, Follows;
    LinkedState(rs);
    FollowsPlaced(rs, b, k, prior);
  }

  lemma AdoptCommits(rs: RefState, k: nat, blocks: seq<Block>, linear: bool)
    requires k < |rs.chain| && blocks != [] && (linear <==> k == |rs.chain| - 1 && |blocks| == 1)
    ensures var (rs', out) := Adopt(rs, k, blocks, linear);
            if Tip(blocks).header.height == U64_MAX then rs' == rs && out == Err(StorageFailure(InvalidTransition))
            else Committed(rs, rs', out, k, blocks)
  {
    hide HasBlock, ChainWork, WithBodies, Suffix;
    SuffixTipFirst(rs.chain, k);
  }

  lemma BufferStores(rs: RefState, k: nat, blocks: seq<Block>)
    requires k < |rs.chain| && blocks != []
    ensures Stored(rs, Buffer(rs, k, blocks), Ok(Buffered), k, blocks)
  {
    hide ChainWork;
  }

  /** So no accepted branch is heavier than the canonical chain that follows. */
  lemma {:induction false} AcceptedNotHeavier(rs: RefState, b: Block, k: nat, prior: seq<Block>, check: Check)
    requires RefOk(rs) && Accepted(rs, b, k, prior, check)
    ensures rs.chain != []
    ensures ChainWork(RefStep(rs, b, check).0.chain) >= ChainWork(rs.chain[..k + 1] + (prior + [b]))
  {
    hide RefOk, ChainWork, ViewOf, RefStep, Follows;
    LinkedState(rs);
    AcceptedBlockKept(rs, b, k, prior, check);
  }

  ghost predicate Accepted(rs: RefState, b: Block, k: nat, prior: seq<Block>, check: Check)
  {
    && Follows(rs, b, k, prior)
    && !b.header.IsGenesis() && b.header.height == k + 1 + |prior| < U64_MAX
    && check(b, ViewOf(rs.bodies, rs.chain[..k + 1] + prior, prior)).Ok?
  }

  /** A validator's refusal changes nothing; only a storage failure is not a verdict. */
  lemma RefusedBlockDropped(rs: RefState, b: Block, k: nat, prior: seq<Block>, check: Check)
    requires RefOk(rs) && Follows(rs, b, k, prior)
    requires !b.header.IsGenesis() && b.header.height == k + 1 + |prior|
    requires check(b, ViewOf(rs.bodies, rs.chain[..k + 1] + prior, prior)).Err?
    ensures var e := check(b, ViewOf(rs.bodies, rs.chain[..k + 1] + prior, prior)).error;
            RefStep(rs, b, check) == (rs, if e.StorageFailure? then Err(e) else Ok(Rejected(e)))
  {
    hide RefOk, HasBlock, ChainWork, ViewOf, Replay, HeightFollows, PlaceOf, Follows;
    LinkedState(rs);
    FollowsPlaced(rs, b, k, prior);
  }

  /** The parent is known and the height is not the next one. */
  lemma WrongHeightRejected(rs: RefState, b: Block, k: nat, prior: seq<Block>, check: Check)
    requires RefOk(rs) && Follows(rs, b, k, prior) && b.header.height != k + 1 + |prior|
    ensures rs.chain != [] && RefStep(rs, b, check) == (rs, Ok(Rejected(ValidationFailed)))
  {
    hide RefOk, HasBlock, ChainWork, ViewOf, Replay, HeightFollows, PlaceOf, Follows;
    LinkedState(rs);
    FollowsPlaced(rs, b, k, prior);
  }

  /** A new block whose parent is neither canonical nor the last block of a fork is not kept. */
  lemma OrphanNotKept(rs: RefState, b: Block, check: Check)
    requires RefOk(rs) && !b.header.IsGenesis()
    requires !HasBlock(rs.chain, b.Hash()) && !InForks(rs.forks, b.Hash())
    requires !HasBlock(rs.chain, b.header.previousBlockHash) && b.header.previousBlockHash !in rs.forks
    ensures rs.chain != [] && RefStep(rs, b, check) == (rs, Ok(Buffered))
  {
    LinkedState(rs);
    hide RefOk, HasBlock, ChainWork, ViewOf, Replay;
  }

  // ---------------------------------------------------------------- runs

  lemma {:induction false} RunSplit(rs: RefState, xs: seq<Input>, ys: seq<Input>)
    requires RefOk(rs) && AllSound(xs)
    ensures rs.chain != [] && Run(rs, xs).chain != []
    ensures Run(rs, xs + ys) == Run(Run(rs, xs), ys)
    decreases |xs|
  {
    hide RefOk, RefStep, Sound;
    LinkedState(rs);
    if xs == [] {
      assert xs + ys == ys;
    } else {
      RefStepKeeps(rs, xs[0].block, xs[0].check);
      var next := RefStep(rs, xs[0].block, xs[0].check).0;
      LinkedState(next);
      assert (xs + ys)[0] == xs[0] && (xs + ys)[1..] == xs[1..] + ys;
      RunSplit(next, xs[1..], ys);
    }
  }

  lemma {:induction false} RunFirst(rs: RefState, inputs: seq<Input>)
    requires RefOk(rs) && inputs != [] && Sound(inputs[0].check)
    ensures rs.chain != [] && RefOk(RefStep(rs, inputs[0].block, inputs[0].check).0)
    ensures RefStep(rs, inputs[0].block, inputs[0].check).0.chain != []
    ensures Run(rs, inputs) == Run(RefStep(rs, inputs[0].block, inputs[0].check).0, inputs[1..])
  {
    hide RefOk, RefStep, Sound;
    LinkedState(rs);
    RefStepKeeps(rs, inputs[0].block, inputs[0].check);
    LinkedState(RefStep(rs, inputs[0].block, inputs[0].check).0);
  }

  /** After a run the canonical chain is at least as heavy as every branch that a validator accepted
      on the way. */
  lemma {:induction false} RunHeaviest(rs: RefState, inputs: seq<Input>, i: nat, k: nat, prior: seq<Block>)
    requires RefOk(rs) && AllSound(inputs) && i < |inputs|
    requires rs.chain != [] && Accepted(Run(rs, inputs[..i]), inputs[i].block, k, prior, inputs[i].check)
    ensures var at := Run(rs, inputs[..i]);
            ChainWork(Run(rs, inputs).chain) >= ChainWork(at.chain[..k + 1] + (prior + [inputs[i].block]))
  {
    hide RefOk, RefStep, Sound, Accepted, ChainWork, Run;
    var before, after := inputs[..i], inputs[i..];
    var at := Run(rs, before);
    assert before + after == inputs && after[0] == inputs[i];
    RunSafe(rs, before);
    RunSplit(rs, before, after);
    RunFirst(at, after);
    AcceptedNotHeavier(at, inputs[i].block, k, prior, inputs[i].check);
    assert AllSound(after[1..]);
    RunSafe(RefStep(at, inputs[i].block, inputs[i].check).0, after[1..]);
  }
}
