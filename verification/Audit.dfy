/** Whatever a validator vouches for about a block and the set below it holds of every block
    of every branch, through every run; so the money supply stays bounded over every run. */
module Audit {
  import opened Primitives
  import opened ChainTypes
  import opened UtxoProcessor
  import opened BlockRules
  import opened Ledger
  import opened BlockValidation
  import opened CanonicalChain
  import opened Overlay
  import opened Reorg
  import opened ForkChoice
  import opened Supply
  import opened LiveOutputs
  import opened AcceptanceRules

  type Property = (Block, UtxoSet) -> bool

  ghost predicate Vouches(check: Check, p: Property)
  {
    forall b, v: BranchView :: check(b, v).Ok? && !b.header.IsGenesis() ==> p(b, v.utxos)
  }

  ghost predicate BranchAudited(branch: seq<Block>, p: Property)
  {
    forall n :: 1 <= n < |branch| ==> Replay(branch[..n]).Ok? && p(branch[n], Replay(branch[..n]).value.utxos)
  }

  /** The branch a fork stands for. */
  ghost function BranchOf(chain: seq<Block>, e: ForkEntry): seq<Block>
    requires chain != []
  {
    chain[..IndexIn(chain, e.commonAncestor) + 1] + e.blocks
  }

  ghost predicate Audited(rs: RefState, p: Property)
  {
    && rs.chain != []
    && BranchAudited(rs.chain, p)
    && forall t :: t in rs.forks ==> BranchAudited(BranchOf(rs.chain, rs.forks[t]), p)
  }

  lemma AuditPrefix(chain: seq<Block>, k: nat, p: Property)
    requires BranchAudited(chain, p) && k <= |chain|
    ensures BranchAudited(chain[..k], p)
  {
    hide Replay;
    forall n | 1 <= n < k
      ensures Replay(chain[..k][..n]).Ok? && p(chain[..k][n], Replay(chain[..k][..n]).value.utxos)
    {
      assert chain[..k][..n] == chain[..n];
    }
  }

  lemma AuditExtend(branch: seq<Block>, b: Block, p: Property)
    requires BranchAudited(branch, p) && Replay(branch).Ok? && p(b, Replay(branch).value.utxos)
    ensures BranchAudited(branch + [b], p)
  {
    hide Replay;
    var longer := branch + [b];
    forall n | 1 <= n < |longer| ensures Replay(longer[..n]).Ok? && p(longer[n], Replay(longer[..n]).value.utxos) {
      assert longer[..n] == branch[..n];
      assert branch[..|branch|] == branch;
    }
  }

  lemma PlacedBranchAudited(rs: RefState, b: Block, k: nat, prior: seq<Block>, p: Property)
    requires Audited(rs, p) && Linked(rs.chain) && Placed(rs, b, k, prior)
    ensures BranchAudited(rs.chain[..k + 1] + prior, p)
  {
    hide Replay, Linked, BranchAudited, OnBranch, InForks;
    IndexUnique(rs.chain, k);
    if prior == [] {
      AuditPrefix(rs.chain, k + 1, p);
      assert rs.chain[..k + 1] + prior == rs.chain[..k + 1];
    } else {
      assert BranchOf(rs.chain, rs.forks[Tip(prior).Hash()]) == rs.chain[..k + 1] + prior;
    }
  }

  lemma AcceptedBranchAudited(rs: RefState, b: Block, check: Check, k: nat, prior: seq<Block>, p: Property)
    requires Audited(rs, p) && Linked(rs.chain) && Placed(rs, b, k, prior) && Vouches(check, p)
    requires check(b, ViewOf(rs.bodies, rs.chain[..k + 1] + prior, prior)).Ok?
    ensures BranchAudited(rs.chain[..k + 1] + (prior + [b]), p)
  {
    hide Replay, Linked, BranchAudited, InForks, Audited, WithBodies, HeightsOf;
    var branch := rs.chain[..k + 1] + prior;
    PlacedBranchAudited(rs, b, k, prior, p);
    AuditExtend(branch, b, p);
    assert branch + [b] == rs.chain[..k + 1] + (prior + [b]);
  }

  lemma BufferAudits(rs: RefState, k: nat, blocks: seq<Block>, p: Property)
    requires Audited(rs, p) && Linked(rs.chain) && k < |rs.chain| && blocks != []
    requires BranchAudited(rs.chain[..k + 1] + blocks, p)
    ensures Audited(Buffer(rs, k, blocks), p)
  {
    hide Replay, Linked, BranchAudited, ChainWork;
    IndexUnique(rs.chain, k);
  }

  lemma AdoptAudits(rs: RefState, k: nat, blocks: seq<Block>, linear: bool, p: Property)
    requires Audited(rs, p) && RefOk(rs) && k < |rs.chain| && blocks != [] && Extends(rs, k, blocks)
    requires BranchAudited(rs.chain[..k + 1] + blocks, p)
    ensures Audited(Adopt(rs, k, blocks, linear).0, p)
  {
    hide Replay, Linked, BranchAudited, ChainWork, Disjoint, AllWellFormed, ForkAt, WithBodies;
    var longer := rs.chain[..k + 1] + blocks;
    forall t | t in rs.forks && Survives(rs.forks[t], longer)
      ensures BranchOf(longer, rs.forks[t]) == BranchOf(rs.chain, rs.forks[t])
    {
      var ancestor := rs.forks[t].commonAncestor;
      assert ForkOk(t, rs.forks[t], rs.chain);
      SurvivorAncestor(rs.chain, k, blocks, ancestor);
      var i := IndexIn(rs.chain, ancestor);
      assert longer[..i + 1] == rs.chain[..i + 1];
    }
  }

  /** Every step keeps every branch audited. */
  lemma RefStepAudits(rs: RefState, b: Block, check: Check, p: Property)
    requires RefOk(rs) && Audited(rs, p) && Sound(check) && Vouches(check, p)
    ensures Audited(RefStep(rs, b, check).0, p)
  {
    hide Sound, Vouches, Audited, PlaceOf, HeightFollows, Buffer, Adopt, ViewOf, ChainWork, Placed, Extends, ForkOk,
      Disjoint, Linked, BranchAudited, Replay;
    ChainNotEmpty(rs);
    if b.header.WorkShapeOk() && HeightFollows(rs, b) && PlaceOf(rs, b).On? {
      var On(k, prior) := PlaceOf(rs, b);
      PlacedOnBranch(rs, b);
      if check(b, ViewOf(rs.bodies, rs.chain[..k + 1] + prior, prior)).Ok? {
        ExtendedBranch(rs, b, check, k, prior);
        AcceptedBranchAudited(rs, b, check, k, prior, p);
        if ChainWork(rs.chain[..k + 1] + (prior + [b])) > ChainWork(rs.chain) {
          AdoptAudits(rs, k, prior + [b], prior == [] && k == |rs.chain| - 1, p);
        } else {
          BufferAudits(rs, k, prior + [b], p);
        }
      }
    }
  }

  ghost predicate AllVouch(inputs: seq<Input>, p: Property)
  {
    forall i :: 0 <= i < |inputs| ==> Vouches(inputs[i].check, p)
  }

  lemma {:induction false} RunAudits(rs: RefState, inputs: seq<Input>, p: Property)
    requires RefOk(rs) && Audited(rs, p) && AllSound(inputs) && AllVouch(inputs, p)
    ensures Audited(Run(rs, inputs), p)
    decreases |inputs|
  {
    hide RefStep, RefOk, Audited, Sound, Vouches;
    if inputs != [] {
      ChainNotEmpty(rs);
      RefStepKeeps(rs, inputs[0].block, inputs[0].check);
      RefStepAudits(rs, inputs[0].block, inputs[0].check, p);
      RunAudits(RefStep(rs, inputs[0].block, inputs[0].check).0, inputs[1..], p);
    }
  }

  // ---------------------------------------------------------------- the repository's validator

  /** What this validator vouches for when it accepts a block: the static rules of BlockRules
      and the acceptance of BlockValidation. */
  ghost predicate Validates(b: Block, c: GenesisState, m: UtxoSet, recover: Recover)
  {
    HeaderOk(b) && StructureOk(b) && AcceptedAfter(b, c, m, recover)
  }

  /** The whole validator, rule by rule. */
  ghost predicate ValidByRules(b: Block, c: GenesisState, m: UtxoSet, recover: Recover)
    requires !b.header.IsGenesis()
  {
    && b.header.merkleRoot == MerkleRoot(b.txs) && b.header.hashThreshold != 0
    && b.txs != [] && b.txs[0].data.kind == Coinbase(b.header.height, b.header.previousBlockHash)
    && (forall i :: 1 <= i < |b.txs| ==> b.txs[i].data.kind == Payment)
    && (forall i, j :: 0 <= i < j < |b.txs| ==> b.txs[i] != b.txs[j])
    && MeetsRules(b, c, m, recover)
  }

  lemma ValidatesIffRules(b: Block, c: GenesisState, m: UtxoSet, recover: Recover)
    requires !b.header.IsGenesis()
    ensures Validates(b, c, m, recover) <==> ValidByRules(b, c, m, recover)
  {
    hide Accepts, MeetsRules, SpentInOrder;
    if CompositionOk(b) { AcceptsIffRules(b, c, m, recover); }
    if ValidByRules(b, c, m, recover) { RulesGiveUniqueInputs(b, c, m, recover); }
  }

  lemma AcceptedIsNew(branch: seq<Block>, b: Block, c: GenesisState, m: UtxoSet, recover: Recover)
    requires OnBranch(branch, b) && m == Replay(branch).value.utxos && !b.header.IsGenesis()
    requires Validates(b, c, m, recover) && PaymentsSpend(b.txs)
    ensures ApplyBlock(m, b.txs).Ok? && NewIds(branch, b)
  {
    AcceptedEffect(b, c, m, recover);
    LinkedWellFormed(branch);
    hide ApplyBlock, ApplyBlocks, PaymentsSpend, AcceptedAfter, WellFormedChain, HeaderOk, StructureOk, NewIds;
    SpendingBlockIsNew(branch, b);
  }

  /** A check that accepts only what this validator accepts, and only payments with inputs,
      is sound in the sense the fork choice relies on. */
  lemma ValidatorIsSound(check: Check, c: GenesisState, recover: Recover)
    requires forall b, v: BranchView :: check(b, v).Ok? && !b.header.IsGenesis() ==>
               Validates(b, c, v.utxos, recover) && PaymentsSpend(b.txs)
    ensures Sound(check)
  {
    hide HeaderOk, StructureOk, Accepts, NewIds, ApplyBlock, Linked, Replay;
    forall b, v, branch | OnBranch(branch, b) && Shows(v, branch) && check(b, v).Ok? && !b.header.IsGenesis()
      ensures WellFormed(b) && ApplyBlock(v.utxos, b.txs).Ok? && NewIds(branch, b)
    {
      AcceptedIsNew(branch, b, c, v.utxos, recover);
    }
  }

  ghost function AcceptedRule(c: GenesisState, recover: Recover): (p: Property)
    ensures forall b, m :: p(b, m) <==> AcceptedAfter(b, c, m, recover)
  {
    (b, m) => AcceptedAfter(b, c, m, recover)
  }

  lemma {:induction false} GenesisStart(g: Block, bodies: BlockTable, p: Property)
    requires GenesisOk(g)
    ensures RefOk(RefState([g], map[], bodies)) && Audited(RefState([g], map[], bodies), p)
  {
    GenesisEffect(g);
    GenesisLinked(g);
    hide Linked, Replay;
  }

  /** From genesis on, through any run of blocks, forks and reorganizations, the UTXO set
      holds no more than the genesis allocations and the subsidies of the canonical heights. */
  lemma {:induction false} SupplyBoundedOverRuns(g: Block, bodies: BlockTable, inputs: seq<Input>, c: GenesisState,
                                                 recover: Recover)
    requires GenesisOk(g) && AllSound(inputs) && AllVouch(inputs, AcceptedRule(c, recover))
    ensures var chain := Run(RefState([g], map[], bodies), inputs).chain;
            && Replay(chain).Ok? && |chain| <= U64_MAX + 1
            && TotalValue(Replay(chain).value.utxos) <= OutputSum(g.txs[0].data.outputs) + Emission(c, |chain|)
  {
    hide AcceptedAfter, AcceptedRule, TotalValue, OutputSum, Emission, AllSound, AllVouch, Run, Replay, Linked,
      WellFormedChain, GenesisOk;
    var p := AcceptedRule(c, recover);
    var rs := RefState([g], map[], bodies);
    GenesisStart(g, bodies, p);
    RunSafe(rs, inputs);
    RunAudits(rs, inputs, p);
    RunKeepsGenesis(rs, inputs);
    var chain := Run(rs, inputs).chain;
    assert chain[..|chain|] == chain;
    LinkedWellFormed(chain);
    SupplyBound(chain, |chain|, c, recover);
  }

  /** What a run leaves was accepted block by block. */
  lemma {:induction false} AcceptedOverRuns(g: Block, bodies: BlockTable, inputs: seq<Input>, c: GenesisState,
                                            recover: Recover)
    requires GenesisOk(g) && AllSound(inputs) && AllVouch(inputs, AcceptedRule(c, recover))
    ensures var chain := Run(RefState([g], map[], bodies), inputs).chain;
            Linked(chain) && Replay(chain).Ok? && ChainAccepted(chain, c, recover)
  {
    hide AcceptedAfter, AcceptedRule, AllSound, AllVouch, Run, Replay, Linked, GenesisOk;
    var p := AcceptedRule(c, recover);
    var rs := RefState([g], map[], bodies);
    GenesisStart(g, bodies, p);
    RunSafe(rs, inputs);
    RunAudits(rs, inputs, p);
  }

  /** Over any run, an entry that a canonical block removes was paid away by its owner. */
  lemma {:induction false} OnlyOwnersSpend(g: Block, bodies: BlockTable, inputs: seq<Input>, c: GenesisState,
                                           recover: Recover, n: nat, op: OutPoint)
    requires GenesisOk(g) && AllSound(inputs) && AllVouch(inputs, AcceptedRule(c, recover))
    requires 1 <= n < |Run(RefState([g], map[], bodies), inputs).chain|
    ensures var chain := Run(RefState([g], map[], bodies), inputs).chain;
            && Replay(chain[..n]).Ok? && Replay(chain[..n + 1]).Ok?
            && var (before, after) := (Replay(chain[..n]).value.utxos, Replay(chain[..n + 1]).value.utxos);
               op in before && op !in after ==>
                 exists tx :: tx in chain[n].txs && TakesInput(tx, op) && recover(tx) == Some(before[op].owner)
  {
    hide AcceptedRule, AllSound, AllVouch, Run, Replay, Linked, GenesisOk, ChainAccepted, TakesInput;
    var chain := Run(RefState([g], map[], bodies), inputs).chain;
    AcceptedOverRuns(g, bodies, inputs, c, recover);
    ReplayOfPrefix(chain, n);
    ReplayOfPrefix(chain, n + 1);
    if op in Replay(chain[..n]).value.utxos && op !in Replay(chain[..n + 1]).value.utxos {
      LeavesSigned(chain, n, c, recover, op);
    }
  }

  lemma LinkedWellFormed(chain: seq<Block>)
    requires Linked(chain)
    ensures WellFormedChain(chain)
  {}
}
