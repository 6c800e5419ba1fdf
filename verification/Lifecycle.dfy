/** From genesis through any run of blocks, and across a restart at any point. */
module Lifecycle {
  import opened Primitives
  import opened ChainTypes
  import opened BlockRules
  import opened Storage
  import opened Transition
  import opened CanonicalChain
  import opened Reorg
  import opened TransitionGuards
  import opened ChainIndex
  import opened ForkChoice
  import opened Engine
  import opened Startup

  /** A fresh store initialized with a genesis block. */
  method InitializeStore(g: Block, m: ChainMetadata) returns (r: Result<InMemoryStorage, StorageError>)
    ensures r.Ok? <==> GenesisOk(g)
    ensures r.Ok? ==> fresh(r.value) && Canonical(r.value.data, [g])
    ensures r.Ok? ==> r.value.data.metadata == Some(m) && r.value.data.blocks == map[ZeroHash := g]
  {
    hide Canonical, GenesisOk, GenesisSpec;
    GenesisIsCanonical(g, m);
    GenesisStores(g, m);
    var db := new InMemoryStorage();
    var _ :- db.ApplyTransition(Genesis(g, m));
    r := Ok(db);
  }

  /** Starting the engine on committed tables: the index is rebuilt and no fork is known. */
  method OpenEngine(db: InMemoryStorage, ghost chain: seq<Block>) returns (e: ConsensusEngine)
    requires Canonical(db.data, chain)
    ensures fresh(e) && fresh(e.index) && fresh(e.forks) && e.db == db && e.Valid()
    ensures e.Ref() == RefState(chain, map[], db.data.blocks)
  {
    hide Canonical, Mirrors, BuildSpec;
    RebuildMirrors(db.data, chain);
    var built := BuildChainIndex(db.data);
    assert built.Ok?;
    e := new ConsensusEngine.Over(db, built.value, chain);
  }

  /** Feeding any blocks through the engine runs the fork-choice machine, and after every
      run the rebuilt index is the live one and the UTXO set is that of the canonical chain. */
  method RunEngine(e: ConsensusEngine, inputs: seq<Input>)
    requires e.Valid() && AllSound(inputs)
    modifies e, e.db, e.index, e.forks
    ensures e.Valid() && e.Ref() == Run(old(e.Ref()), inputs)
    ensures BuildSpec(e.db.data) == Ok(e.index.Value())
    ensures Replay(e.chain).Ok? && e.db.data.utxos == Replay(e.chain).value.utxos
    ensures ChainWork(e.chain) >= ChainWork(old(e.chain))
    ensures old(e.chain) != [] && e.chain != [] && e.chain[0] == old(e.chain)[0]
    ensures e.db.data.metadata == old(e.db.data.metadata)
  {
    hide Canonical, Mirrors, RefOk, RefStep, Sound, BuildSpec, ChainWork, NaiveCommit;
    RunSafe(e.Ref(), inputs);
    ChainNotEmpty(e.Ref());
    RunKeepsGenesis(e.Ref(), inputs);
    for i := 0 to |inputs|
      invariant e.Valid() && e.chain != [] && Run(old(e.Ref()), inputs) == Run(e.Ref(), inputs[i..])
      invariant e.db.data.metadata == old(e.db.data.metadata)
    {
      assert inputs[i..][1..] == inputs[i + 1..];
      ghost var rs, before := e.Ref(), e.db.data;
      var r := e.OnBlock(inputs[i].block, inputs[i].check);
      if r.Ok? && r.value.Commits() { CommitKeepsMetadata(rs, inputs[i].block, before, e.db.data); }
      ChainNotEmpty(e.Ref());
    }
    RestartRebuildsIndex(e.db.data, e.chain, e.index.Value());
    UtxosAreReplay(e.db.data, e.chain);
  }

  lemma CommitKeepsMetadata(rs: RefState, b: Block, before: Snapshot, after: Snapshot)
    requires NaiveCommit(rs, b, before, after)
    ensures after.metadata == before.metadata
  {
    hide RewindAndReplay, PlaceOf;
    var On(k, prior) := PlaceOf(rs, b);
    RewindAndReplayKeepsMetadata(before, |rs.chain| - 1 - k, prior + [b]);
  }

  /** A node that starts from a genesis, runs and starts again with the same genesis and parameters
      is let through and finds its tables as it left them. */
  method StartRunStart(g: Block, m: ChainMetadata, inputs: seq<Input>)
    returns (db: InMemoryStorage, again: Result<ChainTransitionResult, StorageError>)
    requires GenesisOk(g) && AllSound(inputs)
    ensures fresh(db) && again.Ok? && db.data.metadata == Some(m)
    ensures exists chain :: Canonical(db.data, chain) && chain != [] && chain[0] == g
                            && Run(RefState([g], map[], map[ZeroHash := g]), inputs).chain == chain
  {
    hide Canonical, GenesisOk, Run, AllSound, GenesisSpec;
    var made := InitializeStore(g, m);
    assert made.Ok?;
    db := made.value;
    var e := OpenEngine(db, [g]);
    RunEngine(e, inputs);
    EngineTables(e);
    GenesisRepeats(db.data, e.chain, g, m);
    ghost var left := db.data;
    again := db.ApplyTransition(Genesis(g, m));
    assert again.Ok? && db.data == left;
  }

  lemma EngineTables(e: ConsensusEngine)
    requires e.Valid()
    ensures Canonical(e.db.data, e.chain)
  {}

  lemma UtxosAreReplay(s: Snapshot, chain: seq<Block>)
    requires Canonical(s, chain)
    ensures Replay(chain).Ok? && s.utxos == Replay(chain).value.utxos
  {}
}
