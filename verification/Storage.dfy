/** The storage tables: a snapshot value, and the view a transition writes to. */
module Storage {
  import opened Primitives
  import opened ChainTypes
  import opened UtxoProcessor

  /** The first n transaction locators of a block; a repeated id keeps its last position. */
  function FirstLocations(b: Block, n: nat): (m: map<TxId, TxLocation>)
    requires n <= |b.txs|
    ensures forall id :: id in m ==>
              && m[id].blockHash == b.Hash() && m[id].blockHeight == b.header.height
              && m[id].txIndex < n && b.txs[m[id].txIndex].data.Hash() == id
    ensures forall i :: 0 <= i < n ==> b.txs[i].data.Hash() in m
  {
    if n == 0 then map[]
    else FirstLocations(b, n - 1)[b.txs[n - 1].data.Hash() := TxLocation(b.Hash(), b.header.height, n - 1)]
  }

  lemma UpdateLast<K, V>(m: map<K, V>, n: map<K, V>, k: K, v: V)
    ensures (m + n)[k := v] == m + n[k := v]
  {}

  function Locations(b: Block): map<TxId, TxLocation> { FirstLocations(b, |b.txs|) }

  function FirstIds(b: Block, n: nat): (s: set<TxId>)
    requires n <= |b.txs|
  {
    set i | 0 <= i < n :: b.txs[i].data.Hash()
  }

  function BlockIndexOf(b: Block, work: u512): BlockIndexData
  {
    BlockIndexData(b.header.previousBlockHash, b.header.height, work)
  }

  datatype Snapshot = Snapshot(
    utxos: UtxoSet,
    blocks: map<BlockHash, Block>,
    heights: map<nat, BlockHash>,
    indexes: map<BlockHash, BlockIndexData>,
    transactions: map<TxId, TxLocation>,
    undos: map<BlockHash, BlockUndo>,
    state: Option<ChainState>,
    metadata: Option<ChainMetadata>)
  {
    function BlockByHeight(height: nat): Result<Option<Block>, StorageError>
    {
      if height !in heights then Ok(None)
      else if heights[height] in blocks then Ok(Some(blocks[heights[height]]))
      else Err(Corruption)
    }

    /** A confirmed transaction with its checked location. */
    function GetTransaction(id: TxId): Result<Option<(Transaction, TxLocation)>, StorageError>
    {
      if id !in transactions then Ok(None)
      else
        var at := transactions[id];
        if at.blockHash !in blocks then Err(Corruption)
        else
          var b := blocks[at.blockHash];
          if at.txIndex < |b.txs| && b.Hash() == at.blockHash && b.header.height == at.blockHeight
             && b.txs[at.txIndex].data.Hash() == id
          then Ok(Some((b.txs[at.txIndex], at)))
          else Err(Corruption)
    }

    function PutBlock(b: Block, index: BlockIndexData): Snapshot
    {
      this.(blocks := blocks[b.Hash() := b],
            heights := heights[b.header.height := b.Hash()],
            indexes := indexes[b.Hash() := index],
            transactions := transactions + Locations(b))
    }

    /** Ids of the first n transactions of b that this table still places in b. */
    function OwnedIds(b: Block, n: nat): set<TxId>
      requires n <= |b.txs|
    {
      set id | id in FirstIds(b, n) && id in transactions && transactions[id].blockHash == b.Hash()
    }

    function RemoveCanonicalBlock(b: Block): Result<Snapshot, StorageError>
    {
      if b.header.height in heights && heights[b.header.height] == b.Hash()
      then Ok(this.(heights := heights - {b.header.height},
                    transactions := transactions - OwnedIds(b, |b.txs|)))
      else Err(Corruption)
    }
  }

  const EMPTY_SNAPSHOT := Snapshot(map[], map[], map[], map[], map[], map[], None, None)

  /** The staged copy of the tables inside one write transaction. */
  class MemoryView {
    var utxos: UtxoSet
    var blocks: map<BlockHash, Block>
    var heights: map<nat, BlockHash>
    var indexes: map<BlockHash, BlockIndexData>
    var transactions: map<TxId, TxLocation>
    var undos: map<BlockHash, BlockUndo>
    var state: Option<ChainState>
    var metadata: Option<ChainMetadata>

    function Snap(): Snapshot
      reads this
    {
      Snapshot(utxos, blocks, heights, indexes, transactions, undos, state, metadata)
    }

    constructor (from: Snapshot)
      ensures Snap() == from
    {
      utxos, blocks, heights, indexes := from.utxos, from.blocks, from.heights, from.indexes;
      transactions, undos, state, metadata := from.transactions, from.undos, from.state, from.metadata;
    }

    method BatchGetUtxos(ops: seq<OutPoint>) returns (r: Result<UtxoSet, StorageError>)
      ensures r.Ok? <==> forall op :: op in ops ==> op in utxos
      ensures r.Ok? ==> r.value == Restrict(utxos, Elements(ops))
      ensures r.Err? ==> r.error == UtxoNotFound
    {
      var found: UtxoSet := map[];
      for i := 0 to |ops|
        invariant forall op :: op in ops[..i] ==> op in utxos
        invariant found == Restrict(utxos, Elements(ops[..i]))
      {
        if ops[i] !in utxos { return Err(UtxoNotFound); }
        assert ops[..i + 1] == ops[..i] + [ops[i]];
        found := found[ops[i] := utxos[ops[i]]];
      }
      assert ops[..|ops|] == ops;
      r := Ok(found);
    }

    method BatchPutUtxos(puts: UtxoSet)
      modifies this`utxos
      ensures utxos == old(utxos) + puts
    {
      utxos := utxos + puts;
    }

    method BatchRemoveUtxos(ops: set<OutPoint>) returns (r: Result<(), StorageError>)
      modifies this`utxos
      ensures r == if ops <= old(utxos.Keys) then Ok(()) else Err(UtxoNotFound)
      ensures utxos == if r.Ok? then old(utxos) - ops else old(utxos)
    {
      if !(ops <= utxos.Keys) { return Err(UtxoNotFound); }
      utxos := utxos - ops;
      r := Ok(());
    }

    /** UtxoProcessor::apply_block against this view. */
    method ApplyBlock(b: Block) returns (r: Result<BlockUndo, StorageError>)
      modifies this`utxos
      ensures var a := UtxoProcessor.ApplyBlock(old(utxos), b.txs);
              match r
              case Ok(undo) => a == Ok(Applied(utxos, undo))
              case Err(e) => a == Err(e) && utxos == old(utxos)
    {
      hide NetBlock;
      var e := ComputeNetEffect(b.txs);
      var spent: UtxoSet := map[];
      if e.external != [] {
        var existing :- BatchGetUtxos(e.external);
        spent :- DrainSpent(existing, e.external);
        var removed := BatchRemoveUtxos(Elements(e.external));
        assert removed.Ok?;
      }
      assert utxos == old(utxos) - Elements(e.external);
      assert spent == Restrict(old(utxos), Elements(e.external));
      BatchPutUtxos(e.created);
      r := Ok(BlockUndo(spent, e.created.Keys));
    }

    method PutBlock(b: Block, index: BlockIndexData)
      modifies this
      ensures Snap() == old(Snap()).PutBlock(b, index)
    {
      var hash := b.Hash();
      blocks := blocks[hash := b];
      heights := heights[b.header.height := hash];
      indexes := indexes[hash := index];
      IndexTransactions(b);
    }

    method IndexTransactions(b: Block)
      modifies this`transactions
      ensures transactions == old(transactions) + Locations(b)
    {
      for i := 0 to |b.txs|
        invariant transactions == old(transactions) + FirstLocations(b, i)
      {
        var id, at := b.txs[i].data.Hash(), TxLocation(b.Hash(), b.header.height, i);
        UpdateLast(old(transactions), FirstLocations(b, i), id, at);
        transactions := transactions[id := at];
      }
    }

    method RemoveCanonicalBlock(b: Block) returns (r: Result<(), StorageError>)
      modifies this
      ensures match old(Snap()).RemoveCanonicalBlock(b)
              case Ok(s) => r == Ok(()) && Snap() == s
              case Err(e) => r == Err(e) && Snap() == old(Snap())
    {
      var hash := b.Hash();
      if b.header.height !in heights || heights[b.header.height] != hash { return Err(Corruption); }
      heights := heights - {b.header.height};
      for i := 0 to |b.txs|
        invariant Snap() == old(Snap()).(heights := heights, transactions := transactions)
        invariant heights == old(heights) - {b.header.height}
        invariant transactions == old(transactions) - old(Snap()).OwnedIds(b, i)
      {
        var id := b.txs[i].data.Hash();
        assert FirstIds(b, i + 1) == FirstIds(b, i) + {id};
        if id in transactions && transactions[id].blockHash == hash {
          transactions := transactions - {id};
        }
      }
      r := Ok(());
    }

    method PutBlockUndo(hash: BlockHash, undo: BlockUndo)
      modifies this`undos
      ensures undos == old(undos)[hash := undo]
    {
      undos := undos[hash := undo];
    }

    method PutChainState(st: ChainState)
      modifies this`state
      ensures state == Some(st)
    {
      state := Some(st);
    }

    method PutMetadata(m: ChainMetadata)
      modifies this`metadata
      ensures metadata == Some(m)
    {
      metadata := Some(m);
    }
  }
}
