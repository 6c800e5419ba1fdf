/** Blocks, transactions and the records stored about them.

    Hashes are ideal: a digest is its own preimage, so equal digests mean equal
    preimages. Genesis is the exception the source makes: it hashes to zero. */
module ChainTypes {
  import opened Primitives

  // ---------------------------------------------------------------- transactions

  datatype TxId = TxId(preimage: TransactionData)

  datatype OutPoint = OutPoint(txid: TxId, vout: nat)

  datatype TransactionIn = TransactionIn(previousOutput: OutPoint, sequence: u32)

  datatype TransactionOut = TransactionOut(value: u64, recipient: nat)

  datatype TransactionKind =
    | Coinbase(height: u64, parent: BlockHash)
    | GenesisAllocation
    | Payment

  datatype TransactionData = TransactionData(
    version: nat, kind: TransactionKind, inputs: seq<TransactionIn>, outputs: seq<TransactionOut>)
  {
    /** The signature is not part of the preimage. */
    function Hash(): TxId { TxId(this) }
  }

  datatype Transaction = Transaction(data: TransactionData, signature: seq<nat>)

  datatype Utxo = Utxo(txid: TxId, vout: nat, value: u64, owner: nat)

  // ---------------------------------------------------------------- blocks

  datatype PowParams = PowParams(
    targetSpacingSecs: u32, halfLifeSecs: u32, initialHashThreshold: u256, maxHashThreshold: u256)
  {
    predicate Valid() {
      && targetSpacingSecs != 0
      && halfLifeSecs != 0
      && initialHashThreshold != 0
      && maxHashThreshold != 0
      && initialHashThreshold <= maxHashThreshold
    }
  }

  datatype GenesisState = GenesisState(
    pow: PowParams, initialSubsidy: u64, decayInterval: u64, decayStep: u64)

  datatype MerkleRoot = MerkleRoot(leaves: seq<Transaction>)

  datatype BlockHash = ZeroHash | HeaderHash(header: BlockHeader)

  datatype BlockHeader = BlockHeader(
    version: nat, merkleRoot: MerkleRoot, previousBlockHash: BlockHash, height: u64,
    hashThreshold: u256, timestamp: u64, nonce: u32, genesisState: Option<GenesisState>)
  {
    predicate IsGenesis() { genesisState.Some? }

    /** verify_genesis_header_work_shape: the marker is legal only on the genesis shape. */
    predicate WorkShapeOk() {
      IsGenesis() ==>
        && height == 0
        && previousBlockHash == ZeroHash
        && hashThreshold == 0
        && timestamp == 0
        && nonce == 0
    }
  }

  datatype Block = Block(header: BlockHeader, txs: seq<Transaction>)
  {
    function Hash(): BlockHash {
      if header.IsGenesis() then ZeroHash else HeaderHash(header)
    }

    function Work(): u512 {
      if header.IsGenesis() then 0 else BlockWork(header.hashThreshold)
    }

    predicate MerkleRootValid() { header.merkleRoot == MerkleRoot(txs) }
  }

  /** floor(2^256 / (target + 1)): the expected number of hashes to meet the target. */
  function BlockWork(target: u256): (w: u512)
    ensures 1 <= w <= TWO_256
  {
    TWO_256 / (target + 1)
  }

  function AddWork(parent: u512, work: u512): (r: Result<u512, CoreError>)
  {
    if parent + work < TWO_512 then Ok(parent + work) else Err(ChainSelectionFailed)
  }

  // ---------------------------------------------------------------- stored records

  /** Net change of one block. The source keeps `spent` as a set of (outpoint, utxo)
      pairs filled from distinct outpoints, which is a map. */
  datatype BlockUndo = BlockUndo(spent: map<OutPoint, Utxo>, created: set<OutPoint>)

  datatype BlockIndexData = BlockIndexData(parentHash: BlockHash, height: u64, chainWork: u512)

  datatype TxLocation = TxLocation(blockHash: BlockHash, blockHeight: u64, txIndex: nat)

  datatype ChainState = ChainState(
    latestBlock: (u64, BlockHash), lastUpdateTime: u64, blocksCount: u64, chainWork: u512)

  datatype ChainMetadata = ChainMetadata(
    schemaVersion: u32, chainName: string, protocolVersion: u64, createdUnixTs: int)

  // ---------------------------------------------------------------- errors

  datatype StorageError =
    | UtxoNotFound
    | BlockNotFound
    | Uninitialized
    | InvalidTransition
    | Corruption

  datatype CoreError =
    | StorageFailure(error: StorageError)
    | ValidationFailed
    | ChainSelectionFailed
}
