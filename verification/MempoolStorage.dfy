/** Stored mempool transactions and the two outpoint indexes over them. */
module MempoolStorage {
  import opened Primitives
  import opened ChainTypes
  import opened BlockDag

  datatype MemPoolTx = MemPoolTx(transaction: Transaction, timestamp: u64, fee: u64, serializedSize: nat)

  type Pool = map<TxId, MemPoolTx>

  ghost predicate Keyed(pool: Pool)
  {
    forall h :: h in pool ==> pool[h].transaction.data.Hash() == h
  }

  ghost predicate Created(pool: Pool, op: OutPoint)
  {
    op.txid in pool && op.vout < |pool[op.txid].transaction.data.outputs|
  }

  ghost predicate Spends(pool: Pool, h: TxId, op: OutPoint)
  {
    h in pool && op in InputsOf(pool[h].transaction)
  }

  /** Exactly the outputs of the stored transactions, each under its creator. */
  ghost predicate CreationExact(index: map<OutPoint, TxId>, pool: Pool)
  {
    forall op :: (op in index <==> Created(pool, op)) && (op in index ==> index[op] == op.txid)
  }

  /** Exactly the inputs of the stored transactions, each under its spender, who is the only one. */
  ghost predicate SpendingExact(index: map<OutPoint, TxId>, pool: Pool)
  {
    && (forall op :: op in index ==> Spends(pool, index[op], op))
    && (forall h, op :: Spends(pool, h, op) ==> op in index && index[op] == h)
  }

  ghost predicate Unspent(pool: Pool, tx: Transaction)
  {
    forall h, op :: op in InputsOf(tx) ==> !Spends(pool, h, op)
  }

  /** No stored transaction except perhaps tx itself spends an input of tx. */
  ghost predicate SpentByNoOther(pool: Pool, tx: Transaction)
  {
    forall h, op :: op in InputsOf(tx) && Spends(pool, h, op) ==> h == tx.data.Hash()
  }

  ghost predicate OutputsAdded(was: map<OutPoint, TxId>, now: map<OutPoint, TxId>, hash: TxId, count: nat)
  {
    && (forall op :: op in now <==> op in was || (op.txid == hash && op.vout < count))
    && (forall op :: op in now ==> now[op] == if op.txid == hash && op.vout < count then hash else was[op])
  }

  ghost predicate InputsAdded(was: map<OutPoint, TxId>, now: map<OutPoint, TxId>, hash: TxId, ops: seq<OutPoint>)
  {
    && (forall op :: op in now <==> op in was || op in ops)
    && (forall op :: op in now ==> now[op] == if op in ops then hash else was[op])
  }

  /** An exact spending index has one spender for each outpoint. */
  lemma OneSpender(index: map<OutPoint, TxId>, pool: Pool, op: OutPoint, g: TxId, h: TxId)
    requires SpendingExact(index, pool) && Spends(pool, g, op) && Spends(pool, h, op)
    ensures g == h
  {}

  class TransactionStorage {
    var transactions: Pool
    var outputCreationIndex: map<OutPoint, TxId>
    var inputSpendingIndex: map<OutPoint, TxId>

    ghost predicate Valid()
      reads this
    {
      && Keyed(transactions)
      && CreationExact(outputCreationIndex, transactions)
      && SpendingExact(inputSpendingIndex, transactions)
    }

    constructor ()
      ensures Valid() && transactions == map[]
    {
      transactions, outputCreationIndex, inputSpendingIndex := map[], map[], map[];
    }

    /** The tables stay exact just when no other stored transaction spends an input of tx. */
    method InsertWithTimestamp(tx: Transaction, fee: u64, timestamp: u64, size: nat)
      modifies this
      ensures transactions == old(transactions)[tx.data.Hash() := MemPoolTx(tx, timestamp, fee, size)]
      ensures OutputsAdded(old(outputCreationIndex), outputCreationIndex, tx.data.Hash(), |tx.data.outputs|)
      ensures InputsAdded(old(inputSpendingIndex), inputSpendingIndex, tx.data.Hash(), InputsOf(tx))
      ensures old(Valid()) ==> (Valid() <==> SpentByNoOther(old(transactions), tx))
    {
      var hash := tx.data.Hash();
      transactions := transactions[hash := MemPoolTx(tx, timestamp, fee, size)];
      IndexOutputs(hash, |tx.data.outputs|);
      IndexInputs(hash, InputsOf(tx));
      if old(Valid()) {
        InsertedExact(old(outputCreationIndex), outputCreationIndex, old(inputSpendingIndex), inputSpendingIndex,
                      old(transactions), transactions, hash);
      }
    }

    method IndexOutputs(hash: TxId, count: nat)
      modifies this`outputCreationIndex
      ensures OutputsAdded(old(outputCreationIndex), outputCreationIndex, hash, count)
    {
      for vout := 0 to count
        invariant OutputsAdded(old(outputCreationIndex), outputCreationIndex, hash, vout)
      {
        outputCreationIndex := outputCreationIndex[OutPoint(hash, vout) := hash];
      }
    }

    method IndexInputs(hash: TxId, ops: seq<OutPoint>)
      modifies this`inputSpendingIndex
      ensures InputsAdded(old(inputSpendingIndex), inputSpendingIndex, hash, ops)
    {
      for k := 0 to |ops|
        invariant InputsAdded(old(inputSpendingIndex), inputSpendingIndex, hash, ops[..k])
      {
        assert ops[..k + 1] == ops[..k] + [ops[k]];
        inputSpendingIndex := inputSpendingIndex[ops[k] := hash];
      }
      assert ops[..|ops|] == ops;
    }

    method Remove(hash: TxId)
      requires Valid()
      modifies this
      ensures Valid() && transactions == old(transactions) - {hash}
    {
      if hash !in transactions {
        assert transactions - {hash} == transactions;
        return;
      }
      var removed := transactions[hash].transaction;
      transactions := transactions - {hash};
      ForgetOutputs(hash, |removed.data.outputs|);
      ForgetInputs(hash, InputsOf(removed));
      RemovedExact(old(outputCreationIndex), outputCreationIndex, old(inputSpendingIndex), inputSpendingIndex,
                   old(transactions), hash);
    }

    method ForgetOutputs(hash: TxId, count: nat)
      modifies this`outputCreationIndex
      ensures forall op :: op in outputCreationIndex <==>
                op in old(outputCreationIndex) && !(op.txid == hash && op.vout < count)
      ensures forall op :: op in outputCreationIndex ==> outputCreationIndex[op] == old(outputCreationIndex)[op]
    {
      for vout := 0 to count
        invariant forall op :: op in outputCreationIndex <==>
                    op in old(outputCreationIndex) && !(op.txid == hash && op.vout < vout)
        invariant forall op :: op in outputCreationIndex ==> outputCreationIndex[op] == old(outputCreationIndex)[op]
      {
        outputCreationIndex := outputCreationIndex - {OutPoint(hash, vout)};
      }
    }

    /** An input entry goes only if it names the transaction being removed. */
    method ForgetInputs(hash: TxId, ops: seq<OutPoint>)
      modifies this`inputSpendingIndex
      ensures forall op :: op in inputSpendingIndex <==>
                op in old(inputSpendingIndex) && !(op in ops && old(inputSpendingIndex)[op] == hash)
      ensures forall op :: op in inputSpendingIndex ==> inputSpendingIndex[op] == old(inputSpendingIndex)[op]
    {
      for k := 0 to |ops|
        invariant forall op :: op in inputSpendingIndex <==>
                    op in old(inputSpendingIndex) && !(op in ops[..k] && old(inputSpendingIndex)[op] == hash)
        invariant forall op :: op in inputSpendingIndex ==> inputSpendingIndex[op] == old(inputSpendingIndex)[op]
      {
        assert ops[..k + 1] == ops[..k] + [ops[k]];
        if ops[k] in inputSpendingIndex && inputSpendingIndex[ops[k]] == hash {
          inputSpendingIndex := inputSpendingIndex - {ops[k]};
        }
      }
      assert ops[..|ops|] == ops;
    }
  }

  lemma InsertedPool(pool: Pool, pool': Pool, hash: TxId)
    requires Keyed(pool) && hash in pool' && pool' == pool[hash := pool'[hash]]
    requires pool'[hash].transaction.data.Hash() == hash
    ensures Keyed(pool')
    ensures forall op :: Created(pool', op) <==>
              Created(pool, op) || (op.txid == hash && op.vout < |pool'[hash].transaction.data.outputs|)
    ensures forall h, op :: Spends(pool', h, op) <==>
              Spends(pool, h, op) || (h == hash && op in InputsOf(pool'[hash].transaction))
  {
    if hash in pool { assert pool[hash].transaction.data == pool'[hash].transaction.data; }
  }

  /** The indexes after an insertion are exact just when no other transaction spends an input. */
  lemma InsertedExact(outs: map<OutPoint, TxId>, outs': map<OutPoint, TxId>, ins: map<OutPoint, TxId>,
                      ins': map<OutPoint, TxId>, pool: Pool, pool': Pool, hash: TxId)
    requires Keyed(pool) && CreationExact(outs, pool) && SpendingExact(ins, pool)
    requires hash in pool' && pool' == pool[hash := pool'[hash]] && pool'[hash].transaction.data.Hash() == hash
    requires OutputsAdded(outs, outs', hash, |pool'[hash].transaction.data.outputs|)
    requires InputsAdded(ins, ins', hash, InputsOf(pool'[hash].transaction))
    ensures Keyed(pool') && CreationExact(outs', pool')
    ensures SpendingExact(ins', pool') <==> SpentByNoOther(pool, pool'[hash].transaction)
  {
    InsertedPool(pool, pool', hash);
    hide InputsOf, Created, Spends, Keyed;
    if SpendingExact(ins', pool') {
      forall h, op | op in InputsOf(pool'[hash].transaction) && Spends(pool, h, op) ensures h == hash {
        OneSpender(ins', pool', op, h, hash);
      }
    }
  }

  lemma RemovedExact(outs: map<OutPoint, TxId>, outs': map<OutPoint, TxId>, ins: map<OutPoint, TxId>,
                     ins': map<OutPoint, TxId>, pool: Pool, hash: TxId)
    requires CreationExact(outs, pool) && SpendingExact(ins, pool) && hash in pool
    requires var count := |pool[hash].transaction.data.outputs|;
             && (forall op :: op in outs' <==> op in outs && !(op.txid == hash && op.vout < count))
             && (forall op :: op in outs' ==> outs'[op] == outs[op])
    requires var ops := InputsOf(pool[hash].transaction);
             && (forall op :: op in ins' <==> op in ins && !(op in ops && ins[op] == hash))
             && (forall op :: op in ins' ==> ins'[op] == ins[op])
    ensures CreationExact(outs', pool - {hash}) && SpendingExact(ins', pool - {hash})
  {
    hide InputsOf;
    var pool' := pool - {hash};
    forall op ensures Created(pool', op) <==> Created(pool, op) && op.txid != hash {}
    forall h, op ensures Spends(pool', h, op) <==> Spends(pool, h, op) && h != hash {}
  }
}
