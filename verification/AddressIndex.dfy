/** The on-disk address index: outpoint sets per owner, kept through batches that may repeat
    an outpoint, with a cache of the sets a batch has touched. */
module AddressIndex {
  import opened Primitives
  import opened Collections
  import opened ChainTypes
  import opened UtxoProcessor

  type AddressTable = map<nat, set<OutPoint>>

  /** The set stored for an address, empty by default. */
  function SetOf(addresses: AddressTable, a: nat): set<OutPoint>
  {
    if a in addresses then addresses[a] else {}
  }

  /** The set as a batch sees it: its own copy if it has one, else the stored one. */
  function Seen(addresses: AddressTable, cache: AddressTable, a: nat): set<OutPoint>
  {
    if a in cache then cache[a] else SetOf(addresses, a)
  }

  ghost predicate Keyed(utxos: UtxoSet)
  {
    forall op :: op in utxos ==> utxos[op].txid == op.txid && utxos[op].vout == op.vout
  }

  /** Each address set is exactly the outpoints the address owns. */
  ghost predicate Exact(addresses: AddressTable, cache: AddressTable, utxos: UtxoSet)
  {
    forall a, op :: op in Seen(addresses, cache, a) <==> op in utxos && utxos[op].owner == a
  }

  predicate KeyMatches(entry: (OutPoint, Utxo))
  {
    entry.1.txid == entry.0.txid && entry.1.vout == entry.0.vout
  }

  /** Puts in order: a repeated outpoint keeps its last value. */
  function PutAll(utxos: UtxoSet, entries: seq<(OutPoint, Utxo)>): UtxoSet
  {
    if entries == [] then utxos
    else PutAll(utxos, entries[..|entries| - 1])[entries[|entries| - 1].0 := entries[|entries| - 1].1]
  }

  /** After the puts the last value of each listed outpoint is stored and nothing else changed. */
  ghost predicate LastWins(before: UtxoSet, entries: seq<(OutPoint, Utxo)>, after: UtxoSet)
  {
    && (forall i :: 0 <= i < |entries| && LastAt(entries, i) ==>
          entries[i].0 in after && after[entries[i].0] == entries[i].1)
    && (forall op :: Unlisted(entries, op) ==>
          (op in after <==> op in before) && (op in before ==> after[op] == before[op]))
  }

  predicate LastAt(entries: seq<(OutPoint, Utxo)>, i: nat)
    requires i < |entries|
  {
    forall j :: i < j < |entries| ==> entries[j].0 != entries[i].0
  }

  predicate Unlisted(entries: seq<(OutPoint, Utxo)>, op: OutPoint)
  {
    forall i :: 0 <= i < |entries| ==> entries[i].0 != op
  }

  lemma {:induction false} PutNone(utxos: UtxoSet, entries: seq<(OutPoint, Utxo)>)
    requires entries == []
    ensures PutAll(utxos, entries) == utxos
  {}

  lemma {:induction false} PutNext(utxos: UtxoSet, entries: seq<(OutPoint, Utxo)>, i: nat)
    requires i < |entries|
    ensures PutAll(utxos, entries[..i + 1]) == PutAll(utxos, entries[..i])[entries[i].0 := entries[i].1]
  {
    assert entries[..i + 1][..i] == entries[..i];
  }

  lemma {:induction false} UnlistedStays(before: UtxoSet, entries: seq<(OutPoint, Utxo)>, op: OutPoint)
    requires Unlisted(entries, op)
    ensures op in PutAll(before, entries) <==> op in before
    ensures op in before ==> PutAll(before, entries)[op] == before[op]
  {
    if entries != [] { UnlistedStays(before, entries[..|entries| - 1], op); }
  }

  lemma {:induction false} LastListed(before: UtxoSet, entries: seq<(OutPoint, Utxo)>, i: nat)
    requires i < |entries| && LastAt(entries, i)
    ensures entries[i].0 in PutAll(before, entries) && PutAll(before, entries)[entries[i].0] == entries[i].1
  {
    if i < |entries| - 1 {
      assert entries[|entries| - 1].0 != entries[i].0;
      LastListed(before, entries[..|entries| - 1], i);
    }
  }

  lemma {:induction false} LastOfEach(before: UtxoSet, entries: seq<(OutPoint, Utxo)>)
    ensures LastWins(before, entries, PutAll(before, entries))
  {
    hide PutAll, LastAt, Unlisted;
    var after := PutAll(before, entries);
    forall i | 0 <= i < |entries| && LastAt(entries, i)
      ensures entries[i].0 in after && after[entries[i].0] == entries[i].1
    {
      LastListed(before, entries, i);
    }
    forall op | Unlisted(entries, op)
      ensures (op in after <==> op in before) && (op in before ==> after[op] == before[op])
    {
      UnlistedStays(before, entries, op);
    }
  }

  ghost function OwnedBy(utxos: UtxoSet, a: nat): UtxoSet
  {
    map op | op in utxos && utxos[op].owner == a :: utxos[op]
  }

  // ---------------------------------------------------------------- the cache

  /** Takes an outpoint out of an owner's set; a set without it means a corrupt index. */
  method Forget(addresses: AddressTable, cache: AddressTable, owner: nat, op: OutPoint)
    returns (r: Result<AddressTable, StorageError>)
    ensures r == if op in Seen(addresses, cache, owner) then Ok(cache[owner := Seen(addresses, cache, owner) - {op}])
                 else Err(Corruption)
  {
    var membership := if owner in cache then cache[owner] else SetOf(addresses, owner);
    if op !in membership { return Err(Corruption); }
    r := Ok(cache[owner := membership - {op}]);
  }

  method Remember(addresses: AddressTable, cache: AddressTable, owner: nat, op: OutPoint) returns (cache': AddressTable)
    ensures cache' == cache[owner := Seen(addresses, cache, owner) + {op}]
  {
    var membership := if owner in cache then cache[owner] else SetOf(addresses, owner);
    cache' := cache[owner := membership + {op}];
  }

  lemma MoveKeepsExact(addresses: AddressTable, cache: AddressTable, utxos: UtxoSet, op: OutPoint, u: Utxo)
    requires Exact(addresses, cache, utxos)
    ensures op in utxos ==> op in Seen(addresses, cache, utxos[op].owner)
    ensures var cache1 := if op in utxos && utxos[op].owner != u.owner
                          then cache[utxos[op].owner := Seen(addresses, cache, utxos[op].owner) - {op}] else cache;
            Exact(addresses, cache1[u.owner := Seen(addresses, cache1, u.owner) + {op}], utxos[op := u])
  {
    var cache1 := if op in utxos && utxos[op].owner != u.owner
                  then cache[utxos[op].owner := Seen(addresses, cache, utxos[op].owner) - {op}] else cache;
    var cache2, utxos' := cache1[u.owner := Seen(addresses, cache1, u.owner) + {op}], utxos[op := u];
    forall a: nat, x ensures x in Seen(addresses, cache2, a) <==> x in utxos' && utxos'[x].owner == a {
      assert x in Seen(addresses, cache, a) <==> x in utxos && utxos[x].owner == a;
    }
  }

  lemma DropKeepsExact(addresses: AddressTable, cache: AddressTable, utxos: UtxoSet, op: OutPoint)
    requires Exact(addresses, cache, utxos) && op in utxos
    ensures var owner := utxos[op].owner;
            && op in Seen(addresses, cache, owner)
            && Exact(addresses, cache[owner := Seen(addresses, cache, owner) - {op}], utxos - {op})
  {
    var owner := utxos[op].owner;
    var cache', utxos' := cache[owner := Seen(addresses, cache, owner) - {op}], utxos - {op};
    forall a: nat, x ensures x in Seen(addresses, cache', a) <==> x in utxos' && utxos'[x].owner == a {
      assert x in Seen(addresses, cache, a) <==> x in utxos && utxos[x].owner == a;
    }
  }

  // ---------------------------------------------------------------- the tables

  class UtxoTables {
    var utxo: UtxoSet
    var addresses: AddressTable

    ghost predicate Valid()
      reads this
    {
      Keyed(utxo) && Exact(addresses, map[], utxo)
    }

    constructor ()
      ensures Valid() && utxo == map[]
    {
      utxo, addresses := map[], map[];
    }

    /** Fails only on an entry whose value does not match its key; the transaction around a
        failed batch is dropped. The index is never found inconsistent. */
    method BatchPut(entries: seq<(OutPoint, Utxo)>) returns (r: Result<(), StorageError>)
      requires Valid()
      modifies this
      ensures r.Ok? <==> forall i :: 0 <= i < |entries| ==> KeyMatches(entries[i])
      ensures r.Err? ==> r.error == InvalidTransition
      ensures r.Ok? ==> Valid() && utxo == PutAll(old(utxo), entries)
      ensures r.Ok? ==> LastWins(old(utxo), entries, utxo)
    {
      hide LastWins, PutAll;
      PutNone(utxo, entries[..0]);
      var cache: AddressTable := map[];
      for i := 0 to |entries|
        invariant addresses == old(addresses) && utxo == PutAll(old(utxo), entries[..i])
        invariant Keyed(utxo) && Exact(addresses, cache, utxo)
        invariant forall k :: 0 <= k < i ==> KeyMatches(entries[k])
      {
        hide Exact;
        var (op, u) := entries[i];
        PutNext(old(utxo), entries, i);
        if !KeyMatches(entries[i]) { return Err(InvalidTransition); }
        MoveKeepsExact(addresses, cache, utxo, op, u);
        if op in utxo && utxo[op].owner != u.owner {
          var forgotten := Forget(addresses, cache, utxo[op].owner, op);
          assert forgotten.Ok?;
          cache := forgotten.value;
        }
        cache := Remember(addresses, cache, u.owner, op);
        utxo := utxo[op := u];
      }
      assert entries[..|entries|] == entries;
      LastOfEach(old(utxo), entries);
      Flush(cache);
      r := Ok(());
    }

    /** Fails exactly when an outpoint is not there, or not there any more. */
    method BatchRemove(outpoints: seq<OutPoint>) returns (r: Result<(), StorageError>)
      requires Valid()
      modifies this
      ensures r.Ok? <==> Distinct(outpoints) && forall op :: op in outpoints ==> op in old(utxo)
      ensures r.Err? ==> r.error == UtxoNotFound
      ensures r.Ok? ==> Valid() && utxo == old(utxo) - Elements(outpoints)
    {
      var cache: AddressTable := map[];
      for i := 0 to |outpoints|
        invariant addresses == old(addresses) && utxo == old(utxo) - Elements(outpoints[..i])
        invariant Keyed(utxo) && Exact(addresses, cache, utxo)
        invariant Distinct(outpoints[..i]) && forall op :: op in outpoints[..i] ==> op in old(utxo)
      {
        hide Exact;
        var op := outpoints[i];
        assert op in outpoints && outpoints[..i + 1] == outpoints[..i] + [op];
        DistinctAppend(outpoints[..i], op);
        if op !in utxo {
          PrefixOfDistinct(outpoints, outpoints[..i + 1]);
          return Err(UtxoNotFound);
        }
        DropKeepsExact(addresses, cache, utxo, op);
        var forgotten := Forget(addresses, cache, utxo[op].owner, op);
        assert forgotten.Ok?;
        cache := forgotten.value;
        utxo := utxo - {op};
      }
      assert outpoints[..|outpoints|] == outpoints;
      Flush(cache);
      r := Ok(());
    }

    /** Writes the touched sets back. */
    method Flush(cache: AddressTable)
      requires Keyed(utxo) && Exact(addresses, cache, utxo)
      modifies this`addresses
      ensures Valid()
    {
      var left := cache.Keys;
      while left != {}
        invariant left <= cache.Keys
        invariant forall a :: SetOf(addresses, a) ==
                    if a in cache.Keys - left then cache[a] else SetOf(old(addresses), a)
        decreases left
      {
        var a :| a in left;
        addresses := addresses[a := cache[a]];
        left := left - {a};
      }
      assert forall a :: Seen(addresses, map[], a) == Seen(old(addresses), cache, a);
    }

    /** Lookup through the index finds exactly what scanning every UTXO would, and never
        meets a missing or foreign entry. */
    method GetUtxosForAddress(a: nat) returns (r: Result<UtxoSet, StorageError>)
      requires Valid()
      ensures r == Ok(OwnedBy(utxo, a))
    {
      var left := SetOf(addresses, a);
      IndexedSet(addresses, utxo, a);
      var found: UtxoSet := map[];
      while left != {}
        invariant left <= SetOf(addresses, a)
        invariant forall op :: op in found <==> op in SetOf(addresses, a) && op !in left
        invariant forall op :: op in found ==> op in utxo && found[op] == utxo[op]
        decreases left
      {
        var op :| op in left;
        var entry := Resolved(utxo, a, op);
        assert entry.Ok?;
        found := found[op := entry.value];
        left := left - {op};
      }
      assert found == OwnedBy(utxo, a);
      r := Ok(found);
    }
  }

  lemma IndexedSet(addresses: AddressTable, utxos: UtxoSet, a: nat)
    requires Exact(addresses, map[], utxos)
    ensures forall op :: op in SetOf(addresses, a) <==> op in utxos && utxos[op].owner == a
  {
    forall op ensures op in SetOf(addresses, a) <==> op in utxos && utxos[op].owner == a {
      assert op in Seen(addresses, map[], a) <==> op in utxos && utxos[op].owner == a;
    }
  }

  /** One entry of the index, checked against the table it points into. */
  function Resolved(utxos: UtxoSet, a: nat, op: OutPoint): Result<Utxo, StorageError>
  {
    if op !in utxos || utxos[op].owner != a then Err(Corruption) else Ok(utxos[op])
  }
}
