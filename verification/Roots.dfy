/** The state root (qcoin-ledger `state_root`): which string is hashed, and what it determines. */
module Roots {
  import opened Types
  import opened LittleEndian
  import opened Codec
  import opened Sorting
  import opened LedgerRules
  import opened Listings

  type UtxoEntry = Entry<UtxoKey, TrackedOutput>
  type AssetEntry = Entry<AssetId, AssetDefinition>

  function UtxoEntryBytes(e: UtxoEntry): Bytes {
    e.key.txId + (U32Bytes(e.key.index) + (OutputBytes(e.value.output) + U64Bytes(e.value.createdHeight)))
  }

  function AssetEntryBytes(e: AssetEntry): Bytes {
    e.key + AssetDefinitionBytes(e.value)
  }

  function SortedUtxos(utxos: Utxos): seq<UtxoEntry> {
    KeyOrder();
    SortedEntries(utxos, KeyBefore)
  }

  function SortedAssets(assets: map<AssetId, AssetDefinition>): seq<AssetEntry> {
    HashOrder();
    SortedEntries(assets, HashBefore)
  }

  /** What the hasher is fed: UTXO entries, then asset entries, with nothing in between. */
  function Preimage(ledger: Ledger): Bytes {
    Concat(SortedUtxos(ledger.utxos), UtxoEntryBytes) + Concat(SortedAssets(ledger.assets), AssetEntryBytes)
  }

  function Root(env: Env, ledger: Ledger): Hash256 {
    Blake3(env, Preimage(ledger))
  }

  lemma PreimageOfListings(ledger: Ledger, keys: seq<UtxoKey>, ids: seq<AssetId>)
    requires Lists(keys, ledger.utxos.Keys, KeyBefore) && Lists(ids, ledger.assets.Keys, HashBefore)
    ensures Preimage(ledger)
         == Concat(Entries(ledger.utxos, keys), UtxoEntryBytes) + Concat(Entries(ledger.assets, ids), AssetEntryBytes)
  {
    hide UtxoEntryBytes, AssetEntryBytes, HashBefore, KeyBefore, StrictOrder, Sorted;
    KeyOrder();
    HashOrder();
    ListedBy(ledger.utxos, keys, KeyBefore);
    ListedBy(ledger.assets, ids, HashBefore);
  }

  /** The order in which a hash map yields its entries does not matter: in whatever order the keys
      were met, and however they were sorted, the hasher is fed the same bytes. */
  lemma PreimageIgnoresIterationOrder(ledger: Ledger, met: seq<UtxoKey>, keys: seq<UtxoKey>, metIds: seq<AssetId>,
                                      ids: seq<AssetId>)
    requires (forall k :: k in met <==> k in ledger.utxos) && (forall id :: id in metIds <==> id in ledger.assets)
    requires multiset(keys) == multiset(met) && Sorted(keys, KeyBefore)
    requires multiset(ids) == multiset(metIds) && Sorted(ids, HashBefore)
    ensures (forall k :: k in keys ==> k in ledger.utxos) && (forall id :: id in ids ==> id in ledger.assets)
    ensures Preimage(ledger)
         == Concat(Entries(ledger.utxos, keys), UtxoEntryBytes) + Concat(Entries(ledger.assets, ids), AssetEntryBytes)
  {
    hide Preimage, HashBefore, KeyBefore, Sorted;
    SameMembers(keys, met);
    SameMembers(ids, metIds);
    PreimageOfListings(ledger, keys, ids);
  }

  lemma SameMembers<K>(a: seq<K>, b: seq<K>)
    requires multiset(a) == multiset(b)
    ensures forall k <- a :: k in b
    ensures forall k <- b :: k in a
  {
    forall k | k in a
      ensures k in b
    {
      assert k in multiset(a);
    }
    forall k | k in b
      ensures k in a
    {
      assert k in multiset(b);
    }
  }

  lemma UtxoEntryPrefixFree()
    ensures PrefixFree(UtxoEntryBytes)
  {
    hide OutputBytes, U32Bytes, U64Bytes;
    forall a, x: Bytes, b, y: Bytes | UtxoEntryBytes(a) + x == UtxoEntryBytes(b) + y
      ensures a == b && x == y
    {
      var a3, b3 := U64Bytes(a.value.createdHeight), U64Bytes(b.value.createdHeight);
      var oa, ob := OutputBytes(a.value.output), OutputBytes(b.value.output);
      var ia, ib := U32Bytes(a.key.index), U32Bytes(b.key.index);
      Peel(a.key.txId, ia + (oa + a3), x, b.key.txId, ib + (ob + b3), y);
      Peel(ia, oa + a3, x, ib, ob + b3, y);
      U32RoundTrip(a.key.index);
      U32RoundTrip(b.key.index);
      Associate(oa, a3, x);
      Associate(ob, b3, y);
      OutputPrefixFree();
      assert a3 + x == b3 + y;
      Cut(a3, x, b3, y);
      U64RoundTrip(a.value.createdHeight);
      U64RoundTrip(b.value.createdHeight);
    }
  }

  lemma AssetEntryPrefixFree()
    ensures PrefixFree(AssetEntryBytes)
  {
    hide AssetDefinitionBytes;
    forall a, x: Bytes, b, y: Bytes | AssetEntryBytes(a) + x == AssetEntryBytes(b) + y
      ensures a == b && x == y
    {
      Peel(a.key, AssetDefinitionBytes(a.value), x, b.key, AssetDefinitionBytes(b.value), y);
      AssetDefinitionPrefixFree();
    }
  }

  lemma EqualStringsEqualEntries(u: seq<UtxoEntry>, a: seq<AssetEntry>, v: seq<UtxoEntry>, b: seq<AssetEntry>)
    requires |u| == |v|
    requires Concat(u, UtxoEntryBytes) + Concat(a, AssetEntryBytes)
      == Concat(v, UtxoEntryBytes) + Concat(b, AssetEntryBytes)
    ensures u == v && a == b
  {
    hide UtxoEntryBytes, AssetEntryBytes, Concat;
    UtxoEntryPrefixFree();
    AssetEntryPrefixFree();
    AssetEntriesNonEmpty();
    ConcatPrefixFree(u, Concat(a, AssetEntryBytes), v, Concat(b, AssetEntryBytes), UtxoEntryBytes);
    ConcatInjective(a, b, AssetEntryBytes);
  }

  /** With the same number of UTXOs, equal preimages mean equal ledgers. */
  lemma PreimageDeterminesLedger(a: Ledger, b: Ledger)
    requires Preimage(a) == Preimage(b) && |a.utxos| == |b.utxos|
    ensures a == b
  {
    hide SortedEntries, Concat, KeyBefore, HashBefore, UtxoEntryBytes, AssetEntryBytes;
    KeyOrder();
    HashOrder();
    var keys := Listing(a.utxos, KeyBefore);
    var keys' := Listing(b.utxos, KeyBefore);
    EqualStringsEqualEntries(SortedUtxos(a.utxos), SortedAssets(a.assets), SortedUtxos(b.utxos),
                             SortedAssets(b.assets));
    SortedEntriesDetermine(a.utxos, b.utxos, KeyBefore);
    SortedEntriesDetermine(a.assets, b.assets, HashBefore);
  }

  lemma AssetEntriesNonEmpty()
    ensures forall e :: AssetEntryBytes(e) != []
  {
    hide AssetDefinitionBytes;
    forall e
      ensures AssetEntryBytes(e) != []
    {
      assert |AssetEntryBytes(e)| >= |e.key|;
    }
  }

  /** Nothing separates the two parts, so the count of UTXOs is exactly what must also agree. */
  lemma PreimageDeterminesLedgerIffSameCount(a: Ledger, b: Ledger)
    requires Preimage(a) == Preimage(b)
    ensures a == b <==> |a.utxos| == |b.utxos|
  {
    if |a.utxos| == |b.utxos| {
      PreimageDeterminesLedger(a, b);
    }
  }
}
