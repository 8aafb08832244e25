/** The persisted form of a chain: its two maps as sorted lists of entries. */
module Snapshots {
  import opened Types
  import opened Sorting
  import opened Listings
  import Consensus
  import Roots

  datatype Snapshot = Snapshot(
    utxos: seq<Roots.UtxoEntry>,
    assets: seq<Roots.AssetEntry>,
    height: u64,
    tipHash: Hash256,
    stateRoot: Hash256,
    lastTimestamp: u64,
    chainId: u32)

  datatype SnapshotError = DuplicateUtxo | DuplicateAsset

  /** `PersistedChainState::from`. */
  function SnapshotOf(chain: Consensus.Chain): Snapshot {
    Snapshot(Roots.SortedUtxos(chain.ledger.utxos), Roots.SortedAssets(chain.ledger.assets),
             chain.height, chain.tipHash, chain.stateRoot, chain.lastTimestamp, chain.chainId)
  }

  function Restored(s: Snapshot): Consensus.Chain {
    Consensus.Chain(Ledger(MapOf(s.utxos), MapOf(s.assets)), s.height, s.tipHash, s.stateRoot, s.lastTimestamp,
                    s.chainId)
  }

  function Restore(s: Snapshot): Result<Consensus.Chain, SnapshotError> {
    if !DistinctKeys(s.utxos) then Err(DuplicateUtxo)
    else if !DistinctKeys(s.assets) then Err(DuplicateAsset)
    else Ok(Restored(s))
  }

  /** Saving a chain and restoring it gives the chain back, whatever its maps hold. */
  lemma RestoreAfterSnapshot(chain: Consensus.Chain)
    ensures Restore(SnapshotOf(chain)) == Ok(chain)
  {
    hide SortedEntries, MapOf, DistinctKeys, KeyBefore, HashBefore;
    KeyOrder();
    HashOrder();
    MapOfSorted(chain.ledger.utxos, KeyBefore);
    MapOfSorted(chain.ledger.assets, HashBefore);
  }

  /** The other way round: the snapshots of chains are exactly those whose entries are in order. */
  lemma SnapshotAfterRestore(s: Snapshot)
    ensures InOrder(s.utxos, KeyBefore) && InOrder(s.assets, HashBefore)
       <==> Restore(s).Ok? && SnapshotOf(Restore(s).value) == s
  {
    hide SortedEntries, InOrder, MapOf, DistinctKeys, KeyBefore, HashBefore;
    KeyOrder();
    HashOrder();
    if InOrder(s.utxos, KeyBefore) && InOrder(s.assets, HashBefore) {
      SortedOfMap(s.utxos, KeyBefore);
      SortedOfMap(s.assets, HashBefore);
    }
    SortedInOrder(MapOf(s.utxos), KeyBefore);
    SortedInOrder(MapOf(s.assets), HashBefore);
  }

  /** `into_chain_state`: entries go into the maps one by one; a key met twice is an error. */
  method IntoChainState(s: Snapshot) returns (r: Result<Consensus.Chain, SnapshotError>)
    ensures r == Restore(s)
  {
    hide MapOf, DistinctKeys;
    var utxos, distinctUtxos := Collect(s.utxos);
    if !distinctUtxos { return Err(DuplicateUtxo); }
    var assets, distinctAssets := Collect(s.assets);
    if !distinctAssets { return Err(DuplicateAsset); }
    return Ok(Consensus.Chain(Ledger(utxos, assets), s.height, s.tipHash, s.stateRoot, s.lastTimestamp, s.chainId));
  }
}
