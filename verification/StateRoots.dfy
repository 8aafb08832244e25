/** State roots of histories. A UTXO entry begins with a transaction id and an asset entry with an
    asset id; those are hashes of strings that begin differently. So in ledgers that histories lead
    to, the two parts of a preimage cannot be mistaken for one another. */
module StateRoots {
  import opened Types
  import opened Codec
  import opened Sorting
  import opened Listings
  import opened Roots
  import opened Supply
  import Consensus
  import LittleEndian

  // ----- cutting a string of entries -----

  lemma {:induction false} ConcatSplit<T(!new)>(xs: seq<T>, n: nat, encode: T -> Bytes)
    requires n <= |xs|
    ensures Concat(xs, encode) == Concat(xs[..n], encode) + Concat(xs[n..], encode)
  {
    if n == 0 {
      assert xs[..0] == [] && xs[0..] == xs;
    } else {
      ConcatSplit(xs[1..], n - 1, encode);
      assert xs[..n][1..] == xs[1..][..n - 1] && xs[1..][n - 1..] == xs[n..];
    }
  }

  lemma AfterTheFront(u: seq<UtxoEntry>, x: Bytes, v: seq<UtxoEntry>, y: Bytes)
    requires |u| <= |v| && Concat(u, UtxoEntryBytes) + x == Concat(v, UtxoEntryBytes) + y
    ensures x == Concat(v[|u|..], UtxoEntryBytes) + y
  {
    hide UtxoEntryBytes, Concat;
    var front, back := v[..|u|], v[|u|..];
    ConcatSplit(v, |u|, UtxoEntryBytes);
    LittleEndian.Associate(Concat(front, UtxoEntryBytes), Concat(back, UtxoEntryBytes), y);
    UtxoEntryPrefixFree();
    ConcatPrefixFree(u, x, front, Concat(back, UtxoEntryBytes) + y, UtxoEntryBytes);
  }

  lemma Front(p: Bytes, rest: Bytes)
    requires |p| >= 32
    ensures |p + rest| >= 32 && (p + rest)[..32] == p[..32]
  {
  }

  lemma StartsAlike(a: seq<AssetEntry>, v: seq<UtxoEntry>, y: Bytes)
    requires v != [] && Concat(a, AssetEntryBytes) == Concat(v, UtxoEntryBytes) + y
    ensures a != [] && a[0].key == v[0].key.txId
  {
    hide UtxoEntryBytes, AssetEntryBytes;
    var u, others := UtxoEntryBytes(v[0]), Concat(v[1..], UtxoEntryBytes);
    UtxoStart(v[0]);
    LittleEndian.Associate(u, others, y);
    Front(u, others + y);
    if a != [] {
      AssetStart(a[0]);
      Front(AssetEntryBytes(a[0]), Concat(a[1..], AssetEntryBytes));
    }
  }

  lemma FewerUtxosMeanAssetLikeUtxo(u: seq<UtxoEntry>, a: seq<AssetEntry>, v: seq<UtxoEntry>, b: seq<AssetEntry>)
    requires |u| < |v|
    requires Concat(u, UtxoEntryBytes) + Concat(a, AssetEntryBytes)
      == Concat(v, UtxoEntryBytes) + Concat(b, AssetEntryBytes)
    ensures a != [] && a[0].key == v[|u|].key.txId
  {
    hide Concat;
    AfterTheFront(u, Concat(a, AssetEntryBytes), v, Concat(b, AssetEntryBytes));
    StartsAlike(a, v[|u|..], Concat(b, AssetEntryBytes));
  }

  lemma UtxoStart(e: UtxoEntry)
    ensures |UtxoEntryBytes(e)| >= 32 && UtxoEntryBytes(e)[..32] == e.key.txId
  {
    hide OutputBytes;
  }

  lemma AssetStart(e: AssetEntry)
    ensures |AssetEntryBytes(e)| >= 32 && AssetEntryBytes(e)[..32] == e.key
  {
    hide AssetDefinitionBytes;
  }

  // ----- two ledgers without a common id -----

  /** No output of `a` was made under an id that is an asset of `b`. */
  ghost predicate Apart(a: Ledger, b: Ledger) {
    forall k, id :: k in a.utxos && id in b.assets ==> k.txId != id
  }

  lemma AtLeastAsMany(a: Ledger, b: Ledger)
    requires Preimage(a) == Preimage(b) && Apart(b, a)
    ensures |a.utxos| >= |b.utxos|
  {
    hide SortedEntries, Concat, KeyBefore, HashBefore, UtxoEntryBytes, AssetEntryBytes;
    KeyOrder();
    HashOrder();
    var keys := Listing(a.utxos, KeyBefore);
    var keys' := Listing(b.utxos, KeyBefore);
    var ids := Listing(a.assets, HashBefore);
    assert forall i :: 0 <= i < |b.utxos| ==> SortedUtxos(b.utxos)[i].key in b.utxos;
    assert forall i :: 0 <= i < |a.assets| ==> SortedAssets(a.assets)[i].key in a.assets;
    if |a.utxos| < |b.utxos| {
      FewerUtxosMeanAssetLikeUtxo(SortedUtxos(a.utxos), SortedAssets(a.assets), SortedUtxos(b.utxos),
                                  SortedAssets(b.assets));
      assert false;
    }
  }

  /** Ledgers in which no transaction id is an asset id have different preimages unless they are equal. */
  lemma PreimageDeterminesApart(a: Ledger, b: Ledger)
    requires Preimage(a) == Preimage(b) && Apart(a, b) && Apart(b, a)
    ensures a == b
  {
    hide Preimage;
    AtLeastAsMany(a, b);
    AtLeastAsMany(b, a);
    PreimageDeterminesLedger(a, b);
  }

  // ----- ledgers of runs -----

  /** The strings hashed into the asset ids of a run. */
  ghost function IssuePreimages(chainId: u32, run: seq<Applied>): set<Bytes> {
    set i | 0 <= i < |run|
      && run[i].tx.core.kind.CreateAsset? :: AssetIdPreimage(run[i].tx.core.kind.definition, chainId)
  }

  lemma NoTransactionIsAnAsset(env: Env, core: TransactionCore, definition: AssetDefinition, chainId: u32,
                               hashed: set<Bytes>)
    requires CollisionFree(env, hashed)
    requires TxCoreBytes(core) in hashed && AssetIdPreimage(definition, chainId) in hashed
    ensures TxId(env, core) != DeriveAssetId(env, definition, chainId)
  {
    hide AssetDefinitionBytes, OutputBytes, InputBytes, KindTail, Concat;
    assert TxCoreBytes(core)[0] <= 1 && AssetIdPreimage(definition, chainId)[0] == 0x51;
  }

  lemma RunsApart(env: Env, chainA: u32, a: seq<Applied>, chainB: u32, b: seq<Applied>, hashed: set<Bytes>)
    requires Replay(env, chainA, a).Some? && Replay(env, chainB, b).Some?
    requires CollisionFree(env, hashed)
    requires CorePreimages(a) <= hashed && CorePreimages(b) <= hashed && IssuePreimages(chainB, b) <= hashed
    ensures Apart(Replay(env, chainA, a).value, Replay(env, chainB, b).value)
  {
    hide Replay, TxCoreBytes, AssetIdPreimage, TxId, DeriveAssetId, InputsMadeBefore, SpentOrRemade;
    RunTraced(env, chainA, a);
    RunTraced(env, chainB, b);
    var ledger, other := Replay(env, chainA, a).value, Replay(env, chainB, b).value;
    forall k, id | k in ledger.utxos && id in other.assets
      ensures k.txId != id
    {
      var i: nat :| MadeExactly(env, a, i, k, ledger.utxos[k].output);
      var j: nat :| Creates(env, chainB, b, j, id) && b[j].tx.core.kind.definition == other.assets[id];
      assert TxCoreBytes(a[i].tx.core) in CorePreimages(a);
      assert AssetIdPreimage(b[j].tx.core.kind.definition, chainB) in IssuePreimages(chainB, b);
      NoTransactionIsAnAsset(env, a[i].tx.core, b[j].tx.core.kind.definition, chainB, hashed);
    }
  }

  /** In ledgers of runs, a state root determines the ledger, when the strings hashed on the way and
      the two preimages do not collide. */
  lemma RootDeterminesLedger(env: Env, chainA: u32, a: seq<Applied>, chainB: u32, b: seq<Applied>, hashed: set<Bytes>)
    requires Replay(env, chainA, a).Some? && Replay(env, chainB, b).Some?
    requires CollisionFree(env, hashed)
    requires CorePreimages(a) + IssuePreimages(chainA, a) <= hashed
    requires CorePreimages(b) + IssuePreimages(chainB, b) <= hashed
    requires Preimage(Replay(env, chainA, a).value) in hashed && Preimage(Replay(env, chainB, b).value) in hashed
    requires Root(env, Replay(env, chainA, a).value) == Root(env, Replay(env, chainB, b).value)
    ensures Replay(env, chainA, a).value == Replay(env, chainB, b).value
  {
    hide Replay, Preimage, Apart;
    RunsApart(env, chainA, a, chainB, b, hashed);
    RunsApart(env, chainB, b, chainA, a, hashed);
    PreimageDeterminesApart(Replay(env, chainA, a).value, Replay(env, chainB, b).value);
  }

  // ----- histories -----

  /** What replaying a history hashes into ids, and into the state root it ends with. */
  ghost function Hashed(env: Env, chainId: u32, blocks: seq<Block>, ledger: Ledger): set<Bytes> {
    CorePreimages(Consensus.HistoryRun(blocks)) + IssuePreimages(chainId, Consensus.HistoryRun(blocks))
      + {Preimage(ledger)}
  }

  /** Two validated histories, of whatever chain ids and lengths, that end with equal state roots end
      with equal ledgers. */
  lemma StateRootDeterminesLedger(env: Env, chainA: u32, va: seq<PublicKey>, a: seq<Block>, chainB: u32,
                                  vb: seq<PublicKey>,
                                  b: seq<Block>)
    requires Consensus.Rebuild(env, chainA, va, a).Some? && Consensus.Rebuild(env, chainB, vb, b).Some?
    requires var x, y := Consensus.Rebuild(env, chainA, va, a).value, Consensus.Rebuild(env, chainB, vb, b).value;
      && x.stateRoot == y.stateRoot
      && CollisionFree(env, Hashed(env, chainA, a, x.ledger) + Hashed(env, chainB, b, y.ledger))
    ensures Consensus.Rebuild(env, chainA, va, a).value.ledger == Consensus.Rebuild(env, chainB, vb, b).value.ledger
  {
    hide Consensus.Rebuild, Consensus.HistoryRun, Replay, Preimage, CorePreimages, IssuePreimages, CollisionFree,
         Consensus.Linked;
    var x, y := Consensus.Rebuild(env, chainA, va, a).value, Consensus.Rebuild(env, chainB, vb, b).value;
    Consensus.HistoryShape(env, chainA, va, a);
    Consensus.HistoryShape(env, chainB, vb, b);
    Consensus.HistoryIsRun(env, chainA, va, a);
    Consensus.HistoryIsRun(env, chainB, vb, b);
    RootDeterminesLedger(env, chainA, Consensus.HistoryRun(a), chainB, Consensus.HistoryRun(b),
                         Hashed(env, chainA, a, x.ledger) + Hashed(env, chainB, b, y.ledger));
  }
}
