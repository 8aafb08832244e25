/** Nothing separates the UTXO part of a state-root preimage from the asset part: one string of 594
    bytes read as two UTXO entries (of 81 and 513 bytes) and as six asset entries (of 99 bytes). */
module RootCollision {
  import opened Types
  import opened LittleEndian
  import opened Codec
  import opened Sorting
  import opened Listings
  import Roots

  // The string. Position 149 is the length of the second output's asset list; the others keep the
  // two transaction ids and the six asset ids in order.
  function At(i: nat): byte {
    if i == 81 || i == 105 then 1
    else if i == 204 then 2
    else if i == 303 then 3
    else if i == 402 then 4
    else if i == 501 then 5
    else if i == 149 then 9
    else 0
  }

  function Window(from: nat, n: nat): (s: Bytes)
    ensures |s| == n
  {
    seq<byte>(n, i requires 0 <= i < n => At(from + i))
  }

  lemma WindowAt(from: nat, n: nat, i: nat)
    requires i < n
    ensures Window(from, n)[i] == At(from + i)
  {
    hide At;
  }

  lemma Join(from: nat, m: nat, n: nat)
    ensures Window(from, m) + Window(from + m, n) == Window(from, m + n)
  {
    hide At;
  }

  lemma One(from: nat)
    ensures Window(from, 1) == [At(from)]
  {
    hide At;
  }

  lemma {:induction false} ZeroBytes(from: nat, n: nat)
    requires forall i :: from <= i < from + n ==> At(i) == 0
    ensures LE(0, n) == Window(from, n)
    decreases n
  {
    hide At;
    if n > 0 {
      ZeroBytes(from + 1, n - 1);
      One(from);
      Join(from, 1, n - 1);
    }
  }

  // ----- read as assets -----

  function AssetAt(k: nat): Roots.AssetEntry {
    Entry(Window(99 * k, 32),
                     AssetDefinition(Window(99 * k + 32, 32), Window(99 * k + 65, 32), None, 0, Fungible))
  }

  lemma AssetFlags(k: nat)
    requires k < 6
    ensures [0] == Window(99 * k + 64, 1) == Window(99 * k + 97, 1) == Window(99 * k + 98, 1)
  {
    One(99 * k + 64);
    One(99 * k + 97);
    One(99 * k + 98);
  }

  lemma AssetBytes(k: nat)
    requires k < 6
    ensures Roots.AssetEntryBytes(AssetAt(k)) == Window(99 * k, 99)
  {
    hide At, Window;
    var o, d := 99 * k, AssetAt(k).value;
    AssetFlags(k);
    assert OptionU128Bytes(d.maxSupply) + [d.decimals] == Window(o + 97, 2) by { Join(o + 97, 1, 1); }
    assert d.metadataRoot + Window(o + 97, 2) == Window(o + 65, 34) by { Join(o + 65, 32, 2); }
    assert [AssetKindByte(d.kind)] + Window(o + 65, 34) == Window(o + 64, 35) by { Join(o + 64, 1, 34); }
    assert d.issuerScriptHash + Window(o + 64, 35) == Window(o + 32, 67) by { Join(o + 32, 32, 35); }
    assert AssetAt(k).key + Window(o + 32, 67) == Window(o, 99) by { Join(o, 32, 67); }
  }

  function AssetsFrom(k: nat): seq<Roots.AssetEntry>
    requires k <= 6
    decreases 6 - k
  {
    if k == 6 then [] else [AssetAt(k)] + AssetsFrom(k + 1)
  }

  lemma {:induction false} AssetsBytes(k: nat)
    requires k <= 6
    ensures Concat(AssetsFrom(k), Roots.AssetEntryBytes) == Window(99 * k, 594 - 99 * k)
    decreases 6 - k
  {
    hide Roots.AssetEntryBytes, At;
    if k < 6 {
      AssetBytes(k);
      AssetsBytes(k + 1);
      Join(99 * k, 99, 594 - 99 * k - 99);
      assert AssetsFrom(k)[1..] == AssetsFrom(k + 1);
    }
  }

  // ----- read as UTXOs -----

  function AmountsFrom(j: nat): (s: seq<AssetAmount>)
    requires j <= 9
    ensures |s| == 9 - j
    decreases 9 - j
  {
    if j == 9 then [] else [AssetAmount(Window(153 + 48 * j, 32), 0)] + AmountsFrom(j + 1)
  }

  lemma {:induction false} AmountsBytes(j: nat)
    requires j <= 9
    ensures Concat(AmountsFrom(j), AssetAmountBytes) == Window(153 + 48 * j, 432 - 48 * j)
    decreases 9 - j
  {
    hide LE, Window;
    if j < 9 {
      var o := 153 + 48 * j;
      ZeroBytes(o + 32, 16);
      Join(o, 32, 16);
      AmountsBytes(j + 1);
      Join(o, 48, 432 - 48 * j - 48);
      assert AmountsFrom(j)[1..] == AmountsFrom(j + 1);
    }
  }

  function FirstUtxo(): Roots.UtxoEntry {
    Entry(UtxoKey(Window(0, 32), 0), TrackedOutput(Output(Window(36, 32), [], None), 0))
  }

  function SecondUtxo(): Roots.UtxoEntry {
    Entry(UtxoKey(Window(81, 32), 0), TrackedOutput(Output(Window(117, 32), AmountsFrom(0), None), 0))
  }

  lemma FirstUtxoBytes()
    ensures Roots.UtxoEntryBytes(FirstUtxo()) == Window(0, 81)
  {
    hide LE, Window;
    ZeroBytes(32, 4);
    ZeroBytes(68, 4);
    ZeroBytes(73, 8);
    One(72);
    var output := FirstUtxo().value.output;
    assert OutputBytes(output) == Window(36, 37) by {
      assert Concat(output.assets, AssetAmountBytes) == [];
      assert [] + OptionHashBytes(None) == [0];
      Join(68, 4, 1);
      Join(36, 32, 5);
    }
    Join(36, 37, 8);
    Join(32, 4, 45);
    Join(0, 32, 49);
  }

  lemma SecondOutputBytes()
    ensures OutputBytes(SecondUtxo().value.output) == Window(117, 469)
  {
    hide LE, Window, AmountsFrom, Concat, U32Bytes;
    NineBytes();
    AmountsBytes(0);
    One(585);
    var output := SecondUtxo().value.output;
    assert Concat(output.assets, AssetAmountBytes) + OptionHashBytes(output.metadataHash)
      == Window(153, 433) by { Join(153, 432, 1); }
    assert U32Bytes(|output.assets|) + Window(153, 433) == Window(149, 437) by { Join(149, 4, 433); }
    assert output.ownerScriptHash + Window(149, 437) == Window(117, 469) by { Join(117, 32, 437); }
  }

  lemma SecondUtxoBytes()
    ensures Roots.UtxoEntryBytes(SecondUtxo()) == Window(81, 513)
  {
    hide LE, Window, AmountsFrom, OutputBytes;
    ZeroBytes(113, 4);
    ZeroBytes(586, 8);
    SecondOutputBytes();
    Join(117, 469, 8);
    Join(113, 4, 477);
    Join(81, 32, 481);
  }

  lemma NineBytes()
    ensures U32Bytes(9) == Window(149, 4)
  {
    ZeroBytes(150, 3);
    assert LE(9, 4) == [9] + LE(0, 3);
  }

  // ----- the two ledgers -----

  lemma {:induction false} BeforeAt(a: Bytes, b: Bytes, i: nat)
    requires i < |a| && i < |b| && a[i] < b[i]
    requires forall j :: 0 <= j < i ==> a[j] == b[j]
    ensures BytesBefore(a, b)
  {
    if i > 0 {
      BeforeAt(a[1..], b[1..], i - 1);
    }
  }

  function Ids(): seq<AssetId> {
    [Window(0, 32), Window(99, 32), Window(198, 32), Window(297, 32), Window(396, 32), Window(495, 32)]
  }

  function AssetsOnly(): Ledger {
    Ledger(map[], map id: AssetId | id in Ids() :: AssetOf(id))
  }

  function AssetOf(id: AssetId): AssetDefinition {
    AssetAt(id[6]).value
  }

  function UtxosOnly(): Ledger {
    Ledger(map[FirstUtxo().key := FirstUtxo().value, SecondUtxo().key := SecondUtxo().value], map[])
  }

  lemma IdOf(k: nat)
    requires k < 6
    ensures |Ids()| == 6 && Ids()[k] == Window(99 * k, 32) && Ids()[k][6] == k
  {
    WindowAt(99 * k, 32, 6);
    hide Window;
  }

  lemma IdBefore(i: nat, j: nat)
    requires i < j < 6
    ensures BytesBefore(Window(99 * i, 32), Window(99 * j, 32))
  {
    forall n, k | 0 <= n < 6 && 0 <= k < 7
      ensures Window(99 * n, 32)[k] == if k == 6 then n else 0
    {
      WindowAt(99 * n, 32, k);
    }
    hide Window, BytesBefore, At;
    BeforeAt(Window(99 * i, 32), Window(99 * j, 32), 6);
  }

  lemma IdsInOrder()
    ensures Sorted(Ids(), HashBefore)
    ensures |Ids()| == 6 && forall k :: 0 <= k < 6 ==> Ids()[k] == Window(99 * k, 32) && Ids()[k][6] == k
  {
    hide Window, At, Ids, BytesBefore;
    IdOf(0);
    forall k | 0 <= k < 6
      ensures Ids()[k] == Window(99 * k, 32) && Ids()[k][6] == k
    {
      IdOf(k);
    }
    forall i, j | 0 <= i < j < 6
      ensures HashBefore(Ids()[i], Ids()[j])
    {
      IdBefore(i, j);
    }
  }

  lemma NoKeys()
    ensures Sorted<UtxoKey>([], KeyBefore) && Sorted<AssetId>([], HashBefore)
  {
  }

  lemma AssetsPreimage()
    ensures Roots.Preimage(AssetsOnly()) == Window(0, 594)
  {
    hide Roots.AssetEntryBytes, HashBefore, At, Window, Ids, Sorted, AssetsFrom, AssetOf, Entries, Roots.Preimage;
    IdsInOrder();
    NoKeys();
    var ledger, ids := AssetsOnly(), Ids();
    Roots.PreimageOfListings(ledger, [], ids);
    EntriesOfIds(0);
    assert ids[0..] == ids;
    AssetsBytes(0);
    assert Concat(Entries(ledger.utxos, []), Roots.UtxoEntryBytes) == [];
  }

  lemma {:induction false} EntriesOfIds(k: nat)
    requires k <= 6
    ensures Entries(AssetsOnly().assets, Ids()[k..]) == AssetsFrom(k)
    decreases 6 - k
  {
    hide At, Window, Ids, Sorted;
    IdsInOrder();
    if k < 6 {
      EntriesOfIds(k + 1);
      assert Ids()[k..][1..] == Ids()[k + 1..];
      assert Ids()[k] in AssetsOnly().assets;
    }
  }

  lemma TwoEntries(m: map<UtxoKey, TrackedOutput>, a: Roots.UtxoEntry, b: Roots.UtxoEntry)
    requires m == map[a.key := a.value, b.key := b.value] && a.key != b.key
    ensures Concat(Entries(m, [a.key, b.key]), Roots.UtxoEntryBytes)
      == Roots.UtxoEntryBytes(a) + Roots.UtxoEntryBytes(b)
  {
    hide Roots.UtxoEntryBytes;
    var entries := Entries(m, [a.key, b.key]);
    assert [a.key, b.key][1..] == [b.key];
    assert Entries(m, [b.key]) == [b] + [];
    assert entries == [a, b];
    assert entries[1..] == [b];
    assert Concat([b], Roots.UtxoEntryBytes) == Roots.UtxoEntryBytes(b) + [];
  }

  lemma UtxosPreimage()
    ensures Roots.Preimage(UtxosOnly()) == Window(0, 594)
  {
    hide Roots.UtxoEntryBytes, At, Window, FirstUtxo, SecondUtxo, KeyBefore, Roots.Preimage;
    var ledger := UtxosOnly();
    var keys := [FirstUtxo().key, SecondUtxo().key];
    KeysInOrder();
    NoKeys();
    Roots.PreimageOfListings(ledger, keys, []);
    FirstUtxoBytes();
    SecondUtxoBytes();
    Join(0, 81, 513);
    TwoEntries(ledger.utxos, FirstUtxo(), SecondUtxo());
    assert Concat(Entries(ledger.assets, []), Roots.AssetEntryBytes) == [];
  }

  lemma KeysInOrder()
    ensures KeyBefore(FirstUtxo().key, SecondUtxo().key) && FirstUtxo().key != SecondUtxo().key
  {
    WindowAt(0, 32, 0);
    WindowAt(81, 32, 0);
    hide Window;
    BeforeAt(Window(0, 32), Window(81, 32), 0);
  }

  /** The state root alone does not determine the ledger: these two differ and hash the same string. */
  lemma PreimageNotInjective()
    ensures AssetsOnly() != UtxosOnly() && Roots.Preimage(AssetsOnly()) == Roots.Preimage(UtxosOnly())
  {
    hide Roots.Preimage;
    AssetsPreimage();
    UtxosPreimage();
    assert FirstUtxo().key in UtxosOnly().utxos;
  }
}
