/** The byte layouts, field by field: for every encoding a reader that takes the value off the front of a
    string. No field can be moved, widened or turned round without some value being read back wrongly. */
module Layout {
  import opened Types
  import opened LittleEndian
  import opened Codec
  import Roots
  import Listings
  import Sorting

  /** What was read, and what is left. */
  datatype Taken<+T> = Nothing | Took(value: T, rest: Bytes)

  // ----- fields -----

  function TakeByte(s: Bytes): Taken<byte> {
    if s == [] then Nothing else Took(s[0], s[1..])
  }

  function TakeHash(s: Bytes): Taken<Hash256> {
    if |s| < 32 then Nothing else Took(s[..32], s[32..])
  }

  function TakeU32(s: Bytes): Taken<u32> {
    if |s| < 4 then Nothing else Took(U32FromBytes(s[..4]), s[4..])
  }

  function TakeU64(s: Bytes): Taken<u64> {
    if |s| < 8 then Nothing else Took(U64FromBytes(s[..8]), s[8..])
  }

  function TakeU128(s: Bytes): Taken<u128> {
    if |s| < 16 then Nothing else Took(U128FromBytes(s[..16]), s[16..])
  }

  /** `n` values, one after the other. */
  function TakeMany<T>(s: Bytes, n: nat, take: Bytes -> Taken<T>): (r: Taken<seq<T>>)
    ensures r.Took? ==> |r.value| == n
    decreases n
  {
    if n == 0 then Took([], s)
    else
      match take(s)
      case Nothing => Nothing
      case Took(x, afterOne) =>
        match TakeMany(afterOne, n - 1, take)
        case Nothing => Nothing
        case Took(xs, rest) => Took([x] + xs, rest)
  }

  /** A length of four bytes, and that many values. */
  function TakeVec<T>(s: Bytes, take: Bytes -> Taken<T>): (r: Taken<seq<T>>)
    ensures r.Took? ==> |r.value| < 0x1_0000_0000
  {
    match TakeU32(s)
    case Nothing => Nothing
    case Took(n, rest) => TakeMany(rest, n, take)
  }

  /** A byte 1 and the value, or a byte 0. */
  function TakeOption<T>(s: Bytes, take: Bytes -> Taken<T>): Taken<Option<T>> {
    match TakeByte(s)
    case Nothing => Nothing
    case Took(tag, rest) =>
      if tag == 0 then Took(None, rest)
      else if tag == 1 then
        match take(rest)
        case Nothing => Nothing
        case Took(x, left) => Took(Some(x), left)
      else Nothing
  }

  // ----- records -----

  function TakeAssetAmount(s: Bytes): Taken<AssetAmount> {
    match TakeHash(s)
    case Nothing => Nothing
    case Took(id, s1) =>
      match TakeU128(s1)
      case Nothing => Nothing
      case Took(amount, rest) => Took(AssetAmount(id, amount), rest)
  }

  function TakeKind(s: Bytes): Taken<AssetKind> {
    match TakeByte(s)
    case Nothing => Nothing
    case Took(tag, rest) =>
      if tag == 0 then Took(Fungible, rest)
      else if tag == 1 then Took(NonFungible, rest)
      else if tag == 2 then Took(SemiFungible, rest)
      else Nothing
  }

  /** Issuer, kind, metadata root, maximum, decimals. */
  function TakeAssetDefinition(s: Bytes): Taken<AssetDefinition> {
    match TakeHash(s)
    case Nothing => Nothing
    case Took(issuer, s1) =>
      match TakeKind(s1)
      case Nothing => Nothing
      case Took(kind, s2) =>
        match TakeHash(s2)
        case Nothing => Nothing
        case Took(root, s3) =>
          match TakeOption(s3, TakeU128)
          case Nothing => Nothing
          case Took(max, s4) =>
            match TakeByte(s4)
            case Nothing => Nothing
            case Took(decimals, rest) => Took(AssetDefinition(issuer, root, max, decimals, kind), rest)
  }

  /** Owner, assets, metadata hash. */
  function TakeOutput(s: Bytes): Taken<Output> {
    match TakeHash(s)
    case Nothing => Nothing
    case Took(owner, s1) =>
      match TakeVec(s1, TakeAssetAmount)
      case Nothing => Nothing
      case Took(assets, s2) =>
        match TakeOption(s2, TakeHash)
        case Nothing => Nothing
        case Took(metadata, rest) => Took(Output(owner, assets, metadata), rest)
  }

  function TakeInput(s: Bytes): Taken<UtxoKey> {
    match TakeHash(s)
    case Nothing => Nothing
    case Took(id, s1) =>
      match TakeU32(s1)
      case Nothing => Nothing
      case Took(index, rest) => Took(UtxoKey(id, index), rest)
  }

  function TakeIssue(s: Bytes): Taken<TransactionKind> {
    match TakeAssetDefinition(s)
    case Nothing => Nothing
    case Took(definition, s1) =>
      match TakeU128(s1)
      case Nothing => Nothing
      case Took(supply, rest) => Took(CreateAsset(definition, supply), rest)
  }

  /** A kind byte, inputs, outputs, and of an issue its definition and supply. */
  function TakeTxCore(s: Bytes): Taken<TransactionCore> {
    match TakeByte(s)
    case Nothing => Nothing
    case Took(tag, s1) =>
      match TakeVec(s1, TakeInput)
      case Nothing => Nothing
      case Took(inputs, s2) =>
        match TakeVec(s2, TakeOutput)
        case Nothing => Nothing
        case Took(outputs, s3) =>
          if tag == 0 then Took(TransactionCore(Transfer, inputs, outputs), s3)
          else if tag == 1 then
            match TakeIssue(s3)
            case Nothing => Nothing
            case Took(kind, rest) => Took(TransactionCore(kind, inputs, outputs), rest)
          else Nothing
  }

  /** Three hashes and two numbers of eight bytes. */
  function TakeHeader(s: Bytes): Taken<BlockHeader> {
    if |s| < 112 then Nothing
    else
      Took(BlockHeader(s[..32], s[32..64], s[64..96], U64FromBytes(s[96..104]), U64FromBytes(s[104..112])), s[112..])
  }

  function TakeOp(s: Bytes): Taken<OpCode> {
    match TakeByte(s)
    case Nothing => Nothing
    case Took(tag, s1) =>
      if tag == 0 then Took(CheckSig, s1)
      else if tag == 1 then
        if |s1| < 2 then Nothing else Took(CheckMultiSig(s1[0], s1[1]), s1[2..])
      else if tag == 2 then Took(CheckTimeLock, s1)
      else if tag == 3 then Took(CheckRelativeTimeLock, s1)
      else if tag == 4 then Took(CheckHashLock, s1)
      else if tag == 5 then
        match TakeVec(s1, TakeByte)
        case Nothing => Nothing
        case Took(data, rest) => Took(PushBytes(data), rest)
      else if tag == 6 then Took(Nop, s1)
      else Nothing
  }

  // ----- reading back what was written -----

  /** The reader takes each value off the front of whatever follows it. */
  ghost predicate Reads<T(!new)>(take: Bytes -> Taken<T>, encode: T -> Bytes) {
    forall x, rest: Bytes :: take(encode(x) + rest) == Took(x, rest)
  }

  lemma {:induction false} ReadsMany<T(!new)>(xs: seq<T>, rest: Bytes, take: Bytes -> Taken<T>, encode: T -> Bytes)
    requires Reads(take, encode)
    ensures TakeMany(Concat(xs, encode) + rest, |xs|, take) == Took(xs, rest)
  {
    if xs == [] {
      assert Concat(xs, encode) + rest == rest;
    } else {
      Associate(encode(xs[0]), Concat(xs[1..], encode), rest);
      assert take(encode(xs[0]) + (Concat(xs[1..], encode) + rest)) == Took(xs[0], Concat(xs[1..], encode) + rest);
      ReadsMany(xs[1..], rest, take, encode);
      assert xs == [xs[0]] + xs[1..];
    }
  }

  lemma ReadsVec<T(!new)>(xs: Vec<T>, rest: Bytes, take: Bytes -> Taken<T>, encode: T -> Bytes)
    requires Reads(take, encode)
    ensures TakeVec(U32Bytes(|xs|) + (Concat(xs, encode) + rest), take) == Took(xs, rest)
  {
    ReadsU32(|xs|, Concat(xs, encode) + rest);
    ReadsMany(xs, rest, take, encode);
  }

  lemma ReadsHash(h: Hash256, rest: Bytes)
    ensures TakeHash(h + rest) == Took(h, rest)
  {
  }

  lemma ReadsU32(n: u32, rest: Bytes)
    ensures TakeU32(U32Bytes(n) + rest) == Took(n, rest)
  {
    U32RoundTrip(n);
    assert (U32Bytes(n) + rest)[..4] == U32Bytes(n);
  }

  lemma ReadsU64(n: u64, rest: Bytes)
    ensures TakeU64(U64Bytes(n) + rest) == Took(n, rest)
  {
    U64RoundTrip(n);
    assert (U64Bytes(n) + rest)[..8] == U64Bytes(n);
  }

  lemma ReadsU128(n: u128, rest: Bytes)
    ensures TakeU128(U128Bytes(n) + rest) == Took(n, rest)
  {
    U128RoundTrip(n);
    assert (U128Bytes(n) + rest)[..16] == U128Bytes(n);
  }

  lemma ReadsByte(b: byte, rest: Bytes)
    ensures TakeByte([b] + rest) == Took(b, rest)
  {
  }

  lemma AssetAmountLayout()
    ensures Reads(TakeAssetAmount, AssetAmountBytes)
  {
    forall a, rest: Bytes
      ensures TakeAssetAmount(AssetAmountBytes(a) + rest) == Took(a, rest)
    {
      Associate(a.assetId, U128Bytes(a.amount), rest);
      ReadsHash(a.assetId, U128Bytes(a.amount) + rest);
      ReadsU128(a.amount, rest);
    }
  }

  lemma OptionHashLayout(h: Option<Hash256>, rest: Bytes)
    ensures TakeOption(OptionHashBytes(h) + rest, TakeHash) == Took(h, rest)
  {
    if h.Some? {
      Associate([1], h.value, rest);
      ReadsByte(1, h.value + rest);
      ReadsHash(h.value, rest);
    } else {
      ReadsByte(0, rest);
    }
  }

  lemma OptionU128Layout(n: Option<u128>, rest: Bytes)
    ensures TakeOption(OptionU128Bytes(n) + rest, TakeU128) == Took(n, rest)
  {
    if n.Some? {
      Associate([1], U128Bytes(n.value), rest);
      ReadsByte(1, U128Bytes(n.value) + rest);
      ReadsU128(n.value, rest);
    } else {
      ReadsByte(0, rest);
    }
  }

  lemma AssetDefinitionLayout()
    ensures Reads(TakeAssetDefinition, AssetDefinitionBytes)
  {
    hide OptionU128Bytes, TakeOption, U128Bytes;
    forall d, rest: Bytes
      ensures TakeAssetDefinition(AssetDefinitionBytes(d) + rest) == Took(d, rest)
    {
      var s4 := [d.decimals] + rest;
      var s3 := OptionU128Bytes(d.maxSupply) + s4;
      var s2 := d.metadataRoot + s3;
      var s1 := [AssetKindByte(d.kind)] + s2;
      assert AssetDefinitionBytes(d) + rest == d.issuerScriptHash + s1;
      ReadsHash(d.issuerScriptHash, s1);
      ReadsByte(AssetKindByte(d.kind), s2);
      ReadsHash(d.metadataRoot, s3);
      OptionU128Layout(d.maxSupply, s4);
      ReadsByte(d.decimals, rest);
    }
  }

  lemma OutputLayout()
    ensures Reads(TakeOutput, OutputBytes)
  {
    hide OptionHashBytes, TakeOption, TakeVec, Concat;
    AssetAmountLayout();
    forall o, rest: Bytes
      ensures TakeOutput(OutputBytes(o) + rest) == Took(o, rest)
    {
      var s2 := OptionHashBytes(o.metadataHash) + rest;
      var s1 := U32Bytes(|o.assets|) + (Concat(o.assets, AssetAmountBytes) + s2);
      assert OutputBytes(o) + rest == o.ownerScriptHash + s1;
      ReadsHash(o.ownerScriptHash, s1);
      ReadsVec(o.assets, s2, TakeAssetAmount, AssetAmountBytes);
      OptionHashLayout(o.metadataHash, rest);
    }
  }

  lemma InputLayout()
    ensures Reads(TakeInput, InputBytes)
  {
    forall i: TransactionInput, rest: Bytes
      ensures TakeInput(InputBytes(i) + rest) == Took(i, rest)
    {
      Associate(i.txId, U32Bytes(i.index), rest);
      ReadsHash(i.txId, U32Bytes(i.index) + rest);
      ReadsU32(i.index, rest);
    }
  }

  lemma IssueLayout(kind: TransactionKind, rest: Bytes)
    requires kind.CreateAsset?
    ensures TakeIssue(KindTail(kind) + rest) == Took(kind, rest)
  {
    hide TakeAssetDefinition, AssetDefinitionBytes, U128Bytes;
    AssetDefinitionLayout();
    Associate(AssetDefinitionBytes(kind.definition), U128Bytes(kind.initialSupply), rest);
    assert TakeAssetDefinition(AssetDefinitionBytes(kind.definition) + (U128Bytes(kind.initialSupply) + rest))
        == Took(kind.definition, U128Bytes(kind.initialSupply) + rest);
    ReadsU128(kind.initialSupply, rest);
  }

  lemma TxCoreLayout()
    ensures Reads(TakeTxCore, TxCoreBytes)
  {
    hide TakeVec, TakeIssue, KindTail, Concat, U32Bytes, Reads;
    InputLayout();
    OutputLayout();
    forall c, rest: Bytes
      ensures TakeTxCore(TxCoreBytes(c) + rest) == Took(c, rest)
    {
      var s3 := KindTail(c.kind) + rest;
      var s2 := U32Bytes(|c.outputs|) + (Concat(c.outputs, OutputBytes) + s3);
      var s1 := U32Bytes(|c.inputs|) + (Concat(c.inputs, InputBytes) + s2);
      assert TxCoreBytes(c) + rest == [KindByte(c.kind)] + s1;
      ReadsByte(KindByte(c.kind), s1);
      ReadsVec(c.inputs, s2, TakeInput, InputBytes);
      ReadsVec(c.outputs, s3, TakeOutput, OutputBytes);
      if c.kind.CreateAsset? {
        IssueLayout(c.kind, rest);
      } else {
        assert s3 == rest by { NoTail(c.kind, rest); }
      }
    }
    ReadsAll(TakeTxCore, TxCoreBytes);
  }

  lemma NoTail(kind: TransactionKind, rest: Bytes)
    requires kind.Transfer?
    ensures KindTail(kind) + rest == rest
  {
  }

  lemma ReadsAll<T(!new)>(take: Bytes -> Taken<T>, encode: T -> Bytes)
    requires forall x, rest: Bytes :: take(encode(x) + rest) == Took(x, rest)
    ensures Reads(take, encode)
  {
  }

  lemma HeaderLayout()
    ensures Reads(TakeHeader, HeaderBytes)
  {
    forall h, rest: Bytes
      ensures TakeHeader(HeaderBytes(h) + rest) == Took(h, rest)
    {
      var s := HeaderBytes(h) + rest;
      U64RoundTrip(h.height);
      U64RoundTrip(h.timestamp);
      assert s[..32] == h.parentHash && s[32..64] == h.stateRoot && s[64..96] == h.txRoot;
      assert s[96..104] == U64Bytes(h.height) && s[104..112] == U64Bytes(h.timestamp) && s[112..] == rest;
    }
  }

  function OneByte(b: byte): Bytes {
    [b]
  }

  lemma {:induction false} BytesAreConcat(s: Bytes)
    ensures Concat(s, OneByte) == s
  {
    if s != [] {
      BytesAreConcat(s[1..]);
    }
  }

  lemma PushLayout(data: Vec<byte>, rest: Bytes)
    ensures TakeOp(OpBytes(PushBytes(data)) + rest) == Took(PushBytes(data), rest)
  {
    hide TakeVec, U32Bytes, Concat;
    assert Reads(TakeByte, OneByte) by { ByteLayout(); }
    BytesAreConcat(data);
    ReadsVec(data, rest, TakeByte, OneByte);
    var s1 := U32Bytes(|data|) + (data + rest);
    assert OpBytes(PushBytes(data)) + rest == [5] + s1;
    ReadsByte(5, s1);
  }

  lemma ByteLayout()
    ensures Reads(TakeByte, OneByte)
  {
  }

  lemma OpLayout()
    ensures Reads(TakeOp, OpBytes)
  {
    forall op, rest: Bytes
      ensures TakeOp(OpBytes(op) + rest) == Took(op, rest)
    {
      match op {
        case PushBytes(data) => PushLayout(data, rest);
        case CheckMultiSig(threshold, total) =>
          hide TakeVec;
          assert (OpBytes(op) + rest)[1..] == [threshold, total] + rest;
        case _ =>
          hide TakeVec;
          ReadsByte(OpBytes(op)[0], rest);
      }
    }
  }

  /** A length and the operations. */
  lemma ScriptLayout(script: Script, rest: Bytes)
    ensures TakeVec(ScriptBytes(script) + rest, TakeOp) == Took(script, rest)
  {
    hide OpBytes, TakeOp;
    OpLayout();
    Associate(U32Bytes(|script|), Concat(script, OpBytes), rest);
    ReadsVec(script, rest, TakeOp, OpBytes);
  }

  // ----- entries of the state root -----

  /** Transaction id, index, output, height. */
  function TakeUtxoEntry(s: Bytes): Taken<Roots.UtxoEntry> {
    match TakeInput(s)
    case Nothing => Nothing
    case Took(key, s1) =>
      match TakeOutput(s1)
      case Nothing => Nothing
      case Took(output, s2) =>
        match TakeU64(s2)
        case Nothing => Nothing
        case Took(height, rest) => Took(Listings.Entry(key, TrackedOutput(output, height)), rest)
  }

  function TakeAssetEntry(s: Bytes): Taken<Roots.AssetEntry> {
    match TakeHash(s)
    case Nothing => Nothing
    case Took(id, s1) =>
      match TakeAssetDefinition(s1)
      case Nothing => Nothing
      case Took(definition, rest) => Took(Listings.Entry(id, definition), rest)
  }

  lemma UtxoEntryLayout()
    ensures Reads(TakeUtxoEntry, Roots.UtxoEntryBytes)
  {
    hide TakeInput, InputBytes, TakeOutput, OutputBytes, U32Bytes, U64Bytes, Roots.UtxoEntryBytes;
    InputLayout();
    OutputLayout();
    forall e: Roots.UtxoEntry, rest: Bytes
      ensures TakeUtxoEntry(Roots.UtxoEntryBytes(e) + rest) == Took(e, rest)
    {
      var s2 := U64Bytes(e.value.createdHeight) + rest;
      var s1 := OutputBytes(e.value.output) + s2;
      UtxoEntryParts(e, rest);
      assert TakeInput(InputBytes(e.key) + s1) == Took(e.key, s1);
      assert TakeOutput(OutputBytes(e.value.output) + s2) == Took(e.value.output, s2);
      ReadsU64(e.value.createdHeight, rest);
    }
  }

  lemma UtxoEntryParts(e: Roots.UtxoEntry, rest: Bytes)
    ensures Roots.UtxoEntryBytes(e) + rest
         == InputBytes(e.key) + (OutputBytes(e.value.output) + (U64Bytes(e.value.createdHeight) + rest))
  {
    hide OutputBytes, U32Bytes, U64Bytes;
  }

  lemma AssetEntryLayout()
    ensures Reads(TakeAssetEntry, Roots.AssetEntryBytes)
  {
    hide TakeAssetDefinition, AssetDefinitionBytes;
    AssetDefinitionLayout();
    forall e: Roots.AssetEntry, rest: Bytes
      ensures TakeAssetEntry(Roots.AssetEntryBytes(e) + rest) == Took(e, rest)
    {
      Associate(e.key, AssetDefinitionBytes(e.value), rest);
      ReadsHash(e.key, AssetDefinitionBytes(e.value) + rest);
      assert TakeAssetDefinition(AssetDefinitionBytes(e.value) + rest) == Took(e.value, rest);
    }
  }

  /** Ids in the order of their bytes; of one id, the lower index first. */
  ghost predicate Comes(a: UtxoKey, b: UtxoKey) {
    (exists k :: 0 <= k && Sorting.DiffersAt(a.txId, b.txId, k)) || (a.txId == b.txId && a.index < b.index)
  }

  /** The root is the hash of the entries of the outputs and then of the assets, each in this order. */
  lemma RootExactly(env: Env, ledger: Ledger, keys: seq<UtxoKey>, ids: seq<AssetId>)
    requires forall k :: k in keys <==> k in ledger.utxos
    requires forall id :: id in ids <==> id in ledger.assets
    requires forall i, j :: 0 <= i < j < |keys| ==> Comes(keys[i], keys[j])
    requires forall i, j :: 0 <= i < j < |ids| ==> exists k :: 0 <= k && Sorting.DiffersAt(ids[i], ids[j], k)
    ensures Roots.Root(env, ledger)
         == env.blake3(Concat(Listings.Entries(ledger.utxos, keys), Roots.UtxoEntryBytes)
                       + Concat(Listings.Entries(ledger.assets, ids), Roots.AssetEntryBytes))
  {
    hide Roots.UtxoEntryBytes, Roots.AssetEntryBytes, Sorting.DiffersAt, Sorting.BytesBefore, Concat, Roots.Preimage;
    forall i, j | 0 <= i < j < |keys|
      ensures Sorting.KeyBefore(keys[i], keys[j])
    {
      Sorting.BytesBeforeExactly(keys[i].txId, keys[j].txId);
    }
    forall i, j | 0 <= i < j < |ids|
      ensures Sorting.HashBefore(ids[i], ids[j])
    {
      Sorting.BytesBeforeExactly(ids[i], ids[j]);
    }
    Roots.PreimageOfListings(ledger, keys, ids);
  }

  // ----- what is hashed and signed -----

  /** The bytes are these characters of ASCII. */
  predicate IsText(s: Bytes, text: string) {
    |s| == |text| && forall i :: 0 <= i < |s| ==> s[i] == text[i] as int
  }

  lemma DomainsAreText()
    ensures IsText(ASSET_ID_DOMAIN, "QCOIN_ASSET_ID_V1") && IsText(SIGHASH_DOMAIN, "QCOIN_SIGHASH_V1")
    ensures IsText(QCOIN_ASSET_ID[..7], "loadngo") && forall i :: 7 <= i < 32 ==> QCOIN_ASSET_ID[i] == 0
  {
  }

  /** 17 characters, chain id, definition. */
  function TakeAssetIdPreimage(s: Bytes): Taken<(u32, AssetDefinition)> {
    if |s| < 17 || !IsText(s[..17], "QCOIN_ASSET_ID_V1") then Nothing
    else
      match TakeU32(s[17..])
      case Nothing => Nothing
      case Took(chainId, s1) =>
        match TakeAssetDefinition(s1)
        case Nothing => Nothing
        case Took(definition, rest) => Took((chainId, definition), rest)
  }

  /** 16 characters, chain id, core, spent output, input index, script hash, flags. */
  function TakeSighash(s: Bytes): Taken<SighashParts> {
    if |s| < 16 || !IsText(s[..16], "QCOIN_SIGHASH_V1") then Nothing
    else
      match TakeU32(s[16..])
      case Nothing => Nothing
      case Took(chainId, s1) =>
        match TakeTxCore(s1)
        case Nothing => Nothing
        case Took(core, s2) =>
          match TakeOutput(s2)
          case Nothing => Nothing
          case Took(spent, s3) =>
            match TakeU64(s3)
            case Nothing => Nothing
            case Took(index, s4) =>
              match TakeHash(s4)
              case Nothing => Nothing
              case Took(script, s5) =>
                match TakeU32(s5)
                case Nothing => Nothing
                case Took(flags, rest) => Took(SighashParts(chainId, core, spent, index, script, flags), rest)
  }

  lemma AssetIdLayout(d: AssetDefinition, chainId: u32)
    ensures TakeAssetIdPreimage(AssetIdPreimage(d, chainId)) == Took((chainId, d), [])
  {
    hide TakeAssetDefinition, AssetDefinitionBytes;
    var s1 := AssetDefinitionBytes(d) + [];
    var s := AssetIdPreimage(d, chainId);
    assert s[..17] == ASSET_ID_DOMAIN && s[17..] == U32Bytes(chainId) + s1;
    DomainsAreText();
    ReadsU32(chainId, s1);
    AssetDefinitionLayout();
  }

  lemma SighashLayout(p: SighashParts)
    ensures TakeSighash(SighashPreimage(p)) == Took(p, [])
  {
    hide TakeTxCore, TxCoreBytes, TakeOutput, OutputBytes, U32Bytes, U64Bytes;
    var s5 := U32Bytes(p.flags) + [];
    var s4 := p.scriptHash + s5;
    var s3 := U64Bytes(p.inputIndex) + s4;
    var s2 := OutputBytes(p.prevOutput) + s3;
    var s1 := TxCoreBytes(p.core) + s2;
    var s := SighashPreimage(p);
    assert s[..16] == SIGHASH_DOMAIN && s[16..] == U32Bytes(p.chainId) + s1;
    DomainsAreText();
    ReadsU32(p.chainId, s1);
    TxCoreLayout();
    assert TakeTxCore(TxCoreBytes(p.core) + s2) == Took(p.core, s2);
    OutputLayout();
    assert TakeOutput(OutputBytes(p.prevOutput) + s3) == Took(p.prevOutput, s3);
    ReadsU64(p.inputIndex, s4);
    ReadsHash(p.scriptHash, s5);
    ReadsU32(p.flags, []);
  }
}
