/** The consensus encodings (qcoin-types `consensus_codec`, qcoin-script `encode_script`), the
    hash preimages built from them, and the proof that every encoding can be read back off the
    front of any longer string in one way only. */
module Codec {
  import opened Types
  import opened LittleEndian

  // ----- what each encoder writes -----

  /** The encodings of a vector's elements, one after the other. */
  function Concat<T>(xs: seq<T>, encode: T -> Bytes): Bytes {
    if xs == [] then [] else encode(xs[0]) + Concat(xs[1..], encode)
  }

  function AssetAmountBytes(a: AssetAmount): Bytes {
    a.assetId + U128Bytes(a.amount)
  }

  function OptionHashBytes(h: Option<Hash256>): Bytes {
    match h
    case Some(hash) => [1] + hash
    case None => [0]
  }

  function OptionU128Bytes(n: Option<u128>): Bytes {
    match n
    case Some(max) => [1] + U128Bytes(max)
    case None => [0]
  }

  function AssetKindByte(k: AssetKind): byte {
    match k
    case Fungible => 0
    case NonFungible => 1
    case SemiFungible => 2
  }

  function AssetDefinitionBytes(d: AssetDefinition): Bytes {
    d.issuerScriptHash + ([AssetKindByte(d.kind)] + (d.metadataRoot + (OptionU128Bytes(d.maxSupply) + [d.decimals])))
  }

  function OutputBytes(o: Output): Bytes {
    o.ownerScriptHash + (U32Bytes(|o.assets|) + (Concat(o.assets, AssetAmountBytes) + OptionHashBytes(o.metadataHash)))
  }

  function InputBytes(i: TransactionInput): Bytes {
    i.txId + U32Bytes(i.index)
  }

  function KindByte(k: TransactionKind): byte {
    if k.Transfer? then 0 else 1
  }

  function KindTail(k: TransactionKind): Bytes {
    match k
    case Transfer => []
    case CreateAsset(definition, supply) => AssetDefinitionBytes(definition) + U128Bytes(supply)
  }

  function TxCoreBytes(c: TransactionCore): Bytes {
    [KindByte(c.kind)]
    + (U32Bytes(|c.inputs|) + (Concat(c.inputs, InputBytes)
    + (U32Bytes(|c.outputs|) + (Concat(c.outputs, OutputBytes)
    + KindTail(c.kind)))))
  }

  function HeaderBytes(h: BlockHeader): Bytes {
    h.parentHash + (h.stateRoot + (h.txRoot + (U64Bytes(h.height) + U64Bytes(h.timestamp))))
  }

  function OpBytes(op: OpCode): Bytes {
    match op
    case CheckSig => [0]
    case CheckMultiSig(threshold, total) => [1, threshold, total]
    case CheckTimeLock => [2]
    case CheckRelativeTimeLock => [3]
    case CheckHashLock => [4]
    case PushBytes(data) => [5] + (U32Bytes(|data|) + data)
    case Nop => [6]
  }

  function ScriptBytes(s: Script): Bytes {
    U32Bytes(|s|) + Concat(s, OpBytes)
  }

  // ----- hash preimages -----

  // b"QCOIN_ASSET_ID_V1"
  const ASSET_ID_DOMAIN: Bytes :=
    [0x51, 0x43, 0x4f, 0x49, 0x4e, 0x5f, 0x41, 0x53, 0x53, 0x45, 0x54, 0x5f, 0x49, 0x44, 0x5f, 0x56, 0x31]

  // b"QCOIN_SIGHASH_V1"
  const SIGHASH_DOMAIN: Bytes :=
    [0x51, 0x43, 0x4f, 0x49, 0x4e, 0x5f, 0x53, 0x49, 0x47, 0x48, 0x41, 0x53, 0x48, 0x5f, 0x56, 0x31]

  function AssetIdPreimage(d: AssetDefinition, chainId: u32): Bytes {
    ASSET_ID_DOMAIN + (U32Bytes(chainId) + AssetDefinitionBytes(d))
  }

  /** Everything a signature covers: the core, not the witnesses, and the output being spent. */
  datatype SighashParts = SighashParts(
    chainId: u32,
    core: TransactionCore,
    prevOutput: Output,
    inputIndex: u64,
    scriptHash: Hash256,
    flags: u32)

  function SighashPreimage(p: SighashParts): Bytes {
    SIGHASH_DOMAIN + (U32Bytes(p.chainId) + (TxCoreBytes(p.core) + (OutputBytes(p.prevOutput)
    + (U64Bytes(p.inputIndex) + (p.scriptHash + U32Bytes(p.flags))))))
  }

  function TxId(env: Env, core: TransactionCore): Hash256 {
    Blake3(env, TxCoreBytes(core))
  }

  function DeriveAssetId(env: Env, d: AssetDefinition, chainId: u32): AssetId {
    Blake3(env, AssetIdPreimage(d, chainId))
  }

  function Sighash(env: Env, p: SighashParts): Hash256 {
    Blake3(env, SighashPreimage(p))
  }

  function HeaderHash(env: Env, h: BlockHeader): Hash256 {
    Blake3(env, HeaderBytes(h))
  }

  function ScriptHash(env: Env, s: Script): Hash256 {
    Blake3(env, ScriptBytes(s))
  }

  // ----- unique readability -----

  /** No encoding is the start of another one, and different values have different encodings:
      whatever follows, the front of the string says which value was written. */
  ghost predicate PrefixFree<T(!new)>(encode: T -> Bytes) {
    forall a, x: Bytes, b, y: Bytes :: encode(a) + x == encode(b) + y ==> a == b && x == y
  }

  /** A vector whose length is known in advance (`encode_len` writes it first). */
  lemma {:induction false} ConcatPrefixFree<T(!new)>(a: seq<T>, x: Bytes, b: seq<T>, y: Bytes, encode: T -> Bytes)
    requires PrefixFree(encode) && |a| == |b|
    requires Concat(a, encode) + x == Concat(b, encode) + y
    ensures a == b && x == y
  {
    if a == [] {
      assert Concat(a, encode) + x == x && Concat(b, encode) + y == y;
    } else {
      Associate(encode(a[0]), Concat(a[1..], encode), x);
      Associate(encode(b[0]), Concat(b[1..], encode), y);
      ConcatPrefixFree(a[1..], x, b[1..], y, encode);
      assert a == [a[0]] + a[1..] && b == [b[0]] + b[1..];
    }
  }

  /** A vector that runs to the end of the string needs no length, if no element is empty. */
  lemma {:induction false} ConcatInjective<T(!new)>(a: seq<T>, b: seq<T>, encode: T -> Bytes)
    requires PrefixFree(encode) && forall t :: encode(t) != []
    requires Concat(a, encode) == Concat(b, encode)
    ensures a == b
  {
    if a != [] && b != [] {
      assert encode(a[0]) + Concat(a[1..], encode) == encode(b[0]) + Concat(b[1..], encode);
      ConcatInjective(a[1..], b[1..], encode);
      assert a == [a[0]] + a[1..] && b == [b[0]] + b[1..];
    }
  }

  lemma AssetAmountPrefixFree()
    ensures PrefixFree(AssetAmountBytes)
  {
    forall a, x: Bytes, b, y: Bytes | AssetAmountBytes(a) + x == AssetAmountBytes(b) + y
      ensures a == b && x == y
    {
      Peel(a.assetId, U128Bytes(a.amount), x, b.assetId, U128Bytes(b.amount), y);
      Cut(U128Bytes(a.amount), x, U128Bytes(b.amount), y);
      U128Injective(a.amount, b.amount);
    }
  }

  lemma OptionHashPrefixFree()
    ensures PrefixFree(OptionHashBytes)
  {
    forall a, x: Bytes, b, y: Bytes | OptionHashBytes(a) + x == OptionHashBytes(b) + y
      ensures a == b && x == y
    {
      assert (OptionHashBytes(a) + x)[0] == (OptionHashBytes(b) + y)[0];
      Cut(OptionHashBytes(a), x, OptionHashBytes(b), y);
      if a.Some? {
        Cut([1], a.value, [1], b.value);
      }
    }
  }

  lemma OptionU128PrefixFree()
    ensures PrefixFree(OptionU128Bytes)
  {
    forall a, x: Bytes, b, y: Bytes | OptionU128Bytes(a) + x == OptionU128Bytes(b) + y
      ensures a == b && x == y
    {
      assert (OptionU128Bytes(a) + x)[0] == (OptionU128Bytes(b) + y)[0];
      Cut(OptionU128Bytes(a), x, OptionU128Bytes(b), y);
      if a.Some? {
        Cut([1], U128Bytes(a.value), [1], U128Bytes(b.value));
        U128Injective(a.value, b.value);
      }
    }
  }

  lemma AssetDefinitionPrefixFree()
    ensures PrefixFree(AssetDefinitionBytes)
  {
    forall a, x: Bytes, b, y: Bytes | AssetDefinitionBytes(a) + x == AssetDefinitionBytes(b) + y
      ensures a == b && x == y
    {
      var a3, b3 := OptionU128Bytes(a.maxSupply) + [a.decimals], OptionU128Bytes(b.maxSupply) + [b.decimals];
      var a2, b2 := a.metadataRoot + a3, b.metadataRoot + b3;
      var ka, kb := [AssetKindByte(a.kind)], [AssetKindByte(b.kind)];
      Peel(a.issuerScriptHash, ka + a2, x, b.issuerScriptHash, kb + b2, y);
      Peel(ka, a2, x, kb, b2, y);
      assert ka[0] == kb[0];
      Peel(a.metadataRoot, a3, x, b.metadataRoot, b3, y);
      Associate(OptionU128Bytes(a.maxSupply), [a.decimals], x);
      Associate(OptionU128Bytes(b.maxSupply), [b.decimals], y);
      OptionU128PrefixFree();
      assert [a.decimals] + x == [b.decimals] + y;
      Cut([a.decimals], x, [b.decimals], y);
    }
  }

  lemma OutputPrefixFree()
    ensures PrefixFree(OutputBytes)
  {
    forall a, x: Bytes, b, y: Bytes | OutputBytes(a) + x == OutputBytes(b) + y
      ensures a == b && x == y
    {
      var a3, b3 := OptionHashBytes(a.metadataHash), OptionHashBytes(b.metadataHash);
      var a2, b2 := Concat(a.assets, AssetAmountBytes), Concat(b.assets, AssetAmountBytes);
      var la, lb := U32Bytes(|a.assets|), U32Bytes(|b.assets|);
      Peel(a.ownerScriptHash, la + (a2 + a3), x, b.ownerScriptHash, lb + (b2 + b3), y);
      Peel(la, a2 + a3, x, lb, b2 + b3, y);
      U32RoundTrip(|a.assets|);
      U32RoundTrip(|b.assets|);
      Associate(a2, a3, x);
      Associate(b2, b3, y);
      AssetAmountPrefixFree();
      ConcatPrefixFree(a.assets, a3 + x, b.assets, b3 + y, AssetAmountBytes);
      OptionHashPrefixFree();
    }
  }

  lemma InputPrefixFree()
    ensures PrefixFree(InputBytes)
  {
    forall a, x: Bytes, b, y: Bytes | InputBytes(a) + x == InputBytes(b) + y
      ensures a == b && x == y
    {
      Peel(a.txId, U32Bytes(a.index), x, b.txId, U32Bytes(b.index), y);
      Cut(U32Bytes(a.index), x, U32Bytes(b.index), y);
      U32RoundTrip(a.index);
      U32RoundTrip(b.index);
    }
  }

  lemma KindTailPrefixFree(a: TransactionKind, x: Bytes, b: TransactionKind, y: Bytes)
    requires KindByte(a) == KindByte(b) && KindTail(a) + x == KindTail(b) + y
    ensures a == b && x == y
  {
    if a.CreateAsset? {
      var sa, sb := U128Bytes(a.initialSupply), U128Bytes(b.initialSupply);
      Associate(AssetDefinitionBytes(a.definition), sa, x);
      Associate(AssetDefinitionBytes(b.definition), sb, y);
      AssetDefinitionPrefixFree();
      assert sa + x == sb + y;
      Cut(sa, x, sb, y);
      U128Injective(a.initialSupply, b.initialSupply);
    } else {
      assert KindTail(a) + x == x && KindTail(b) + y == y;
    }
  }

  lemma TxCorePrefixFree()
    ensures PrefixFree(TxCoreBytes)
  {
    forall a, x: Bytes, b, y: Bytes | TxCoreBytes(a) + x == TxCoreBytes(b) + y
      ensures a == b && x == y
    {
      var ka, kb := [KindByte(a.kind)], [KindByte(b.kind)];
      var ia, ib := Concat(a.inputs, InputBytes), Concat(b.inputs, InputBytes);
      var la, lb := U32Bytes(|a.inputs|), U32Bytes(|b.inputs|);
      var oa, ob := Concat(a.outputs, OutputBytes), Concat(b.outputs, OutputBytes);
      var ma, mb := U32Bytes(|a.outputs|), U32Bytes(|b.outputs|);
      var a2, b2 := oa + KindTail(a.kind), ob + KindTail(b.kind);
      Peel(ka, la + (ia + (ma + a2)), x, kb, lb + (ib + (mb + b2)), y);
      assert ka[0] == kb[0];
      Peel(la, ia + (ma + a2), x, lb, ib + (mb + b2), y);
      U32RoundTrip(|a.inputs|);
      U32RoundTrip(|b.inputs|);
      Associate(ia, ma + a2, x);
      Associate(ib, mb + b2, y);
      InputPrefixFree();
      ConcatPrefixFree(a.inputs, (ma + a2) + x, b.inputs, (mb + b2) + y, InputBytes);
      Peel(ma, a2, x, mb, b2, y);
      U32RoundTrip(|a.outputs|);
      U32RoundTrip(|b.outputs|);
      Associate(oa, KindTail(a.kind), x);
      Associate(ob, KindTail(b.kind), y);
      OutputPrefixFree();
      ConcatPrefixFree(a.outputs, KindTail(a.kind) + x, b.outputs, KindTail(b.kind) + y, OutputBytes);
      KindTailPrefixFree(a.kind, x, b.kind, y);
    }
  }

  lemma HeaderPrefixFree()
    ensures PrefixFree(HeaderBytes)
  {
    forall a, x: Bytes, b, y: Bytes | HeaderBytes(a) + x == HeaderBytes(b) + y
      ensures a == b && x == y
    {
      var a3, b3 := U64Bytes(a.height) + U64Bytes(a.timestamp), U64Bytes(b.height) + U64Bytes(b.timestamp);
      Peel(a.parentHash, a.stateRoot + (a.txRoot + a3), x, b.parentHash, b.stateRoot + (b.txRoot + b3), y);
      Peel(a.stateRoot, a.txRoot + a3, x, b.stateRoot, b.txRoot + b3, y);
      Peel(a.txRoot, a3, x, b.txRoot, b3, y);
      Peel(U64Bytes(a.height), U64Bytes(a.timestamp), x, U64Bytes(b.height), U64Bytes(b.timestamp), y);
      Cut(U64Bytes(a.timestamp), x, U64Bytes(b.timestamp), y);
      U64RoundTrip(a.height);
      U64RoundTrip(b.height);
      U64RoundTrip(a.timestamp);
      U64RoundTrip(b.timestamp);
    }
  }

  lemma OpPrefixFree()
    ensures PrefixFree(OpBytes)
  {
    forall a, x: Bytes, b, y: Bytes | OpBytes(a) + x == OpBytes(b) + y
      ensures a == b && x == y
    {
      assert (OpBytes(a) + x)[0] == (OpBytes(b) + y)[0];
      if a.PushBytes? {
        var la, lb := U32Bytes(|a.data|), U32Bytes(|b.data|);
        Peel([5], la + a.data, x, [5], lb + b.data, y);
        Peel(la, a.data, x, lb, b.data, y);
        U32RoundTrip(|a.data|);
        U32RoundTrip(|b.data|);
        Cut(a.data, x, b.data, y);
      } else {
        Cut(OpBytes(a), x, OpBytes(b), y);
        if a.CheckMultiSig? {
          assert OpBytes(a)[1] == OpBytes(b)[1] && OpBytes(a)[2] == OpBytes(b)[2];
        }
      }
    }
  }

  lemma ScriptPrefixFree()
    ensures PrefixFree(ScriptBytes)
  {
    forall a: Script, x: Bytes, b: Script, y: Bytes | ScriptBytes(a) + x == ScriptBytes(b) + y
      ensures a == b && x == y
    {
      Peel(U32Bytes(|a|), Concat(a, OpBytes), x, U32Bytes(|b|), Concat(b, OpBytes), y);
      U32RoundTrip(|a|);
      U32RoundTrip(|b|);
      OpPrefixFree();
      ConcatPrefixFree(a, x, b, y, OpBytes);
    }
  }

  // ----- what a preimage determines -----

  lemma PrefixFreeInjective<T(!new)>(encode: T -> Bytes, a: T, b: T)
    requires PrefixFree(encode) && encode(a) == encode(b)
    ensures a == b
  {
    assert encode(a) + [] == encode(b) + [];
  }

  lemma SighashPreimageInjective(p: SighashParts, q: SighashParts)
    requires SighashPreimage(p) == SighashPreimage(q)
    ensures p == q
  {
    hide TxCoreBytes, OutputBytes, U32Bytes, U64Bytes;
    var p3, q3 := p.scriptHash + U32Bytes(p.flags), q.scriptHash + U32Bytes(q.flags);
    var p2, q2 := U64Bytes(p.inputIndex) + p3, U64Bytes(q.inputIndex) + q3;
    var p1, q1 := OutputBytes(p.prevOutput) + p2, OutputBytes(q.prevOutput) + q2;
    var p0, q0 := TxCoreBytes(p.core) + p1, TxCoreBytes(q.core) + q1;
    Cut(SIGHASH_DOMAIN, U32Bytes(p.chainId) + p0, SIGHASH_DOMAIN, U32Bytes(q.chainId) + q0);
    Cut(U32Bytes(p.chainId), p0, U32Bytes(q.chainId), q0);
    U32RoundTrip(p.chainId);
    U32RoundTrip(q.chainId);
    TxCorePrefixFree();
    OutputPrefixFree();
    assert p2 == q2;
    Cut(U64Bytes(p.inputIndex), p3, U64Bytes(q.inputIndex), q3);
    U64RoundTrip(p.inputIndex);
    U64RoundTrip(q.inputIndex);
    Cut(p.scriptHash, U32Bytes(p.flags), q.scriptHash, U32Bytes(q.flags));
    U32RoundTrip(p.flags);
    U32RoundTrip(q.flags);
  }

  lemma AssetIdPreimageInjective(d: AssetDefinition, c: u32, d': AssetDefinition, c': u32)
    requires AssetIdPreimage(d, c) == AssetIdPreimage(d', c')
    ensures d == d' && c == c'
  {
    var a, b := AssetDefinitionBytes(d), AssetDefinitionBytes(d');
    Cut(ASSET_ID_DOMAIN, U32Bytes(c) + a, ASSET_ID_DOMAIN, U32Bytes(c') + b);
    Cut(U32Bytes(c), a, U32Bytes(c'), b);
    U32RoundTrip(c);
    U32RoundTrip(c');
    AssetDefinitionPrefixFree();
    PrefixFreeInjective(AssetDefinitionBytes, d, d');
  }

  lemma TxCoreInjective(a: TransactionCore, b: TransactionCore)
    requires TxCoreBytes(a) == TxCoreBytes(b)
    ensures a == b
  {
    TxCorePrefixFree();
    PrefixFreeInjective(TxCoreBytes, a, b);
  }

  lemma HeaderInjective(a: BlockHeader, b: BlockHeader)
    requires HeaderBytes(a) == HeaderBytes(b)
    ensures a == b
  {
    HeaderPrefixFree();
    PrefixFreeInjective(HeaderBytes, a, b);
  }
}
