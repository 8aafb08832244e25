/** The encoders as the source writes them: each appends to a growing buffer, vectors in a loop. */
module Encoder {
  import opened Types
  import opened LittleEndian
  import opened Codec

  lemma {:induction false} ConcatAppend<T>(xs: seq<T>, n: nat, encode: T -> Bytes)
    requires n < |xs|
    ensures Concat(xs[..n + 1], encode) == Concat(xs[..n], encode) + encode(xs[n])
  {
    if n == 0 {
      assert xs[..1][1..] == [];
      assert Concat(xs[..1], encode) == encode(xs[0]) + [];
    } else {
      ConcatAppend(xs[1..], n - 1, encode);
      assert xs[..n + 1][1..] == xs[1..][..n] && xs[..n][1..] == xs[1..][..n - 1];
      assert xs[1..][..n - 1 + 1] == xs[1..][..n];
      Associate(encode(xs[0]), Concat(xs[1..][..n - 1], encode), encode(xs[n]));
    }
  }

  /** What two vectors and a tail, each appended in turn, leave in the buffer. */
  lemma AppendAll(o: Bytes, k: Bytes, n: Bytes, xs: Bytes, m: Bytes, ys: Bytes, t: Bytes)
    ensures (((o + k) + (n + xs)) + (m + ys)) + t == o + (k + (n + (xs + (m + (ys + t)))))
  {
    Associate(m, ys, t);
    Associate(n, xs, m + (ys + t));
    Associate((o + k) + (n + xs), m + ys, t);
    Associate(o + k, n + xs, m + (ys + t));
    Associate(o, k, n + (xs + (m + (ys + t))));
  }

  /** Seven pieces appended in turn to an empty buffer. */
  lemma AppendSeven(a: Bytes, b: Bytes, c: Bytes, d: Bytes, e: Bytes, f: Bytes, g: Bytes)
    ensures (((((([] + a) + b) + c) + d) + e) + f) + g == a + (b + (c + (d + (e + (f + g)))))
  {
    Associate(e, f, g);
    Associate(d, e + f, g);
    Associate(d, e, f);
    Associate(((a + b) + c) + d, e, f);
    Associate((a + b) + c, d, e + f);
    Associate(a + b, c, d + (e + f));
    Associate(a, b, c + (d + (e + f)));
    Associate(a, b + (c + (d + (e + f))), g);
    Associate(b, c + (d + (e + f)), g);
    Associate(c, d + (e + f), g);
    assert [] + a == a;
  }

  class Buffer {
    var out: Bytes

    constructor ()
      ensures out == []
    {
      out := [];
    }

    method Push(b: byte)
      modifies this
      ensures out == old(out) + [b]
    {
      out := out + [b];
    }

    method Extend(bytes: Bytes)
      modifies this
      ensures out == old(out) + bytes
    {
      out := out + bytes;
    }

    method EncodeLen(len: u32)
      modifies this
      ensures out == old(out) + U32Bytes(len)
    {
      Extend(U32Bytes(len));
    }

    method EncodeAssetAmount(asset: AssetAmount)
      modifies this
      ensures out == old(out) + AssetAmountBytes(asset)
    {
      Extend(asset.assetId);
      Extend(U128Bytes(asset.amount));
    }

    method EncodeAssetDefinition(definition: AssetDefinition)
      modifies this
      ensures out == old(out) + AssetDefinitionBytes(definition)
    {
      Extend(definition.issuerScriptHash);
      Push(AssetKindByte(definition.kind));
      Extend(definition.metadataRoot);
      match definition.maxSupply {
        case Some(max) =>
          Push(1);
          Extend(U128Bytes(max));
        case None =>
          Push(0);
      }
      Push(definition.decimals);
    }

    method EncodeOutput(output: Output)
      modifies this
      ensures out == old(out) + OutputBytes(output)
    {
      Extend(output.ownerScriptHash);
      EncodeLen(|output.assets|);
      ghost var start := out;
      for i := 0 to |output.assets|
        invariant out == start + Concat(output.assets[..i], AssetAmountBytes)
      {
        EncodeAssetAmount(output.assets[i]);
        ConcatAppend(output.assets, i, AssetAmountBytes);
        Associate(start, Concat(output.assets[..i], AssetAmountBytes), AssetAmountBytes(output.assets[i]));
      }
      assert output.assets[..|output.assets|] == output.assets;
      match output.metadataHash {
        case Some(hash) =>
          Push(1);
          Extend(hash);
        case None =>
          Push(0);
      }
    }

    method EncodeInput(input: TransactionInput)
      modifies this
      ensures out == old(out) + InputBytes(input)
    {
      Extend(input.txId);
      Extend(U32Bytes(input.index));
    }

    method EncodeInputs(inputs: Vec<TransactionInput>)
      modifies this
      ensures out == old(out) + (U32Bytes(|inputs|) + Concat(inputs, InputBytes))
    {
      EncodeLen(|inputs|);
      ghost var start := out;
      for i := 0 to |inputs|
        invariant out == start + Concat(inputs[..i], InputBytes)
      {
        EncodeInput(inputs[i]);
        ConcatAppend(inputs, i, InputBytes);
        Associate(start, Concat(inputs[..i], InputBytes), InputBytes(inputs[i]));
      }
      assert inputs[..|inputs|] == inputs;
      Associate(old(out), U32Bytes(|inputs|), Concat(inputs, InputBytes));
    }

    method EncodeOutputs(outputs: Vec<Output>)
      modifies this
      ensures out == old(out) + (U32Bytes(|outputs|) + Concat(outputs, OutputBytes))
    {
      EncodeLen(|outputs|);
      ghost var start := out;
      for i := 0 to |outputs|
        invariant out == start + Concat(outputs[..i], OutputBytes)
      {
        EncodeOutput(outputs[i]);
        ConcatAppend(outputs, i, OutputBytes);
        Associate(start, Concat(outputs[..i], OutputBytes), OutputBytes(outputs[i]));
      }
      assert outputs[..|outputs|] == outputs;
      Associate(old(out), U32Bytes(|outputs|), Concat(outputs, OutputBytes));
    }

    method EncodeTxCore(core: TransactionCore)
      modifies this
      ensures out == old(out) + TxCoreBytes(core)
    {
      ghost var start := out;
      Push(match core.kind case Transfer => 0 case CreateAsset(_, _) => 1);
      EncodeInputs(core.inputs);
      EncodeOutputs(core.outputs);
      ghost var tail := out;
      match core.kind {
        case Transfer =>
        case CreateAsset(definition, initialSupply) =>
          EncodeAssetDefinition(definition);
          Extend(U128Bytes(initialSupply));
          Associate(tail, AssetDefinitionBytes(definition), U128Bytes(initialSupply));
      }
      assert out == tail + KindTail(core.kind);
      AppendAll(start, [KindByte(core.kind)], U32Bytes(|core.inputs|), Concat(core.inputs, InputBytes),
                U32Bytes(|core.outputs|), Concat(core.outputs, OutputBytes), KindTail(core.kind));
    }

    method EncodeBlockHeader(header: BlockHeader)
      modifies this
      ensures out == old(out) + HeaderBytes(header)
    {
      Extend(header.parentHash);
      Extend(header.stateRoot);
      Extend(header.txRoot);
      Extend(U64Bytes(header.height));
      Extend(U64Bytes(header.timestamp));
    }

    method EncodeOp(op: OpCode)
      modifies this
      ensures out == old(out) + OpBytes(op)
    {
      ghost var start := out;
      match op {
        case CheckSig => Push(0);
        case CheckMultiSig(threshold, total) =>
          Push(1);
          Push(threshold);
          Push(total);
        case CheckTimeLock => Push(2);
        case CheckRelativeTimeLock => Push(3);
        case CheckHashLock => Push(4);
        case PushBytes(data) =>
          Push(5);
          EncodeLen(|data|);
          Extend(data);
          Associate(start + [5], U32Bytes(|data|), data);
          Associate(start, [5], U32Bytes(|data|) + data);
        case Nop => Push(6);
      }
    }

    method EncodeScript(script: Script)
      modifies this
      ensures out == old(out) + ScriptBytes(script)
    {
      EncodeLen(|script|);
      ghost var start := out;
      for i := 0 to |script|
        invariant out == start + Concat(script[..i], OpBytes)
      {
        EncodeOp(script[i]);
        ConcatAppend(script, i, OpBytes);
        Associate(start, Concat(script[..i], OpBytes), OpBytes(script[i]));
      }
      assert script[..|script|] == script;
      Associate(old(out), U32Bytes(|script|), Concat(script, OpBytes));
    }
  }
  /** `TransactionCore::tx_id`: the witnesses are not hashed. */
  method ComputeTxId(env: Env, core: TransactionCore) returns (id: Hash256)
    ensures id == TxId(env, core)
  {
    var buffer := new Buffer();
    buffer.EncodeTxCore(core);
    assert buffer.out == TxCoreBytes(core);
    id := Blake3(env, buffer.out);
  }

  /** `derive_asset_id`. */
  method ComputeAssetId(env: Env, definition: AssetDefinition, chainId: u32) returns (id: AssetId)
    ensures id == DeriveAssetId(env, definition, chainId)
  {
    var preimage := new Buffer();
    preimage.Extend(ASSET_ID_DOMAIN);
    preimage.Extend(U32Bytes(chainId));
    preimage.EncodeAssetDefinition(definition);
    assert preimage.out == AssetIdPreimage(definition, chainId);
    id := Blake3(env, preimage.out);
  }

  /** `Transaction::sighash`. */
  method ComputeSighash(env: Env, p: SighashParts) returns (hash: Hash256)
    ensures hash == Sighash(env, p)
  {
    var preimage := new Buffer();
    preimage.Extend(SIGHASH_DOMAIN);
    preimage.Extend(U32Bytes(p.chainId));
    preimage.EncodeTxCore(p.core);
    preimage.EncodeOutput(p.prevOutput);
    preimage.Extend(U64Bytes(p.inputIndex));
    preimage.Extend(p.scriptHash);
    preimage.Extend(U32Bytes(p.flags));
    AppendSeven(SIGHASH_DOMAIN, U32Bytes(p.chainId), TxCoreBytes(p.core), OutputBytes(p.prevOutput),
                U64Bytes(p.inputIndex), p.scriptHash, U32Bytes(p.flags));
    hash := Blake3(env, preimage.out);
  }

  method ComputeScriptHash(env: Env, script: Script) returns (hash: Hash256)
    ensures hash == ScriptHash(env, script)
  {
    var buffer := new Buffer();
    buffer.EncodeScript(script);
    assert buffer.out == ScriptBytes(script);
    hash := Blake3(env, buffer.out);
  }

  method ComputeHeaderHash(env: Env, header: BlockHeader) returns (hash: Hash256)
    ensures hash == HeaderHash(env, header)
  {
    var buffer := new Buffer();
    buffer.EncodeBlockHeader(header);
    assert buffer.out == HeaderBytes(header);
    hash := Blake3(env, buffer.out);
  }
}
