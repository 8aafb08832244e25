/** Values shared by every layer: machine integers, hashes, transactions, blocks, and the
    foreign primitives (hashing, signatures, witness decoding) as a record of functions. */
module Types {

  type byte = x: int | 0 <= x < 0x100
  type u16 = x: int | 0 <= x < 0x1_0000
  type u32 = x: int | 0 <= x < 0x1_0000_0000
  type u64 = x: int | 0 <= x < 0x1_0000_0000_0000_0000
  type u128 = x: int | 0 <= x <= U128_MAX

  const U64_MAX: int := 0xFFFF_FFFF_FFFF_FFFF
  const U128_MAX: int := 0xFFFF_FFFF_FFFF_FFFF_FFFF_FFFF_FFFF_FFFF

  type Bytes = seq<byte>
  type Hash256 = h: Bytes | |h| == 32 witness seq(32, _ => 0)

  const ZERO_HASH: Hash256 :=
    [0, 0, 0, 0, 0, 0, 0, 0, 0, 0, 0, 0, 0, 0, 0, 0,
     0, 0, 0, 0, 0, 0, 0, 0, 0, 0, 0, 0, 0, 0, 0, 0]

  // A vector short enough for a consensus encoding. `encode_len` panics on anything longer, so a
  // longer one never gets a transaction id, a script hash or a sighash.
  type Vec<T> = s: seq<T> | |s| < 0x1_0000_0000

  datatype Option<+T> = None | Some(value: T)
  datatype Result<+T, +E> = Ok(value: T) | Err(error: E)
  datatype Outcome<+E> = Pass | Fail(error: E)

  // qcoin-types

  type AssetId = Hash256

  // The ASCII literal "loadngo", zero-padded to 32 bytes.
  const QCOIN_ASSET_ID: AssetId :=
    [0x6c, 0x6f, 0x61, 0x64, 0x6e, 0x67, 0x6f, 0, 0, 0, 0, 0, 0, 0, 0, 0,
     0, 0, 0, 0, 0, 0, 0, 0, 0, 0, 0, 0, 0, 0, 0, 0]

  datatype AssetKind = Fungible | NonFungible | SemiFungible

  datatype AssetDefinition = AssetDefinition(
    issuerScriptHash: Hash256,
    metadataRoot: Hash256,
    maxSupply: Option<u128>,
    decimals: byte,
    kind: AssetKind)

  datatype AssetAmount = AssetAmount(assetId: AssetId, amount: u128)

  datatype Output = Output(
    ownerScriptHash: Hash256,
    assets: Vec<AssetAmount>,
    metadataHash: Option<Hash256>)

  datatype UtxoKey = UtxoKey(txId: Hash256, index: u32)

  // A transaction input names the output it spends: the same two fields as a UTXO key.
  type TransactionInput = UtxoKey

  datatype TransactionKind =
    | Transfer
    | CreateAsset(definition: AssetDefinition, initialSupply: u128)

  datatype TransactionCore = TransactionCore(
    kind: TransactionKind,
    inputs: Vec<TransactionInput>,
    outputs: Vec<Output>)

  datatype Transaction = Transaction(core: TransactionCore, witnesses: seq<Bytes>)

  datatype BlockHeader = BlockHeader(
    parentHash: Hash256,
    stateRoot: Hash256,
    txRoot: Hash256,
    height: u64,
    timestamp: u64)

  datatype Block = Block(
    header: BlockHeader,
    transactions: seq<Transaction>,
    proposerPublicKey: PublicKey,
    signature: Signature)

  // qcoin-crypto

  datatype SignatureSchemeId = Dilithium2 | Falcon512 | Unknown(id: u16)
  datatype PublicKey = PublicKey(scheme: SignatureSchemeId, bytes: Bytes)
  datatype PrivateKey = PrivateKey(scheme: SignatureSchemeId, bytes: Bytes)
  datatype Signature = Signature(scheme: SignatureSchemeId, bytes: Bytes)

  // The key and signature lengths fixed by the two signature libraries.
  datatype SchemeSizes = SchemeSizes(publicKey: u32, secretKey: u32, signature: u32)

  // qcoin-script

  datatype OpCode =
    | CheckSig
    | CheckMultiSig(threshold: byte, total: byte)
    | CheckTimeLock
    | CheckRelativeTimeLock
    | CheckHashLock
    | PushBytes(data: Vec<byte>)
    | Nop

  type Script = Vec<OpCode>

  datatype InputWitness = InputWitness(script: Script, metadata: Option<Bytes>)

  // qcoin-ledger

  datatype TrackedOutput = TrackedOutput(output: Output, createdHeight: u64)

  datatype Ledger = Ledger(
    utxos: map<UtxoKey, TrackedOutput>,
    assets: map<AssetId, AssetDefinition>)

  const EMPTY_LEDGER := Ledger(map[], map[])

  /** How the program was built: an addition that leaves its machine type stops it, or wraps. */
  datatype Build = Checked | Wrapping

  /** Everything the model does not look inside, and the build. Nothing is assumed of these functions
      unless a lemma says so in a `requires`. */
  datatype Env = Env(
    blake3: Bytes -> Hash256,
    verifyDetached: (SignatureSchemeId, Bytes, Bytes, Bytes) -> bool,
    signDetached: (SignatureSchemeId, Bytes, Bytes) -> Option<Bytes>,
    decodeWitness: Bytes -> Option<InputWitness>,
    dilithium: SchemeSizes,
    falcon: SchemeSizes,
    build: Build)

  function Blake3(env: Env, data: Bytes): Hash256 {
    env.blake3(data)
  }

  function DecodeWitness(env: Env, data: Bytes): Option<InputWitness> {
    env.decodeWitness(data)
  }

  /** No two different members of `preimages` have the same digest. This is how collision
      resistance enters a theorem: for the finitely many strings that its runs hash, never for
      all strings (no map into 32 bytes is injective). */
  ghost predicate CollisionFree(env: Env, preimages: set<Bytes>) {
    forall a, b :: a in preimages && b in preimages && Blake3(env, a) == Blake3(env, b) ==> a == b
  }
}
