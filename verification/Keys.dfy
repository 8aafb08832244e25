/** Tagged keys and signatures (qcoin-crypto): a scheme number, a length, the raw bytes. */
module Keys {
  import opened Types
  import opened LittleEndian

  datatype CryptoError = WrongScheme | InvalidPublicKey | InvalidSecretKey | InvalidSignature | UnsupportedScheme

  const DILITHIUM2_ID: u16 := 1
  const FALCON512_ID: u16 := 2

  function SchemeFromU16(id: u16): SignatureSchemeId {
    if id == DILITHIUM2_ID then Dilithium2
    else if id == FALCON512_ID then Falcon512
    else Unknown(id)
  }

  function SchemeToU16(s: SignatureSchemeId): u16 {
    match s
    case Dilithium2 => DILITHIUM2_ID
    case Falcon512 => FALCON512_ID
    case Unknown(value) => value
  }

  // Which of the three tables of sizes a caller passes (`public_key_size`, `secret_key_size`,
  // `signature_size`). Only signatures may be shorter than the table says.
  datatype SizeTable = PublicKeys | SecretKeys | Signatures {
    predicate AllowsShorter() { Signatures? }

    function MismatchError(): CryptoError {
      match this
      case PublicKeys => InvalidPublicKey
      case SecretKeys => InvalidSecretKey
      case Signatures => InvalidSignature
    }
  }

  function SizeOf(env: Env, table: SizeTable, scheme: SignatureSchemeId): Option<u32> {
    match (table, scheme)
    case (PublicKeys, Dilithium2) => Some(env.dilithium.publicKey)
    case (PublicKeys, Falcon512) => Some(env.falcon.publicKey)
    case (SecretKeys, Dilithium2) => Some(env.dilithium.secretKey)
    case (SecretKeys, Falcon512) => Some(env.falcon.secretKey)
    case (Signatures, Dilithium2) => Some(env.dilithium.signature)
    case (Signatures, Falcon512) => Some(env.falcon.signature)
    case (_, Unknown(_)) => None
  }

  function ValidateSize(env: Env, table: SizeTable, scheme: SignatureSchemeId, len: nat): Outcome<CryptoError> {
    match SizeOf(env, table, scheme)
    case Some(expected) =>
      if (!table.AllowsShorter() && expected == len) || (table.AllowsShorter() && len <= expected) then Pass
      else Fail(table.MismatchError())
    case None => Fail(UnsupportedScheme)
  }

  /** A scheme tag with its payload: the common shape of PublicKey, PrivateKey and Signature. */
  datatype Tagged = Tagged(scheme: SignatureSchemeId, bytes: Bytes)

  function Encode(env: Env, table: SizeTable, t: Tagged): Result<Bytes, CryptoError> {
    match ValidateSize(env, table, t.scheme, |t.bytes|)
    case Fail(e) => Err(e)
    case Pass => Ok(U16Bytes(SchemeToU16(t.scheme)) + (U32Bytes(|t.bytes|) + t.bytes))
  }

  function Decode(env: Env, table: SizeTable, encoded: Bytes): Result<Tagged, CryptoError> {
    if |encoded| < 6 then Err(table.MismatchError())
    else
      var scheme := SchemeFromU16(U16FromBytes(encoded[..2]));
      var len := U32FromBytes(encoded[2..6]);
      if |encoded| != 6 + len then Err(table.MismatchError())
      else
        match ValidateSize(env, table, scheme, len)
        case Fail(e) => Err(e)
        case Pass => Ok(Tagged(scheme, encoded[6..]))
  }

  /** `encode_with_scheme`, which fills a vector piece by piece. */
  method EncodeWithScheme(env: Env, table: SizeTable, t: Tagged) returns (r: Result<Bytes, CryptoError>)
    ensures r == Encode(env, table, t)
  {
    match ValidateSize(env, table, t.scheme, |t.bytes|) {
      case Fail(e) => return Err(e);
      case Pass =>
    }
    var encoded: Bytes := U16Bytes(SchemeToU16(t.scheme));
    encoded := encoded + U32Bytes(|t.bytes|);
    encoded := encoded + t.bytes;
    Associate(U16Bytes(SchemeToU16(t.scheme)), U32Bytes(|t.bytes|), t.bytes);
    return Ok(encoded);
  }

  lemma DecodeAfterEncode(env: Env, table: SizeTable, t: Tagged)
    requires Encode(env, table, t).Ok?
    ensures Decode(env, table, Encode(env, table, t).value) == Ok(t)
  {
    var encoded := Encode(env, table, t).value;
    U16RoundTrip(SchemeToU16(t.scheme));
    U32RoundTrip(|t.bytes|);
    assert encoded[..2] == U16Bytes(SchemeToU16(t.scheme));
    assert encoded[2..6] == U32Bytes(|t.bytes|);
    assert encoded[6..] == t.bytes;
  }

  lemma EncodeAfterDecode(env: Env, table: SizeTable, encoded: Bytes)
    requires Decode(env, table, encoded).Ok?
    ensures Encode(env, table, Decode(env, table, encoded).value) == Ok(encoded)
  {
    FromLERoundTrip(encoded[..2]);
    FromLERoundTrip(encoded[2..6]);
    assert encoded == encoded[..2] + (encoded[2..6] + encoded[6..]);
  }

  /** The accepted values are exactly the encodable ones, and no two byte strings decode alike. */
  lemma DecodeAcceptsExactlyEncodings(env: Env, table: SizeTable, encoded: Bytes)
    ensures Decode(env, table, encoded).Ok?
       <==> exists t :: Encode(env, table, t) == Ok(encoded)
  {
    if Decode(env, table, encoded).Ok? {
      EncodeAfterDecode(env, table, encoded);
    }
    if t :| Encode(env, table, t) == Ok(encoded) {
      DecodeAfterEncode(env, table, t);
    }
  }

  function PublicKeyFromBytes(env: Env, encoded: Bytes): Result<PublicKey, CryptoError> {
    match Decode(env, PublicKeys, encoded)
    case Ok(t) => Ok(PublicKey(t.scheme, t.bytes))
    case Err(e) => Err(e)
  }

  function SignatureFromBytes(env: Env, encoded: Bytes): Result<Signature, CryptoError> {
    match Decode(env, Signatures, encoded)
    case Ok(t) => Ok(Signature(t.scheme, t.bytes))
    case Err(e) => Err(e)
  }

  // ----- the default registry: Dilithium2 and Falcon512 -----

  predicate Registered(scheme: SignatureSchemeId) {
    scheme.Dilithium2? || scheme.Falcon512?
  }

  /** `registry.get(scheme)` followed by `verify`. */
  predicate Verifies(env: Env, scheme: SignatureSchemeId, key: PublicKey, message: Bytes, sig: Signature) {
    && Registered(scheme)
    && key.scheme == scheme
    && sig.scheme == scheme
    && env.verifyDetached(scheme, key.bytes, message, sig.bytes)
  }

  /** A signature that the library of the key's scheme accepts for this message. */
  predicate Genuine(env: Env, key: PublicKey, message: Bytes, sig: Signature) {
    && (key.scheme == Dilithium2 || key.scheme == Falcon512)
    && sig.scheme == key.scheme
    && env.verifyDetached(key.scheme, key.bytes, message, sig.bytes)
  }

  /** Verifying under a scheme asks for exactly that, of a key of that scheme. */
  lemma VerifiesExactly(env: Env, scheme: SignatureSchemeId, key: PublicKey, message: Bytes, sig: Signature)
    ensures Verifies(env, scheme, key, message, sig) <==> key.scheme == scheme && Genuine(env, key, message, sig)
  {
  }

  /** Six bytes and `len` more: a scheme number and that length, each with its least significant
      byte first. */
  predicate Header(encoded: Bytes, id: u16, len: nat) {
    && |encoded| == 6 + len
    && Weight(encoded[..2], 2) == id
    && Weight(encoded[2..6], 4) == len
  }

  lemma HeaderRead(encoded: Bytes)
    requires |encoded| >= 6
    ensures U16FromBytes(encoded[..2]) == Weight(encoded[..2], 2)
    ensures U32FromBytes(encoded[2..6]) == Weight(encoded[2..6], 4)
  {
    FromLEWeighs(encoded[..2]);
    FromLEWeighs(encoded[2..6]);
  }

  /** Number 1 with the length of a Dilithium2 key, or 2 with that of a Falcon512 key. */
  predicate KeyBytes(env: Env, encoded: Bytes) {
    Header(encoded, 1, env.dilithium.publicKey) || Header(encoded, 2, env.falcon.publicKey)
  }

  /** The same, but a signature may be shorter than the scheme's length. */
  predicate SignatureBytes(env: Env, encoded: Bytes) {
    && |encoded| >= 6
    && var len: nat := |encoded| - 6;
       || (Header(encoded, 1, len) && len <= env.dilithium.signature)
       || (Header(encoded, 2, len) && len <= env.falcon.signature)
  }

  /** What stands behind such a header. */
  function Payload(encoded: Bytes): Bytes
    requires |encoded| >= 6
  {
    encoded[6..]
  }

  /** Which byte strings are keys, and of which scheme. */
  lemma KeyBytesExactly(env: Env, encoded: Bytes)
    ensures PublicKeyFromBytes(env, encoded).Ok? <==> KeyBytes(env, encoded)
    ensures PublicKeyFromBytes(env, encoded).Ok? ==>
      var key := PublicKeyFromBytes(env, encoded).value;
      && key.bytes == Payload(encoded)
      && (key.scheme == Dilithium2 <==> Header(encoded, 1, env.dilithium.publicKey))
      && (key.scheme == Falcon512 <==> Header(encoded, 2, env.falcon.publicKey))
  {
    if |encoded| >= 6 {
      HeaderRead(encoded);
    }
  }

  /** Which are signatures. */
  lemma SignatureBytesExactly(env: Env, encoded: Bytes)
    ensures SignatureFromBytes(env, encoded).Ok? <==> SignatureBytes(env, encoded)
    ensures SignatureFromBytes(env, encoded).Ok? ==>
      var sig := SignatureFromBytes(env, encoded).value;
      && sig.bytes == Payload(encoded)
      && (sig.scheme == Dilithium2 <==> Header(encoded, 1, |encoded| - 6))
      && (sig.scheme == Falcon512 <==> Header(encoded, 2, |encoded| - 6))
  {
    if |encoded| >= 6 {
      HeaderRead(encoded);
    }
  }

  /** The two strings are a key and a signature of one scheme, and its library accepts them. */
  predicate GenuineBytes(env: Env, key: Bytes, message: Bytes, sig: Bytes) {
    && KeyBytes(env, key)
    && SignatureBytes(env, sig)
    && (|| (Header(key, 1, |key| - 6) && Header(sig, 1, |sig| - 6)
            && env.verifyDetached(Dilithium2, Payload(key), message, Payload(sig)))
        || (Header(key, 2, |key| - 6) && Header(sig, 2, |sig| - 6)
            && env.verifyDetached(Falcon512, Payload(key), message, Payload(sig))))
  }

  lemma GenuineBytesExactly(env: Env, key: Bytes, message: Bytes, sig: Bytes)
    ensures GenuineBytes(env, key, message, sig)
       <==> var k, s := PublicKeyFromBytes(env, key), SignatureFromBytes(env, sig);
            k.Ok? && s.Ok? && Verifies(env, k.value.scheme, k.value, message, s.value)
  {
    hide PublicKeyFromBytes, SignatureFromBytes;
    KeyBytesExactly(env, key);
    SignatureBytesExactly(env, sig);
  }

  /** `registry.get(scheme)` followed by `sign`. */
  function Sign(env: Env, scheme: SignatureSchemeId, key: PrivateKey, message: Bytes): Option<Signature> {
    if !Registered(scheme) || key.scheme != scheme then None
    else
      match env.signDetached(scheme, key.bytes, message)
      case Some(bytes) => Some(Signature(scheme, bytes))
      case None => None
  }

  /** The correctness a signature scheme promises for a pair made by its `keygen`: of every message the
      one half makes a signature that is genuine for the other. */
  ghost predicate KeyPair(env: Env, publicKey: PublicKey, privateKey: PrivateKey) {
    && publicKey.scheme == privateKey.scheme
    && forall message: Bytes ::
         var bytes := env.signDetached(privateKey.scheme, privateKey.bytes, message);
         bytes.Some? && Genuine(env, publicKey, message, Signature(privateKey.scheme, bytes.value))
  }

  lemma PairSigns(env: Env, publicKey: PublicKey, privateKey: PrivateKey, message: Bytes)
    requires KeyPair(env, publicKey, privateKey)
    ensures var s := Sign(env, publicKey.scheme, privateKey, message);
      s.Some? && s.value.scheme == publicKey.scheme && Verifies(env, publicKey.scheme, publicKey, message, s.value)
  {
    assert env.signDetached(privateKey.scheme, privateKey.bytes, message).Some?;
  }
}
