/** Messages, boxed messages and symbolic cryptography for the boxer (go/chat/boxer.go). */
module BoxerTypes {
  import opened Wrappers

  type Byte = x: int | 0 <= x < 256
  type Bytes = seq<Byte>

  datatype Result<+T> = Ok(value: T) | Err(error: Error)

  datatype Error =
    | BlankTlfName | NoMerkleRoot | MerkleRootInV1 | BadVersion | ExplodingV1 | MalformedDeleteHistory
    | NoSecretKey | NoDeviceKey | BadKid | NoRecipients
    | NoServerHeader | VerifyKeyInV1 | NoVerifyKey | ExpectedDummyKey | UnexpectedDummyKey
    | NotAuthenticatedForThisDevice | NoSenderDeviceKey | InvalidMac
    | KeyNotFound | KeyInvalidAtCtime | ZeroRevocation | LoadFailed
    | OpenFailed | BadNonce | Unmarshal | UnsupportedHeader | UnsupportedBody | BodyHashInvalid | BadSignature
    | SignatureInV2 | Mismatch(field: string)
    | Unavailable | VisibilityMismatch | ConvIDMismatch | TypeMismatch | Replay | Inconsistent

  /******* Messages *******/

  const TypeNone := 0
  const TypeDeleteHistory := 12
  const TypePin := 18

  datatype Triple = Triple(tlfid: Bytes, topicID: Bytes, topicType: nat)
  datatype PrevPointer = PrevPointer(id: nat, hash: Bytes)
  datatype MerkleRoot = MerkleRoot(seqno: nat, hash: Bytes)
  datatype OutboxInfo = OutboxInfo(prev: nat, composeTime: int)

  /** ExplodedBy is a pointer in the source, and two decoded pointers are never equal. */
  datatype Ephemeral = Ephemeral(lifetime: nat, generation: nat, explodedBy: Option<string>)

  /** For a delete-history message the content is the MessageDeleteHistory itself. */
  datatype Body = Body(typ: nat, content: nat)
  {
    predicate IsNil() { this == Body(TypeNone, 0) }
  }

  datatype ClientHeader = ClientHeader(
    conv: Triple, tlfName: string, tlfPublic: bool, messageType: nat, supersedes: nat, deletes: seq<nat>,
    prev: seq<PrevPointer>, deleteHistory: Option<nat>, sender: Bytes, senderDevice: Bytes,
    kbfsCryptKeysUsed: Option<bool>, merkleRoot: Option<MerkleRoot>, outboxID: Option<Bytes>,
    outboxInfo: Option<OutboxInfo>, ephemeral: Option<Ephemeral>, pairwiseMacs: map<Bytes, Bytes>, botUID: Option<Bytes>)

  datatype Plaintext = Plaintext(header: ClientHeader, body: Body)
  {
    predicate IsEphemeral() { header.ephemeral.Some? }
  }

  datatype Signature = Signature(sig: Bytes, kid: Bytes)

  /** HeaderPlaintextV1: what is signed. */
  datatype SignedHeader = SignedHeader(
    conv: Triple, tlfName: string, tlfPublic: bool, messageType: nat, prev: seq<PrevPointer>, sender: Bytes,
    senderDevice: Bytes, kbfsCryptKeysUsed: Option<bool>, bodyHash: Bytes, outboxInfo: Option<OutboxInfo>,
    outboxID: Option<Bytes>, signature: Option<Signature>, merkleRoot: Option<MerkleRoot>,
    ephemeral: Option<Ephemeral>, botUID: Option<Bytes>)

  datatype HeaderPlaintext = HeaderV1(v1: SignedHeader) | HeaderOther(version: nat)
  datatype BodyPlaintext = BodyV1(body: Body) | BodyV2(body: Body) | BodyOther(version: nat)

  /** EncryptedData, SealedData and SignEncryptedData alike. */
  datatype Sealed = Sealed(v: int, e: Bytes, n: Bytes)

  datatype ServerHeader = ServerHeader(messageID: nat, ctime: int, rtime: Option<int>)

  datatype Boxed = Boxed(version: nat, server: Option<ServerHeader>, client: ClientHeader, header: Sealed, body: Sealed,
                         verifyKey: Option<Bytes>, keyGeneration: nat)
  {
    predicate IsEphemeral() { client.ephemeral.Some? }
  }

  /** MessageClientHeaderVerified. */
  datatype Verified = Verified(
    conv: Triple, tlfName: string, tlfPublic: bool, messageType: nat, prev: seq<PrevPointer>, sender: Bytes,
    senderDevice: Bytes, kbfsCryptKeysUsed: Option<bool>, merkleRoot: Option<MerkleRoot>, outboxID: Option<Bytes>,
    outboxInfo: Option<OutboxInfo>, ephemeral: Option<Ephemeral>, rtime: int, hasPairwiseMacs: bool, botUID: Option<Bytes>)

  datatype Unboxed = Unboxed(header: Verified, server: ServerHeader, body: Body, bodyHash: Bytes, headerHash: Bytes,
                             signature: Option<Signature>, verificationKey: Bytes, revokedAt: Option<int>)

  /******* Cryptography *******/

  datatype Prefix = ChatMBv1 | ChatMBv2

  const BodyNonceSize := 24
  const HeaderNonceSize := 16

  /** The primitives as functions of their inputs and of the nonce. */
  datatype Crypto = Crypto(
    hash: Bytes -> Bytes,
    seal: (Bytes, Bytes, Bytes) -> Bytes,                             // plaintext, nonce, key
    open: (Bytes, Bytes, Bytes) -> Option<Bytes>,
    signSeal: (Bytes, Bytes, Bytes, Prefix, Bytes) -> Bytes,          // plaintext, key, signing secret, prefix, nonce
    signOpen: (Bytes, Bytes, Bytes, Prefix, Bytes) -> Option<Bytes>,  // ciphertext, key, verify key, prefix, nonce
    sign: (Bytes, Bytes, Prefix) -> Bytes,                            // data, signing secret, prefix
    verify: (Bytes, Bytes, Bytes, Prefix) -> bool,                    // data, signature, verify key, prefix
    publicKey: Bytes -> Bytes,                                        // of a signing secret
    isVerifyKey: Bytes -> bool,
    dhKid: Bytes -> Bytes,                                            // of a device's encryption secret
    importDH: Bytes -> Option<Bytes>,                                 // the public point of a KID
    shared: (Bytes, Bytes) -> Bytes,                                  // own secret, other's public point
    mac: (Bytes, Bytes) -> Bytes,                                     // shared secret, input
    headerKey: Bytes -> Bytes,
    explodingKey: Bytes -> Bytes,
    dummySecret: Bytes,
    packBody: BodyPlaintext -> Bytes,
    unpackBody: Bytes -> Option<BodyPlaintext>,
    packHeader: HeaderPlaintext -> Bytes,
    unpackHeader: Bytes -> Option<HeaderPlaintext>,
    packSigned: SignedHeader -> Bytes)
  {
    function DummyKid(): Bytes { publicKey(dummySecret) }
  }

  ghost predicate SealLaw(c: Crypto) {
    forall m, n, k :: c.open(c.seal(m, n, k), n, k) == Some(m) && c.seal(m, n, k) != []
  }

  ghost predicate SignSealLaw(c: Crypto) {
    forall m, k, s, p, n :: c.signOpen(c.signSeal(m, k, s, p, n), k, c.publicKey(s), p, n) == Some(m)
  }

  ghost predicate SignLaw(c: Crypto) {
    && (forall m, s, p :: c.verify(m, c.sign(m, s, p), c.publicKey(s), p))
    && (forall s :: c.isVerifyKey(c.publicKey(s)))
  }

  /** The public point of a device's KID gives both ends the same secret. */
  ghost predicate SharedLaw(c: Crypto) {
    && (forall a :: c.importDH(c.dhKid(a)).Some?)
    && (forall a, b :: c.shared(a, c.importDH(c.dhKid(b)).value) == c.shared(b, c.importDH(c.dhKid(a)).value))
  }

  ghost predicate PackLaw(c: Crypto) {
    && (forall b :: c.unpackBody(c.packBody(b)) == Some(b))
    && (forall h :: c.unpackHeader(c.packHeader(h)) == Some(h))
  }

  ghost predicate HashLaw(c: Crypto) {
    forall m :: c.hash(m) != []
  }

  ghost predicate Laws(c: Crypto) {
    SealLaw(c) && SignSealLaw(c) && SignLaw(c) && SharedLaw(c) && PackLaw(c) && HashLaw(c)
  }

  /******* Hash preimages *******/

  /** A version number as four bytes, most significant first (two's complement). */
  function Word(v: int): (r: Bytes)
    ensures |r| == 4
  {
    var u := v % 0x1_0000_0000;
    var q := u / 256;
    var p := q / 256;
    [p / 256, p % 256, q % 256, u % 256]
  }

  /** makeHeaderHash */
  function HeaderHash(c: Crypto, s: Sealed): Result<Bytes> {
    if |s.n| != HeaderNonceSize then Err(BadNonce) else Ok(c.hash(Word(s.v) + s.n + s.e))
  }

  /** makeBodyHash */
  function BodyHash(c: Crypto, s: Sealed): Bytes {
    c.hash(Word(s.v) + s.n + s.e)
  }
}
