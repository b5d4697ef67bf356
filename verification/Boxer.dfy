/** Boxing a message (go/chat/boxer.go:1473-1733). */
module Boxer {
  import opened Wrappers
  import opened BoxerTypes

  datatype Keys = Keys(material: Bytes, generation: nat)
  datatype Pair = Pair(kid: Bytes, secret: Option<Bytes>)

  /** The random nonces, of the sizes the primitives take. */
  datatype Nonces = Nonces(body: Bytes, header: Bytes)

  datatype Info = Info(key: Keys, ephemeralKey: Keys, recipients: seq<Bytes>, version: nat, pair: Pair)

  /** What the sender's services answer: the newest merkle root, the canonical TLF name, the newest keys,
      whether to MAC and for whom, and the device's own encryption secret. */
  datatype Services = Services(root: Option<MerkleRoot>, canonicalName: string, key: Keys, ephemeralKey: Keys,
                               shouldMac: bool, recipients: seq<Bytes>, device: Option<Bytes>)

  function DummyPair(c: Crypto): Pair {
    Pair(c.DummyKid(), Some(c.dummySecret))
  }

  predicate PreBoxCheck(m: Plaintext) {
    if m.body.typ == TypeDeleteHistory then m.header.deleteHistory == Some(m.body.content) else m.header.deleteHistory.None?
  }

  function VersionBody(h: ClientHeader, b: Body): BodyPlaintext {
    if h.messageType == TypePin then BodyV2(b) else BodyV1(b)
  }

  function Seal(c: Crypto, b: BodyPlaintext, nonce: Bytes, key: Bytes): Sealed {
    Sealed(1, c.seal(c.packBody(b), nonce, key), nonce)
  }

  /******* Version 1 *******/

  function SignedV1(h: ClientHeader, bodyHash: Bytes): SignedHeader {
    SignedHeader(h.conv, h.tlfName, h.tlfPublic, h.messageType, h.prev, h.sender, h.senderDevice, h.kbfsCryptKeysUsed,
                 bodyHash, h.outboxInfo, h.outboxID, None, None, None, None)
  }

  function BoxV1(c: Crypto, m: Plaintext, key: Keys, pair: Pair, nonces: Nonces): Result<Boxed> {
    if m.header.merkleRoot.Some? then Err(MerkleRootInV1)
    else if pair.secret.None? then Err(NoSecretKey)
    else
      var body := Seal(c, BodyV1(m.body), nonces.body, key.material);
      var signed := SignedV1(m.header, c.hash(body.e));
      var sig := Signature(c.sign(c.packSigned(signed), pair.secret.value, ChatMBv1), pair.kid);
      var packed := c.packHeader(HeaderV1(signed.(signature := Some(sig))));
      var header := Sealed(1, c.seal(packed, nonces.header, key.material), nonces.header);
      Ok(Boxed(1, None, m.header, header, body, None, key.generation))
  }

  /******* Versions 2 to 4 *******/

  function BodyKey(c: Crypto, ephemeral: bool, key: Keys, ephemeralKey: Keys): Bytes {
    if ephemeral then c.explodingKey(ephemeralKey.material) else c.headerKey(key.material)
  }

  /** The generation of the ephemeral key is filled in. */
  function WithGeneration(h: ClientHeader, generation: nat): ClientHeader {
    if h.ephemeral.Some? then h.(ephemeral := Some(h.ephemeral.value.(generation := generation))) else h
  }

  function SignedV2(h: ClientHeader, bodyHash: Bytes): SignedHeader {
    SignedHeader(h.conv, h.tlfName, h.tlfPublic, h.messageType, h.prev, h.sender, h.senderDevice, h.kbfsCryptKeysUsed,
                 bodyHash, h.outboxInfo, h.outboxID, None, h.merkleRoot, h.ephemeral, h.botUID)
  }

  /** The MACs for all recipients; None when a recipient's KID is not an encryption key. */
  function PairwiseMacs(c: Crypto, secret: Bytes, recipients: seq<Bytes>, hash: Bytes): Option<map<Bytes, Bytes>> {
    if recipients == [] then Some(map[])
    else
      var kid := recipients[|recipients| - 1];
      var rest := PairwiseMacs(c, secret, recipients[..|recipients| - 1], hash);
      if rest.None? || c.importDH(kid).None? then None
      else Some(rest.value[kid := c.mac(c.shared(secret, c.importDH(kid).value), hash)])
  }

  method MakeAllPairwiseMacs(c: Crypto, header: Sealed, recipients: seq<Bytes>, device: Option<Bytes>)
    returns (macs: Result<map<Bytes, Bytes>>)
    ensures macs == AllMacs(c, header, recipients, device)
  {
    var headerHash := HeaderHash(c, header);
    if headerHash.Err? { return Err(headerHash.error); }
    if device.None? { return Err(NoDeviceKey); }
    var table := map[];
    for i := 0 to |recipients|
      invariant PairwiseMacs(c, device.value, recipients[..i], headerHash.value) == Some(table)
    {
      assert recipients[..i + 1][..i] == recipients[..i];
      var point := c.importDH(recipients[i]);
      if point.None? {
        NoMacs(c, device.value, recipients, headerHash.value, i);
        return Err(BadKid);
      }
      table := table[recipients[i] := c.mac(c.shared(device.value, point.value), headerHash.value)];
    }
    assert recipients[..|recipients|] == recipients;
    macs := Ok(table);
  }

  lemma {:induction false} NoMacs(c: Crypto, secret: Bytes, recipients: seq<Bytes>, hash: Bytes, i: nat)
    requires i < |recipients| && c.importDH(recipients[i]).None?
    ensures PairwiseMacs(c, secret, recipients, hash).None?
  {
    if i < |recipients| - 1 { NoMacs(c, secret, recipients[..|recipients| - 1], hash, i); }
  }

  function AllMacs(c: Crypto, header: Sealed, recipients: seq<Bytes>, device: Option<Bytes>): Result<map<Bytes, Bytes>> {
    var hash := HeaderHash(c, header);
    if hash.Err? then Err(hash.error)
    else if device.None? then Err(NoDeviceKey)
    else
      var macs := PairwiseMacs(c, device.value, recipients, hash.value);
      if macs.None? then Err(BadKid) else Ok(macs.value)
  }

  function SealHeader(c: Crypto, h: ClientHeader, body: Sealed, key: Bytes, secret: Bytes, nonce: Bytes): Sealed {
    Sealed(1, c.signSeal(c.packHeader(HeaderV1(SignedV2(h, BodyHash(c, body)))), key, secret, ChatMBv2, nonce), nonce)
  }

  function BoxV2(c: Crypto, m: Plaintext, info: Info, device: Option<Bytes>, nonces: Nonces): Result<Boxed> {
    if m.header.merkleRoot.None? then Err(NoMerkleRoot)
    else if info.pair.secret.None? then Err(NoSecretKey)
    else
      var h := WithGeneration(m.header, info.ephemeralKey.generation);
      var body := Seal(c, VersionBody(h, m.body), nonces.body, BodyKey(c, m.IsEphemeral(), info.key, info.ephemeralKey));
      var header := SealHeader(c, h, body, c.headerKey(info.key.material), info.pair.secret.value, nonces.header);
      var macs := if info.recipients == [] then Ok(h.pairwiseMacs) else AllMacs(c, header, info.recipients, device);
      if macs.Err? then Err(macs.error)
      else Ok(Boxed(info.version, None, h.(pairwiseMacs := macs.value), header, body, Some(info.pair.kid), info.key.generation))
  }

  function Box(c: Crypto, m: Plaintext, info: Info, device: Option<Bytes>, nonces: Nonces): Result<Boxed> {
    if !PreBoxCheck(m) then Err(MalformedDeleteHistory)
    else if info.version == 1 then BoxV1(c, m, info.key, info.pair, nonces)
    else if 2 <= info.version <= 4 then BoxV2(c, m, info, device, nonces)
    else Err(BadVersion)
  }

  /******* Choosing keys and version *******/

  /** Exploding messages go from version 2 to 3, and MAC'd ones from 3 to 4 with the dummy signing key. */
  function GetEncryptionInfo(c: Crypto, m: Plaintext, version: nat, s: Services, pair: Pair): Result<Info> {
    if !m.IsEphemeral() then Ok(Info(s.key, s.ephemeralKey, [], version, pair))
    else
      var v := if version == 2 then 3 else version;
      if !s.shouldMac then Ok(Info(s.key, s.ephemeralKey, [], v, pair))
      else if s.recipients == [] then Err(NoRecipients)
      else Ok(Info(s.key, s.ephemeralKey, s.recipients, if v == 3 then 4 else v, DummyPair(c)))
  }

  function AttachMerkleRoot(m: Plaintext, version: nat, root: Option<MerkleRoot>): Result<Plaintext> {
    if version == 1 then if m.header.merkleRoot.Some? then Err(MerkleRootInV1) else Ok(m)
    else if 2 <= version <= 4 then
      if root.None? then Err(NoMerkleRoot) else Ok(m.(header := m.header.(merkleRoot := root)))
    else Err(BadVersion)
  }

  function Canonical(m: Plaintext, name: string): Plaintext {
    m.(header := m.header.(tlfName := name))
  }

  /** BoxMessage with no prepared encryption info; `version` is the configured version. */
  function BoxMessage(c: Crypto, m: Plaintext, version: nat, s: Services, pair: Pair, nonces: Nonces): Result<Boxed> {
    if m.header.tlfName == "" then Err(BlankTlfName)
    else if m.IsEphemeral() && version == 1 then Err(ExplodingV1)
    else
      var rooted := AttachMerkleRoot(m, version, s.root);
      if rooted.Err? then Err(rooted.error)
      else
        var info := GetEncryptionInfo(c, rooted.value, version, s, pair);
        if info.Err? then Err(info.error)
        else if s.canonicalName == "" then Err(BlankTlfName)
        else Box(c, Canonical(rooted.value, s.canonicalName), info.value, s.device, nonces)
  }
}

/** Unboxing a message (go/chat/boxer.go:324-405, 484-519, 573-730, 744-804, 846-1194, 1958-2158, 2196-2250). */
module Unboxer {
  import opened Wrappers
  import opened BoxerTypes
  import opened Boxer

  datatype KeyCheck = LoadError | Checked(found: bool, revokedAt: Option<int>, deleted: bool)

  /** The receiver: whether sender keys are checked now (full mode), what is known of users' keys and devices,
      its own device's encryption secret, and the clock. */
  datatype Receiver = Receiver(full: bool, keyCheck: (Bytes, Bytes) -> KeyCheck, deviceKid: (Bytes, Bytes) -> Option<Bytes>,
                               device: Option<Bytes>, now: int)

  function ValidSenderKey(k: KeyCheck, ctime: int): Result<Option<int>> {
    if k.LoadError? then Err(LoadFailed)
    else if !k.found then Err(KeyNotFound)
    else if k.deleted then Ok(Some(0))
    else if k.revokedAt.None? then Ok(None)
    else if k.revokedAt.value == 0 then Err(ZeroRevocation)
    else if k.revokedAt.value > ctime then Ok(k.revokedAt)
    else Err(KeyInvalidAtCtime)
  }

  /** The sender key check that the mode asks for. */
  function CheckSender(r: Receiver, sender: Bytes, key: Bytes, ctime: int): Result<Option<int>> {
    if r.full then ValidSenderKey(r.keyCheck(sender, key), ctime) else Ok(None)
  }

  function Open(c: Crypto, s: Sealed, key: Bytes): Result<Bytes> {
    if |s.n| != BodyNonceSize then Err(BadNonce)
    else
      var p := c.open(s.e, s.n, key);
      if p.None? then Err(OpenFailed) else Ok(p.value)
  }

  function OpenBody(c: Crypto, s: Sealed, key: Bytes): Result<BodyPlaintext> {
    var p := Open(c, s, key);
    if p.Err? then Err(p.error)
    else
      var b := c.unpackBody(p.value);
      if b.None? then Err(Unmarshal) else Ok(b.value)
  }

  function Rtime(s: ServerHeader, now: int): int {
    if s.rtime.Some? then s.rtime.value else now
  }

  /** The comparisons that both header versions share, in order. */
  function CompareCommon(h: ClientHeader, v: Verified): Option<Error> {
    if h.conv != v.conv then Some(Mismatch("Conv"))
    else if h.tlfName != v.tlfName then Some(Mismatch("TlfName"))
    else if h.tlfPublic != v.tlfPublic then Some(Mismatch("TlfPublic"))
    else if h.messageType != v.messageType then Some(Mismatch("MessageType"))
    else if h.prev != v.prev then Some(Mismatch("Prev"))
    else if h.sender != v.sender then Some(Mismatch("Sender"))
    else if h.senderDevice != v.senderDevice then Some(Mismatch("SenderDevice"))
    else None
  }

  /** MsgEphemeralMetadata.Eq compares the ExplodedBy pointers, which only two nils pass. */
  predicate EphemeralEq(a: Option<Ephemeral>, b: Option<Ephemeral>) {
    if a.Some? && b.Some? then
      a.value.lifetime == b.value.lifetime && a.value.generation == b.value.generation && a.value.explodedBy.None? && b.value.explodedBy.None?
    else a.None? && b.None?
  }

  /** compareHeadersMBV2orV3 */
  function CompareHeaders(h: ClientHeader, v: Verified, version: nat): Option<Error> {
    if CompareCommon(h, v).Some? then CompareCommon(h, v)
    else if h.merkleRoot != v.merkleRoot then Some(Mismatch("MerkleRoot"))
    else if v.merkleRoot.None? then Some(NoMerkleRoot)
    else if h.outboxID != v.outboxID then Some(Mismatch("OutboxID"))
    else if h.outboxInfo != v.outboxInfo then Some(Mismatch("OutboxInfo"))
    else if version > 2 && !EphemeralEq(h.ephemeral, v.ephemeral) then Some(Mismatch("EphemeralMetadata"))
    else if version > 2 && h.botUID != v.botUID then Some(Mismatch("BotUID"))
    else None
  }

  /******* Version 1 *******/

  function VerifiedV1(h: SignedHeader, rtime: int): Verified {
    Verified(h.conv, h.tlfName, h.tlfPublic, h.messageType, h.prev, h.sender, h.senderDevice, h.kbfsCryptKeysUsed,
             None, h.outboxID, h.outboxInfo, None, rtime, false, None)
  }

  function OpenHeaderV1(c: Crypto, boxed: Boxed, key: Keys): Result<SignedHeader> {
    var p := Open(c, boxed.header, key.material);
    if p.Err? then Err(p.error)
    else
      var h := c.unpackHeader(p.value);
      if h.None? then Err(Unmarshal) else if h.value.HeaderOther? then Err(UnsupportedHeader) else Ok(h.value.v1)
  }

  /** verifyMessageHeaderV1; a header without a signature makes the source fail, here with BadSignature. */
  function VerifyV1(c: Crypto, boxed: Boxed, h: SignedHeader, r: Receiver, ctime: int): Result<Option<int>> {
    if boxed.body.e != [] && c.hash(boxed.body.e) != h.bodyHash then Err(BodyHashInvalid)
    else if h.signature.None? then Err(BadSignature)
    else
      var revoked := CheckSender(r, h.sender, h.signature.value.kid, ctime);
      if revoked.Err? then revoked
      else if !c.verify(c.packSigned(h.(signature := None)), h.signature.value.sig, h.signature.value.kid, ChatMBv1) then Err(BadSignature)
      else revoked
  }

  /** The body of a version 1 message; a deleted body is left blank. */
  function BodyOfV1(c: Crypto, boxed: Boxed, key: Keys): Result<Option<BodyPlaintext>> {
    if boxed.body.e == [] then Ok(None)
    else
      var b := OpenBody(c, boxed.body, key.material);
      if b.Err? then Err(b.error) else Ok(Some(b.value))
  }

  function UnboxV1(c: Crypto, boxed: Boxed, key: Keys, r: Receiver): Result<Unboxed> {
    if boxed.server.None? then Err(NoServerHeader)
    else if boxed.verifyKey.Some? && boxed.verifyKey.value != [] then Err(VerifyKeyInV1)
    else
      var body := BodyOfV1(c, boxed, key);
      if body.Err? then Err(body.error)
      else
        var header := OpenHeaderV1(c, boxed, key);
        if header.Err? then Err(header.error)
        else
          var h, s := header.value, boxed.server.value;
          var revoked := VerifyV1(c, boxed, h, r, s.ctime);
          if revoked.Err? then Err(revoked.error)
          else
            var v := VerifiedV1(h, Rtime(s, r.now));
            if h.sender != boxed.client.sender then Err(Mismatch("Sender"))
            else if h.senderDevice != boxed.client.senderDevice then Err(Mismatch("SenderDevice"))
            else if body.value.Some? && !body.value.value.BodyV1? then Err(UnsupportedBody)
            else if CompareCommon(boxed.client, v).Some? then Err(CompareCommon(boxed.client, v).value)
            else Ok(Unboxed(v, s, if body.value.Some? then body.value.value.body else Body(TypeNone, 0), h.bodyHash,
                            c.hash(boxed.header.e), h.signature, h.signature.value.kid, revoked.value))
  }

  /******* Versions 2 to 4 *******/

  /** validatePairwiseMAC: the MAC meant for this device, checked against the sender device's encryption key. */
  function ValidatePairwiseMac(c: Crypto, boxed: Boxed, hash: Bytes, r: Receiver): Result<Bytes> {
    if r.device.None? then Err(NoDeviceKey)
    else if c.dhKid(r.device.value) !in boxed.client.pairwiseMacs then Err(NotAuthenticatedForThisDevice)
    else
      var senderKid := r.deviceKid(boxed.client.sender, boxed.client.senderDevice);
      if senderKid.None? then Err(NoSenderDeviceKey)
      else if c.importDH(senderKid.value).None? then Err(BadKid)
      else if boxed.client.pairwiseMacs[c.dhKid(r.device.value)] != c.mac(c.shared(r.device.value, c.importDH(senderKid.value).value), hash) then Err(InvalidMac)
      else Ok(senderKid.value)
  }

  /** The key to hold the sender to: the signing key, or the device's encryption key when there are MACs. */
  function SenderKey(c: Crypto, boxed: Boxed, hash: Bytes, r: Receiver): Result<Bytes> {
    if boxed.verifyKey.None? then Err(NoVerifyKey)
    else if boxed.client.pairwiseMacs != map[] then
      if boxed.version != 3 && boxed.verifyKey.value != c.DummyKid() then Err(ExpectedDummyKey)
      else ValidatePairwiseMac(c, boxed, hash, r)
    else if boxed.verifyKey.value == c.DummyKid() then Err(UnexpectedDummyKey)
    else Ok(boxed.verifyKey.value)
  }

  function SignOpen(c: Crypto, s: Sealed, key: Bytes, verifyKey: Bytes): Result<Bytes> {
    if !c.isVerifyKey(verifyKey) then Err(BadKid)
    else if |s.n| < HeaderNonceSize then Err(BadNonce)
    else
      var p := c.signOpen(s.e, key, verifyKey, ChatMBv2, s.n[..HeaderNonceSize]);
      if p.None? then Err(OpenFailed) else Ok(p.value)
  }

  function OpenHeaderV2(c: Crypto, s: Sealed, key: Bytes, verifyKey: Bytes): Result<SignedHeader> {
    var p := SignOpen(c, s, key, verifyKey);
    if p.Err? then Err(p.error)
    else
      var h := c.unpackHeader(p.value);
      if h.None? then Err(Unmarshal)
      else if h.value.HeaderOther? then Err(UnsupportedHeader)
      else if h.value.v1.signature.Some? then Err(SignatureInV2)
      else Ok(h.value.v1)
  }

  function VerifiedV2(h: SignedHeader, rtime: int, macs: bool): Verified {
    Verified(h.conv, h.tlfName, h.tlfPublic, h.messageType, h.prev, h.sender, h.senderDevice, h.kbfsCryptKeysUsed,
             h.merkleRoot, h.outboxID, h.outboxInfo, h.ephemeral, rtime, macs, h.botUID)
  }

  /** The body ciphertext must have the signed hash. */
  predicate BodyHashMatches(c: Crypto, body: Sealed, signed: Bytes) {
    signed != [] && BodyHash(c, body) == signed
  }

  function BodyOfV2(c: Crypto, s: Sealed, key: Bytes): Result<Body> {
    if s.e == [] then Ok(Body(TypeNone, 0))
    else
      var b := OpenBody(c, s, key);
      if b.Err? then Err(b.error) else if b.value.BodyOther? then Err(UnsupportedBody) else Ok(b.value.body)
  }

  /** Everything after the sender key has been settled. */
  function UnboxSigned(c: Crypto, boxed: Boxed, s: ServerHeader, key: Keys, ephemeralKey: Keys, now: int,
                       hash: Bytes, senderKey: Bytes, verifyKey: Bytes, revoked: Option<int>): Result<Unboxed> {
    var header := OpenHeaderV2(c, boxed.header, c.headerKey(key.material), verifyKey);
    if header.Err? then Err(header.error)
    else
      var h := header.value;
      var v := VerifiedV2(h, Rtime(s, now), boxed.client.pairwiseMacs != map[]);
      if boxed.body.e != [] && !BodyHashMatches(c, boxed.body, h.bodyHash) then Err(BodyHashInvalid)
      else if CompareHeaders(boxed.client, v, boxed.version).Some? then Err(CompareHeaders(boxed.client, v, boxed.version).value)
      else
        var body := BodyOfV2(c, boxed.body, BodyKey(c, boxed.IsEphemeral(), key, ephemeralKey));
        if body.Err? then Err(body.error)
        else Ok(Unboxed(v, s, body.value, h.bodyHash, hash, None, senderKey, revoked))
  }

  function UnboxV2(c: Crypto, boxed: Boxed, key: Keys, ephemeralKey: Keys, r: Receiver): Result<Unboxed> {
    if boxed.server.None? then Err(NoServerHeader)
    else
      var hash := HeaderHash(c, boxed.header);
      if hash.Err? then Err(hash.error)
      else
        var senderKey := SenderKey(c, boxed, hash.value, r);
        if senderKey.Err? then Err(senderKey.error)
        else
          var revoked := CheckSender(r, boxed.client.sender, senderKey.value, boxed.server.value.ctime);
          if revoked.Err? then Err(revoked.error)
          else UnboxSigned(c, boxed, boxed.server.value, key, ephemeralKey, r.now, hash.value, senderKey.value,
                           boxed.verifyKey.value, revoked.value)
  }

  function Unbox(c: Crypto, boxed: Boxed, key: Keys, ephemeralKey: Keys, r: Receiver): Result<Unboxed> {
    if boxed.version <= 1 then UnboxV1(c, boxed, key, r)
    else if boxed.version <= 4 then UnboxV2(c, boxed, key, ephemeralKey, r)
    else Err(BadVersion)
  }
}
