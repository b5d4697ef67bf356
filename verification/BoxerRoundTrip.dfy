/** Unboxing undoes boxing, exactly when the receiver's checks are met (go/chat/boxer.go:573-1021, 1473-1733). */
module BoxerRoundTrip {
  import opened Wrappers
  import opened BoxerTypes
  import opened Boxer
  import opened Unboxer

  predicate PairOK(c: Crypto, pair: Pair) {
    pair.secret.Some? ==> pair.kid == c.publicKey(pair.secret.value)
  }

  /** As the server passes the message on. */
  function Delivered(b: Boxed, s: ServerHeader): Boxed {
    b.(server := Some(s))
  }

  /** The verified header has the fields of the client header that a signature covers in every version. */
  predicate CarriesCommon(v: Verified, h: ClientHeader) {
    && v.conv == h.conv && v.tlfName == h.tlfName && v.tlfPublic == h.tlfPublic && v.messageType == h.messageType
    && v.prev == h.prev && v.sender == h.sender && v.senderDevice == h.senderDevice
    && v.kbfsCryptKeysUsed == h.kbfsCryptKeysUsed && v.outboxID == h.outboxID && v.outboxInfo == h.outboxInfo
  }

  predicate Carries(v: Verified, h: ClientHeader) {
    CarriesCommon(v, h) && v.merkleRoot == h.merkleRoot && v.ephemeral == h.ephemeral && v.botUID == h.botUID
  }

  /******* Keys that hold *******/

  /** The key was the sender's when the message was made: it is listed, and its owner is deleted, or it was never
      revoked, or only at a known later time. */
  predicate KeyHolds(k: KeyCheck, ctime: int) {
    k.Checked? && k.found && (k.deleted || k.revokedAt.None? || (k.revokedAt.value != 0 && ctime < k.revokedAt.value))
  }

  /** In full mode the receiver asks for that. */
  predicate SenderHolds(r: Receiver, sender: Bytes, key: Bytes, ctime: int) {
    r.full ==> KeyHolds(r.keyCheck(sender, key), ctime)
  }

  /** The revocation that an accepted message is marked with; a deleted owner counts as revoked since time 0. */
  function Revocation(r: Receiver, sender: Bytes, key: Bytes): Option<int> {
    if !r.full || r.keyCheck(sender, key).LoadError? then None
    else if r.keyCheck(sender, key).deleted then Some(0)
    else r.keyCheck(sender, key).revokedAt
  }

  lemma ValidSenderKeyIff(k: KeyCheck, ctime: int)
    ensures ValidSenderKey(k, ctime).Ok? <==> KeyHolds(k, ctime)
    ensures KeyHolds(k, ctime) ==> ValidSenderKey(k, ctime).value == if k.deleted then Some(0) else k.revokedAt
    ensures k.LoadError? ==> ValidSenderKey(k, ctime) == Err(LoadFailed)
    ensures k.Checked? && !k.found ==> ValidSenderKey(k, ctime) == Err(KeyNotFound)
  {
  }

  lemma CheckSenderIff(r: Receiver, sender: Bytes, key: Bytes, ctime: int)
    ensures CheckSender(r, sender, key, ctime).Ok? <==> SenderHolds(r, sender, key, ctime)
    ensures CheckSender(r, sender, key, ctime).Ok? ==> CheckSender(r, sender, key, ctime).value == Revocation(r, sender, key)
  {
    ValidSenderKeyIff(r.keyCheck(sender, key), ctime);
    hide ValidSenderKey;
  }

  /******* The parts *******/

  lemma {:induction false} MacsAre(c: Crypto, secret: Bytes, recipients: seq<Bytes>, hash: Bytes, kid: Bytes)
    requires PairwiseMacs(c, secret, recipients, hash).Some?
    ensures var macs := PairwiseMacs(c, secret, recipients, hash).value;
      && (kid in macs <==> kid in recipients)
      && (kid in macs ==> c.importDH(kid).Some? && macs[kid] == c.mac(c.shared(secret, c.importDH(kid).value), hash))
  {
    if recipients != [] {
      MacsAre(c, secret, recipients[..|recipients| - 1], hash, kid);
      assert recipients == recipients[..|recipients| - 1] + [recipients[|recipients| - 1]];
    }
  }

  lemma HeaderOpens(c: Crypto, h: ClientHeader, body: Sealed, key: Bytes, secret: Bytes, nonce: Bytes)
    requires Laws(c) && |nonce| == HeaderNonceSize
    ensures OpenHeaderV2(c, SealHeader(c, h, body, key, secret, nonce), key, c.publicKey(secret)) == Ok(SignedV2(h, BodyHash(c, body)))
  {
    assert nonce[..HeaderNonceSize] == nonce;
  }

  lemma BodyOpens(c: Crypto, b: BodyPlaintext, nonce: Bytes, key: Bytes)
    requires Laws(c) && |nonce| == BodyNonceSize
    ensures OpenBody(c, Seal(c, b, nonce, key), key) == Ok(b)
    ensures Seal(c, b, nonce, key).e != []
    ensures !b.BodyOther? ==> BodyOfV2(c, Seal(c, b, nonce, key), key) == Ok(b.body)
  {
  }

  predicate NotExploded(h: ClientHeader) {
    h.ephemeral.Some? ==> h.ephemeral.value.explodedBy.None?
  }

  /** The signed header agrees with the one sent along, unless it names who exploded the message. */
  lemma HeadersCompare(h: ClientHeader, macs: map<Bytes, Bytes>, hash: Bytes, rtime: int, hasMacs: bool, version: nat)
    requires h.merkleRoot.Some?
    ensures var v := VerifiedV2(SignedV2(h, hash), rtime, hasMacs);
      && Carries(v, h)
      && (CompareHeaders(h.(pairwiseMacs := macs), v, version).None? <==> version <= 2 || NotExploded(h))
  {
  }

  /** The MAC table authenticates this device against the sender's device key as the receiver knows it. */
  predicate MacsReady(c: Crypto, h: ClientHeader, version: nat, kid: Bytes, hash: Bytes, r: Receiver) {
    && (version == 3 || kid == c.DummyKid())
    && r.device.Some? && c.dhKid(r.device.value) in h.pairwiseMacs
    && var k := r.deviceKid(h.sender, h.senderDevice);
    && k.Some? && c.importDH(k.value).Some?
    && h.pairwiseMacs[c.dhKid(r.device.value)] == c.mac(c.shared(r.device.value, c.importDH(k.value).value), hash)
  }

  /** Who the receiver takes the sender to be, and whether it accepts that: MACs made for recipients, MACs the
      plaintext came with, or none. */
  predicate SenderReady(c: Crypto, h: ClientHeader, info: Info, hash: Bytes, r: Receiver) {
    if info.recipients != [] then
      && (info.version == 3 || info.pair.kid == c.DummyKid())
      && r.device.Some? && c.dhKid(r.device.value) in info.recipients
    else if h.pairwiseMacs != map[] then MacsReady(c, h, info.version, info.pair.kid, hash, r)
    else info.pair.kid != c.DummyKid()
  }

  /** The key that the sender is held to. */
  function HeldTo(c: Crypto, h: ClientHeader, info: Info, device: Option<Bytes>, r: Receiver): Bytes {
    if info.recipients != [] && device.Some? then c.dhKid(device.value)
    else if h.pairwiseMacs != map[] && r.deviceKid(h.sender, h.senderDevice).Some? then r.deviceKid(h.sender, h.senderDevice).value
    else info.pair.kid
  }

  /** The receiver has the sender's device key right. */
  predicate KnowsDevice(c: Crypto, h: ClientHeader, device: Option<Bytes>, r: Receiver) {
    device.Some? && r.deviceKid(h.sender, h.senderDevice) == Some(c.dhKid(device.value))
  }

  /** The header hash of a boxed message. */
  function HashOf(c: Crypto, b: Boxed): Bytes {
    if HeaderHash(c, b.header).Ok? then HeaderHash(c, b.header).value else []
  }

  lemma SenderKeyIff(c: Crypto, m: Plaintext, info: Info, device: Option<Bytes>, nonces: Nonces, s: ServerHeader, r: Receiver)
    requires Laws(c) && BoxV2(c, m, info, device, nonces).Ok? && |nonces.header| == HeaderNonceSize
    requires info.recipients != [] ==> KnowsDevice(c, m.header, device, r)
    ensures var boxed := Delivered(BoxV2(c, m, info, device, nonces).value, s);
      var hash := HeaderHash(c, boxed.header);
      && hash.Ok? && hash.value == HashOf(c, boxed)
      && (boxed.client.pairwiseMacs == map[] <==> info.recipients == [] && m.header.pairwiseMacs == map[])
      && (SenderKey(c, boxed, hash.value, r).Ok? <==> SenderReady(c, m.header, info, hash.value, r))
      && (SenderKey(c, boxed, hash.value, r).Ok? ==> SenderKey(c, boxed, hash.value, r).value == HeldTo(c, m.header, info, device, r))
  {
    hide PairwiseMacs, Seal, VersionBody, BodyKey, SignedV2;
    if info.recipients != [] {
      var boxed := Delivered(BoxV2(c, m, info, device, nonces).value, s);
      var hash := HeaderHash(c, boxed.header).value;
      assert boxed.client.pairwiseMacs == PairwiseMacs(c, device.value, info.recipients, hash).value;
      MacsAre(c, device.value, info.recipients, hash, info.recipients[0]);
      if r.device.Some? { MacsAre(c, device.value, info.recipients, hash, c.dhKid(r.device.value)); }
    }
  }

  /** Everything a receiver with the right keys asks of a boxed message in versions 2 to 4. */
  predicate AcceptsV2(c: Crypto, m: Plaintext, info: Info, device: Option<Bytes>, hash: Bytes, s: ServerHeader, r: Receiver) {
    && SenderReady(c, m.header, info, hash, r)
    && SenderHolds(r, m.header.sender, HeldTo(c, m.header, info, device, r), s.ctime)
    && (info.version <= 2 || NotExploded(m.header))
  }

  lemma SignedOpens(c: Crypto, m: Plaintext, info: Info, device: Option<Bytes>, nonces: Nonces, s: ServerHeader, now: int,
                    hash: Bytes, senderKey: Bytes, revoked: Option<int>)
    requires Laws(c) && BoxV2(c, m, info, device, nonces).Ok? && PairOK(c, info.pair)
    requires |nonces.header| == HeaderNonceSize && |nonces.body| == BodyNonceSize
    ensures var boxed := Delivered(BoxV2(c, m, info, device, nonces).value, s);
      var r := UnboxSigned(c, boxed, s, info.key, info.ephemeralKey, now, hash, senderKey, info.pair.kid, revoked);
      && (r.Ok? <==> info.version <= 2 || NotExploded(m.header))
      && (r.Ok? ==> && r.value.body == m.body && Carries(r.value.header, WithGeneration(m.header, info.ephemeralKey.generation))
                    && r.value.header.rtime == (if s.rtime.Some? then s.rtime.value else now)
                    && r.value.header.hasPairwiseMacs == (boxed.client.pairwiseMacs != map[])
                    && r.value.bodyHash == BodyHash(c, boxed.body) && r.value.headerHash == hash
                    && r.value.verificationKey == senderKey && r.value.revokedAt == revoked && r.value.server == s && r.value.signature.None?)
  {
    var h := WithGeneration(m.header, info.ephemeralKey.generation);
    var boxed := Delivered(BoxV2(c, m, info, device, nonces).value, s);
    var bodyKey := BodyKey(c, m.IsEphemeral(), info.key, info.ephemeralKey);
    BodyOpens(c, VersionBody(h, m.body), nonces.body, bodyKey);
    HeaderOpens(c, h, boxed.body, c.headerKey(info.key.material), info.pair.secret.value, nonces.header);
    HeadersCompare(h, boxed.client.pairwiseMacs, BodyHash(c, boxed.body), Rtime(s, now), boxed.client.pairwiseMacs != map[], info.version);
    assert BodyHash(c, boxed.body) != [];
    hide Laws, OpenHeaderV2, OpenBody, CompareHeaders, Carries, BodyHash, VerifiedV2, SignedV2, SealHeader, Seal, BodyOfV2, AllMacs;
  }

  lemma SameHash(c: Crypto, b: Boxed, s: ServerHeader)
    ensures HashOf(c, Delivered(b, s)) == HashOf(c, b)
  {
  }

  /** Versions 2 to 4: the round trip. */
  lemma UnboxBoxV2(c: Crypto, m: Plaintext, info: Info, device: Option<Bytes>, nonces: Nonces, s: ServerHeader, r: Receiver)
    requires Laws(c) && BoxV2(c, m, info, device, nonces).Ok? && PairOK(c, info.pair)
    requires |nonces.header| == HeaderNonceSize && |nonces.body| == BodyNonceSize
    requires info.recipients != [] ==> KnowsDevice(c, m.header, device, r)
    ensures var boxed := BoxV2(c, m, info, device, nonces).value;
      var u := UnboxV2(c, Delivered(boxed, s), info.key, info.ephemeralKey, r);
      && (u.Ok? <==> AcceptsV2(c, m, info, device, HashOf(c, boxed), s, r))
      && (u.Ok? ==> && u.value.body == m.body
                    && Carries(u.value.header, WithGeneration(m.header, info.ephemeralKey.generation))
                    && u.value.header.rtime == (if s.rtime.Some? then s.rtime.value else r.now)
                    && u.value.header.hasPairwiseMacs == (info.recipients != [] || m.header.pairwiseMacs != map[])
                    && u.value.verificationKey == HeldTo(c, m.header, info, device, r)
                    && u.value.revokedAt == Revocation(r, m.header.sender, HeldTo(c, m.header, info, device, r))
                    && u.value.server == s && u.value.signature.None?
                    && u.value.bodyHash == BodyHash(c, boxed.body) && u.value.headerHash == HashOf(c, boxed))
  {
    hide Laws, SenderKey, UnboxSigned, Carries, HeaderHash, BoxV2, UnboxV2, SenderReady, HeldTo, HashOf, CheckSender, BodyHash, KnowsDevice, SenderHolds, Revocation;
    var b := BoxV2(c, m, info, device, nonces).value;
    var boxed := Delivered(b, s);
    SenderKeyIff(c, m, info, device, nonces, s, r);
    BoxedShape(c, m, info, device, nonces);
    SameHash(c, b, s);
    UnboxV2Steps(c, boxed, info.key, info.ephemeralKey, r);
    var hash := HeaderHash(c, boxed.header).value;
    var key := HeldTo(c, m.header, info, device, r);
    var revoked := CheckSender(r, m.header.sender, key, s.ctime);
    CheckSenderIff(r, m.header.sender, key, s.ctime);
    if revoked.Ok? { SignedOpens(c, m, info, device, nonces, s, r.now, hash, key, revoked.value); }
  }

  lemma UnboxV2Steps(c: Crypto, boxed: Boxed, key: Keys, ek: Keys, r: Receiver)
    requires boxed.server.Some? && boxed.verifyKey.Some? && HeaderHash(c, boxed.header).Ok?
    ensures var hash, s := HeaderHash(c, boxed.header).value, boxed.server.value;
      var k := SenderKey(c, boxed, hash, r);
      var u := UnboxV2(c, boxed, key, ek, r);
      && (k.Err? ==> u.Err?)
      && (k.Ok? ==>
          var revoked := CheckSender(r, boxed.client.sender, k.value, s.ctime);
          && (revoked.Err? ==> u.Err?)
          && (revoked.Ok? ==> u == UnboxSigned(c, boxed, s, key, ek, r.now, hash, k.value, boxed.verifyKey.value, revoked.value)))
  {
    hide SenderKey, UnboxSigned, HeaderHash, CheckSender;
  }

  lemma BoxedShape(c: Crypto, m: Plaintext, info: Info, device: Option<Bytes>, nonces: Nonces)
    requires BoxV2(c, m, info, device, nonces).Ok?
    ensures var b := BoxV2(c, m, info, device, nonces).value;
      && b.version == info.version && b.keyGeneration == info.key.generation && b.server.None? && b.verifyKey == Some(info.pair.kid)
      && b.client.(pairwiseMacs := map[]) == WithGeneration(m.header, info.ephemeralKey.generation).(pairwiseMacs := map[])
  {
    hide Seal, SealHeader, VersionBody, BodyKey, AllMacs;
  }

  /******* Version 1 *******/

  predicate AcceptsV1(m: Plaintext, pair: Pair, s: ServerHeader, r: Receiver) {
    SenderHolds(r, m.header.sender, pair.kid, s.ctime)
  }

  lemma V1HeaderOpens(c: Crypto, m: Plaintext, key: Keys, pair: Pair, nonces: Nonces, s: ServerHeader, r: Receiver)
    requires Laws(c) && BoxV1(c, m, key, pair, nonces).Ok? && PairOK(c, pair)
    requires |nonces.header| == BodyNonceSize
    ensures var boxed := Delivered(BoxV1(c, m, key, pair, nonces).value, s);
      var h := OpenHeaderV1(c, boxed, key);
      && h.Ok? && h.value.(signature := None) == SignedV1(m.header, c.hash(boxed.body.e))
      && h.value.signature.Some? && h.value.signature.value.kid == pair.kid
      && h.value.signature.value.sig == c.sign(c.packSigned(SignedV1(m.header, c.hash(boxed.body.e))), pair.secret.value, ChatMBv1)
      && VerifyV1(c, boxed, h.value, r, s.ctime) == CheckSender(r, m.header.sender, pair.kid, s.ctime)
  {
    hide Seal;
  }

  /** Version 1: the round trip; it carries neither merkle root nor exploding metadata nor bot. */
  lemma UnboxBoxV1(c: Crypto, m: Plaintext, key: Keys, pair: Pair, nonces: Nonces, s: ServerHeader, r: Receiver)
    requires Laws(c) && BoxV1(c, m, key, pair, nonces).Ok? && PairOK(c, pair)
    requires |nonces.header| == BodyNonceSize && |nonces.body| == BodyNonceSize
    ensures var boxed := BoxV1(c, m, key, pair, nonces).value;
      var u := UnboxV1(c, Delivered(boxed, s), key, r);
      && (u.Ok? <==> AcceptsV1(m, pair, s, r))
      && (u.Ok? ==> && u.value.body == m.body && CarriesCommon(u.value.header, m.header) && u.value.verificationKey == pair.kid
                    && u.value.header.rtime == (if s.rtime.Some? then s.rtime.value else r.now) && !u.value.header.hasPairwiseMacs
                    && u.value.revokedAt == Revocation(r, m.header.sender, pair.kid) && u.value.server == s
                    && u.value.signature.Some? && u.value.signature.value.kid == pair.kid
                    && u.value.header.merkleRoot.None? && u.value.header.ephemeral.None? && u.value.header.botUID.None?
                    && u.value.bodyHash == c.hash(boxed.body.e) && u.value.headerHash == c.hash(boxed.header.e))
  {
    V1HeaderOpens(c, m, key, pair, nonces, s, r);
    BodyOpens(c, BodyV1(m.body), nonces.body, key.material);
    hide Laws, OpenHeaderV1, VerifyV1, OpenBody, Seal, CheckSender, SenderHolds, Revocation;
    CheckSenderIff(r, m.header.sender, pair.kid, s.ctime);
    var boxed := Delivered(BoxV1(c, m, key, pair, nonces).value, s);
    assert BodyOfV1(c, boxed, key) == Ok(Some(BodyV1(m.body)));
    var h := OpenHeaderV1(c, boxed, key).value;
    assert CompareCommon(boxed.client, VerifiedV1(h, Rtime(s, r.now))).None?;
  }

  /******* A message that names who exploded it *******/

  /** An exploding text message, well formed but for ExplodedBy. */
  const ExplodedHeader := ClientHeader(Triple([1], [2], 1), "alice,bob", false, 1, 0, [], [], None, [3], [4], None,
    Some(MerkleRoot(1, [5])), None, None, Some(Ephemeral(60, 0, Some("alice"))), map[], None)

  /** It is boxed in version 3 and then refused by every receiver, because of that field alone. */
  lemma ExplodedByIsRefused(c: Crypto, info: Info, nonces: Nonces, s: ServerHeader, r: Receiver)
    requires Laws(c) && PairOK(c, info.pair) && info.pair.secret.Some? && info.version == 3 && info.recipients == []
    requires |nonces.header| == HeaderNonceSize && |nonces.body| == BodyNonceSize
    ensures var m := Plaintext(ExplodedHeader, Body(1, 7));
      && BoxV2(c, m, info, None, nonces).Ok?
      && UnboxV2(c, Delivered(BoxV2(c, m, info, None, nonces).value, s), info.key, info.ephemeralKey, r).Err?
  {
    var m := Plaintext(ExplodedHeader, Body(1, 7));
    hide Laws, UnboxV2, Seal, SealHeader;
    assert BoxV2(c, m, info, None, nonces).Ok?;
    UnboxBoxV2(c, m, info, None, nonces, s, r);
  }
}
