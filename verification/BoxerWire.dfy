/**
 What a boxed message looks like on the wire and what an accepted one vouches for, in terms of the primitives
 alone (go/chat/boxer.go:573-1021, 1473-1876, 1930-2158).
 */
module BoxerWire {
  import opened Wrappers
  import opened BoxerTypes
  import opened Boxer
  import opened Unboxer
  import opened BoxerRoundTrip
  import opened UnboxMessage

  /******* When boxing succeeds *******/

  predicate AllImport(c: Crypto, kids: seq<Bytes>) {
    forall k :: k in kids ==> c.importDH(k).Some?
  }

  lemma {:induction false} MacsExistIff(c: Crypto, secret: Bytes, recipients: seq<Bytes>, hash: Bytes)
    ensures PairwiseMacs(c, secret, recipients, hash).Some? <==> AllImport(c, recipients)
  {
    if recipients != [] {
      MacsExistIff(c, secret, recipients[..|recipients| - 1], hash);
      assert recipients == recipients[..|recipients| - 1] + [recipients[|recipients| - 1]];
    }
  }

  /** A delete-history body is named in the header, and nothing else is. */
  predicate HistoryNamed(m: Plaintext) {
    m.header.deleteHistory == if m.body.typ == TypeDeleteHistory then Some(m.body.content) else None
  }

  /** What versions 2 to 4 need to seal and, for MACs, to address the message. */
  predicate CanSeal(c: Crypto, m: Plaintext, s: Services, pair: Pair, nonces: Nonces) {
    if IsMacd(m, s) then s.recipients != [] && s.device.Some? && |nonces.header| == HeaderNonceSize && AllImport(c, s.recipients)
    else pair.secret.Some?
  }

  lemma BoxV2Iff(c: Crypto, m: Plaintext, info: Info, device: Option<Bytes>, nonces: Nonces)
    ensures BoxV2(c, m, info, device, nonces).Ok? <==>
      && m.header.merkleRoot.Some? && info.pair.secret.Some?
      && (info.recipients != [] ==> device.Some? && |nonces.header| == HeaderNonceSize && AllImport(c, info.recipients))
  {
    hide PairwiseMacs, Seal, VersionBody, Boxer.BodyKey, SignedV2, WithGeneration, AllImport;
    if info.recipients != [] && device.Some? && m.header.merkleRoot.Some? && info.pair.secret.Some? {
      var h := WithGeneration(m.header, info.ephemeralKey.generation);
      var body := Seal(c, VersionBody(h, m.body), nonces.body, Boxer.BodyKey(c, m.IsEphemeral(), info.key, info.ephemeralKey));
      var header := SealHeader(c, h, body, c.headerKey(info.key.material), info.pair.secret.value, nonces.header);
      if HeaderHash(c, header).Ok? { MacsExistIff(c, device.value, info.recipients, HeaderHash(c, header).value); }
    }
  }

  /** BoxMessage lets a message out exactly when it is well formed and everything it needs is there. */
  lemma BoxesIff(c: Crypto, m: Plaintext, version: nat, s: Services, pair: Pair, nonces: Nonces)
    ensures BoxMessage(c, m, version, s, pair, nonces).Ok? <==>
      && m.header.tlfName != "" && s.canonicalName != "" && HistoryNamed(m)
      && 1 <= version <= 4
      && (version == 1 ==> !m.IsEphemeral() && m.header.merkleRoot.None? && pair.secret.Some?)
      && (version > 1 ==> s.root.Some? && CanSeal(c, m, s, pair, nonces))
  {
    hide BoxV2, AllImport, Seal;
    if 2 <= version <= 4 && s.root.Some? {
      var rooted := m.(header := m.header.(merkleRoot := s.root));
      var info := GetEncryptionInfo(c, rooted, version, s, pair);
      if info.Ok? { BoxV2Iff(c, Canonical(rooted, s.canonicalName), info.value, s.device, nonces); }
    }
  }

  /******* What leaves *******/

  /** Pins travel in a body of version 2. */
  function Packed(c: Crypto, m: Plaintext): Bytes {
    c.packBody(if m.header.messageType == TypePin then BodyV2(m.body) else BodyV1(m.body))
  }

  /** The bytes a version 1 sealed box is hashed as. */
  function HashInput(s: Sealed): Bytes {
    [0, 0, 0, 1] + s.n + s.e
  }

  lemma InputIs(c: Crypto, s: Sealed)
    requires s.v == 1
    ensures BodyHash(c, s) == c.hash(HashInput(s))
    ensures |s.n| == HeaderNonceSize ==> HeaderHash(c, s) == Ok(c.hash(HashInput(s)))
  {
    assert Word(1) == [0, 0, 0, 1];
  }

  /** Versions 2 to 4, the body: an exploding one is sealed under the key derived from the ephemeral key, any other
      under the one derived from the conversation's key. */
  lemma BodySealedUnder(c: Crypto, m: Plaintext, version: nat, s: Services, pair: Pair, nonces: Nonces)
    requires BoxMessage(c, m, version, s, pair, nonces).Ok? && version != 1
    ensures var b := BoxMessage(c, m, version, s, pair, nonces).value;
      b.body == Sealed(1, c.seal(Packed(c, m), nonces.body,
        if m.IsEphemeral() then c.explodingKey(s.ephemeralKey.material) else c.headerKey(s.key.material)), nonces.body)
  {
    InfoOf(c, m, version, s, pair, nonces);
    hide BoxMessage, GetEncryptionInfo, SealHeader, AllMacs;
  }

  /** So an exploding body opens under the ephemeral key and does not depend on the conversation's key; any other
      body opens under the conversation's key and does not depend on the ephemeral one. */
  lemma BodyKeysSeparate(c: Crypto, m: Plaintext, version: nat, s: Services, s': Services, pair: Pair, nonces: Nonces)
    requires SealLaw(c) && version != 1 && BoxMessage(c, m, version, s, pair, nonces).Ok? && BoxMessage(c, m, version, s', pair, nonces).Ok?
    ensures var b := BoxMessage(c, m, version, s, pair, nonces).value.body;
      c.open(b.e, b.n, if m.IsEphemeral() then c.explodingKey(s.ephemeralKey.material) else c.headerKey(s.key.material)) == Some(Packed(c, m))
    ensures (if m.IsEphemeral() then s'.ephemeralKey.material == s.ephemeralKey.material else s'.key.material == s.key.material) ==>
      BoxMessage(c, m, version, s', pair, nonces).value.body == BoxMessage(c, m, version, s, pair, nonces).value.body
  {
    hide BoxMessage, Packed;
    BodySealedUnder(c, m, version, s, pair, nonces);
    BodySealedUnder(c, m, version, s', pair, nonces);
  }

  /** What is signed in versions 2 to 4. */
  function Signed(c: Crypto, h: ClientHeader, body: Sealed): SignedHeader {
    SignedHeader(h.conv, h.tlfName, h.tlfPublic, h.messageType, h.prev, h.sender, h.senderDevice, h.kbfsCryptKeysUsed,
                 c.hash(HashInput(body)), h.outboxInfo, h.outboxID, None, h.merkleRoot, h.ephemeral, h.botUID)
  }

  /** Versions 2 to 4, the header: what is signed, with which secret, and under which key it is sealed. */
  lemma HeaderSealedUnder(c: Crypto, m: Plaintext, version: nat, s: Services, pair: Pair, nonces: Nonces)
    requires BoxMessage(c, m, version, s, pair, nonces).Ok? && version != 1
    ensures var b := BoxMessage(c, m, version, s, pair, nonces).value;
      var secret := if IsMacd(m, s) then c.dummySecret else if pair.secret.Some? then pair.secret.value else [];
      && b.header == Sealed(1, c.signSeal(c.packHeader(HeaderV1(Signed(c, Sent(m, version, s), b.body))),
                                          c.headerKey(s.key.material), secret, ChatMBv2, nonces.header), nonces.header)
      && b.verifyKey == Some(if IsMacd(m, s) then c.publicKey(c.dummySecret) else pair.kid)
      && b.keyGeneration == s.key.generation
      && b.client.(pairwiseMacs := map[]) == Sent(m, version, s).(pairwiseMacs := map[])
  {
    InfoOf(c, m, version, s, pair, nonces);
    ClientOf(c, m, version, s, pair, nonces);
    SentIs(m, version, s);
    var m' := m.(header := m.header.(tlfName := s.canonicalName, merkleRoot := s.root));
    var info := GetEncryptionInfo(c, m, version, s, pair).value;
    hide BoxMessage, GetEncryptionInfo, AllMacs, BodyHash, HashInput, VersionBody, Boxer.BodyKey, WithGeneration, Sent;
    InputIs(c, BoxV2(c, m', info, s.device, nonces).value.body);
  }

  /** Exploding messages with MACs carry one for each recipient, of the hash of the sealed header; others carry the
      ones they came with. */
  lemma MacsOnTheWire(c: Crypto, m: Plaintext, version: nat, s: Services, pair: Pair, nonces: Nonces)
    requires BoxMessage(c, m, version, s, pair, nonces).Ok? && version != 1
    ensures var b := BoxMessage(c, m, version, s, pair, nonces).value;
      var macs := b.client.pairwiseMacs;
      && (!IsMacd(m, s) ==> macs == m.header.pairwiseMacs)
      && (IsMacd(m, s) ==> s.device.Some? && forall k ::
            && (k in macs <==> k in s.recipients)
            && (k in macs ==> c.importDH(k).Some? && macs[k] == c.mac(c.shared(s.device.value, c.importDH(k).value), c.hash(HashInput(b.header)))))
  {
    InfoOf(c, m, version, s, pair, nonces);
    BoxesIff(c, m, version, s, pair, nonces);
    HeaderSealedUnder(c, m, version, s, pair, nonces);
    var m' := m.(header := m.header.(tlfName := s.canonicalName, merkleRoot := s.root));
    var info := GetEncryptionInfo(c, m, version, s, pair).value;
    var b := BoxV2(c, m', info, s.device, nonces).value;
    InputIs(c, b.header);
    hide BoxMessage, GetEncryptionInfo, BodyHash, HashInput, VersionBody, Boxer.BodyKey, Sent, PairwiseMacs, HeaderHash, Seal, SealHeader, Signed;
    if IsMacd(m, s) {
      var hash := HeaderHash(c, b.header).value;
      forall k {
        MacsAre(c, s.device.value, s.recipients, hash, k);
      }
    }
  }

  /** Version 1: header and body are sealed under the conversation's key itself, and the header carries its own
      signature. */
  lemma SealedV1(c: Crypto, m: Plaintext, s: Services, pair: Pair, nonces: Nonces)
    requires BoxMessage(c, m, 1, s, pair, nonces).Ok?
    ensures var b := BoxMessage(c, m, 1, s, pair, nonces).value;
      var h := Sent(m, 1, s);
      var signed := SignedHeader(h.conv, h.tlfName, h.tlfPublic, h.messageType, h.prev, h.sender, h.senderDevice, h.kbfsCryptKeysUsed,
                                 c.hash(b.body.e), h.outboxInfo, h.outboxID, None, None, None, None);
      && b.body == Sealed(1, c.seal(c.packBody(BodyV1(m.body)), nonces.body, s.key.material), nonces.body)
      && pair.secret.Some?
      && b.header == Sealed(1, c.seal(c.packHeader(HeaderV1(signed.(signature :=
           Some(Signature(c.sign(c.packSigned(signed), pair.secret.value, ChatMBv1), pair.kid))))), nonces.header, s.key.material), nonces.header)
      && b.client == h && b.verifyKey.None? && b.keyGeneration == s.key.generation && b.version == 1
  {
    V1Of(c, m, s, pair, nonces);
    hide BoxMessage;
  }

  /******* What is accepted, in versions 2 to 4 *******/

  /** The sealed header opens, under the conversation's key and the verify key it names, to h, which is unsigned
      inside. */
  predicate OpensTo(c: Crypto, boxed: Boxed, key: Keys, h: SignedHeader) {
    && boxed.verifyKey.Some? && c.isVerifyKey(boxed.verifyKey.value) && |boxed.header.n| == HeaderNonceSize
    && var p := c.signOpen(boxed.header.e, c.headerKey(key.material), boxed.verifyKey.value, ChatMBv2, boxed.header.n);
    p.Some? && c.unpackHeader(p.value) == Some(HeaderV1(h)) && h.signature.None?
  }

  /** k is the key that vouches for the sender: the signing key, or the device key whose MAC is right. */
  predicate VouchedBy(c: Crypto, boxed: Boxed, k: Bytes, r: Receiver) {
    var macs, dummy, hashed := boxed.client.pairwiseMacs, c.publicKey(c.dummySecret), Word(boxed.header.v) + boxed.header.n + boxed.header.e;
    if macs == map[] then boxed.verifyKey == Some(k) && k != dummy
    else
      && boxed.verifyKey.Some? && (boxed.version == 3 || boxed.verifyKey == Some(dummy))
      && r.deviceKid(boxed.client.sender, boxed.client.senderDevice) == Some(k) && c.importDH(k).Some?
      && r.device.Some? && c.dhKid(r.device.value) in macs
      && macs[c.dhKid(r.device.value)] == c.mac(c.shared(r.device.value, c.importDH(k).value), c.hash(hashed))
  }

  /** The header sent along says what the signed one says. */
  predicate SaysTheSame(h: ClientHeader, v: SignedHeader, version: nat) {
    && h.conv == v.conv && h.tlfName == v.tlfName && h.tlfPublic == v.tlfPublic && h.messageType == v.messageType
    && h.prev == v.prev && h.sender == v.sender && h.senderDevice == v.senderDevice
    && h.merkleRoot == v.merkleRoot && v.merkleRoot.Some? && h.outboxID == v.outboxID && h.outboxInfo == v.outboxInfo
    && (version > 2 ==> h.ephemeral == v.ephemeral && NotExploded(h) && h.botUID == v.botUID)
  }

  /** The body is blank, or has the signed hash and opens under the right key. */
  predicate BodyOpensTo(c: Crypto, boxed: Boxed, h: SignedHeader, key: Keys, ek: Keys, body: Body) {
    var k := if boxed.client.ephemeral.Some? then c.explodingKey(ek.material) else c.headerKey(key.material);
    if boxed.body.e == [] then body == Body(TypeNone, 0)
    else
      && h.bodyHash != [] && h.bodyHash == c.hash(Word(boxed.body.v) + boxed.body.n + boxed.body.e)
      && |boxed.body.n| == BodyNonceSize
      && var p := c.open(boxed.body.e, boxed.body.n, k);
      p.Some? && (c.unpackBody(p.value) == Some(BodyV1(body)) || c.unpackBody(p.value) == Some(BodyV2(body)))
  }

  /** Everything that an accepted message vouches for. */
  predicate Vouched(c: Crypto, boxed: Boxed, key: Keys, ek: Keys, r: Receiver, h: SignedHeader, k: Bytes, body: Body) {
    && boxed.server.Some? && OpensTo(c, boxed, key, h) && VouchedBy(c, boxed, k, r)
    && SenderHolds(r, boxed.client.sender, k, boxed.server.value.ctime)
    && SaysTheSame(boxed.client, h, boxed.version) && BodyOpensTo(c, boxed, h, key, ek, body)
  }

  lemma SenderKeyMeans(c: Crypto, boxed: Boxed, r: Receiver, k: Bytes)
    requires |boxed.header.n| == HeaderNonceSize
    ensures SenderKey(c, boxed, c.hash(Word(boxed.header.v) + boxed.header.n + boxed.header.e), r) == Ok(k) <==> VouchedBy(c, boxed, k, r)
  {
  }

  lemma HeaderMeans(c: Crypto, boxed: Boxed, key: Keys, h: SignedHeader)
    requires boxed.verifyKey.Some? && |boxed.header.n| == HeaderNonceSize
    ensures OpenHeaderV2(c, boxed.header, c.headerKey(key.material), boxed.verifyKey.value) == Ok(h) <==> OpensTo(c, boxed, key, h)
  {
    assert boxed.header.n[..HeaderNonceSize] == boxed.header.n;
  }

  lemma CompareMeans(h: ClientHeader, v: SignedHeader, rtime: int, macs: bool, version: nat)
    ensures CompareHeaders(h, VerifiedV2(v, rtime, macs), version).None? <==> SaysTheSame(h, v, version)
  {
  }

  lemma BodyMeans(c: Crypto, boxed: Boxed, h: SignedHeader, key: Keys, ek: Keys, body: Body)
    ensures BodyOpensTo(c, boxed, h, key, ek, body) <==>
      && (boxed.body.e == [] || BodyHashMatches(c, boxed.body, h.bodyHash))
      && BodyOfV2(c, boxed.body, Boxer.BodyKey(c, boxed.IsEphemeral(), key, ek)) == Ok(body)
  {
    hide Word;
  }

  /** What UnboxV2 returns for a message that is vouched for. */
  function Outcome(c: Crypto, boxed: Boxed, r: Receiver, h: SignedHeader, k: Bytes, body: Body): Unboxed
    requires boxed.server.Some?
  {
    var s := boxed.server.value;
    Unboxed(Verified(h.conv, h.tlfName, h.tlfPublic, h.messageType, h.prev, h.sender, h.senderDevice, h.kbfsCryptKeysUsed,
                     h.merkleRoot, h.outboxID, h.outboxInfo, h.ephemeral, if s.rtime.Some? then s.rtime.value else r.now,
                     boxed.client.pairwiseMacs != map[], h.botUID),
            s, body, h.bodyHash, c.hash(Word(boxed.header.v) + boxed.header.n + boxed.header.e), None, k,
            Revocation(r, boxed.client.sender, k))
  }

  lemma UnboxSteps(c: Crypto, boxed: Boxed, key: Keys, ek: Keys, r: Receiver)
    requires boxed.server.Some? && |boxed.header.n| == HeaderNonceSize
    ensures var u := UnboxV2(c, boxed, key, ek, r);
      var hash := c.hash(Word(boxed.header.v) + boxed.header.n + boxed.header.e);
      var k := SenderKey(c, boxed, hash, r);
      && (k.Err? ==> u.Err?)
      && (k.Ok? ==>
          var revoked := CheckSender(r, boxed.client.sender, k.value, boxed.server.value.ctime);
          && boxed.verifyKey.Some?
          && (revoked.Err? ==> u.Err?)
          && (revoked.Ok? ==> u == UnboxSigned(c, boxed, boxed.server.value, key, ek, r.now, hash, k.value, boxed.verifyKey.value, revoked.value)))
  {
    hide UnboxSigned, CheckSender, ValidatePairwiseMac, Word;
  }

  /** For every message whatever, not just one that BoxMessage let out: when the header opens to h, k vouches for the
      sender and the body opens to its text, the message is accepted as just that. */
  lemma VouchedIsAccepted(c: Crypto, boxed: Boxed, key: Keys, ek: Keys, r: Receiver, h: SignedHeader, k: Bytes, body: Body)
    ensures Vouched(c, boxed, key, ek, r, h, k, body) ==> UnboxV2(c, boxed, key, ek, r) == Ok(Outcome(c, boxed, r, h, k, body))
  {
    if Vouched(c, boxed, key, ek, r, h, k, body) {
      SenderKeyMeans(c, boxed, r, k);
      HeaderMeans(c, boxed, key, h);
      CheckSenderIff(r, boxed.client.sender, k, boxed.server.value.ctime);
      CompareMeans(boxed.client, h, Rtime(boxed.server.value, r.now), boxed.client.pairwiseMacs != map[], boxed.version);
      BodyMeans(c, boxed, h, key, ek, body);
      UnboxSteps(c, boxed, key, ek, r);
      hide UnboxV2, SenderKey, OpenHeaderV2, CheckSender, CompareHeaders, BodyHashMatches, BodyOfV2, VouchedBy, SenderHolds, SaysTheSame, BodyOpensTo, Boxer.BodyKey, Word, Revocation;
    }
  }

  /** And nothing else is accepted. */
  lemma AcceptedIsVouched(c: Crypto, boxed: Boxed, key: Keys, ek: Keys, r: Receiver) returns (h: SignedHeader, k: Bytes, body: Body)
    requires UnboxV2(c, boxed, key, ek, r).Ok?
    ensures Vouched(c, boxed, key, ek, r, h, k, body) && UnboxV2(c, boxed, key, ek, r) == Ok(Outcome(c, boxed, r, h, k, body))
  {
    assert boxed.server.Some? && |boxed.header.n| == HeaderNonceSize by { AcceptedShape(c, boxed, key, ek, r); }
    UnboxSteps(c, boxed, key, ek, r);
    var hash := c.hash(Word(boxed.header.v) + boxed.header.n + boxed.header.e);
    k := SenderKey(c, boxed, hash, r).value;
    SenderKeyMeans(c, boxed, r, k);
    CheckSenderIff(r, boxed.client.sender, k, boxed.server.value.ctime);
    hide UnboxV2, SenderKey, OpenHeaderV2, CheckSender, CompareHeaders, BodyHashMatches, BodyOfV2, VouchedBy, SenderHolds, SaysTheSame, BodyOpensTo, Boxer.BodyKey, Word, Revocation;
    h := OpenHeaderV2(c, boxed.header, c.headerKey(key.material), boxed.verifyKey.value).value;
    HeaderMeans(c, boxed, key, h);
    CompareMeans(boxed.client, h, Rtime(boxed.server.value, r.now), boxed.client.pairwiseMacs != map[], boxed.version);
    body := BodyOfV2(c, boxed.body, Boxer.BodyKey(c, boxed.IsEphemeral(), key, ek)).value;
    BodyMeans(c, boxed, h, key, ek, body);
  }

  lemma AcceptedShape(c: Crypto, boxed: Boxed, key: Keys, ek: Keys, r: Receiver)
    requires UnboxV2(c, boxed, key, ek, r).Ok?
    ensures boxed.server.Some? && |boxed.header.n| == HeaderNonceSize
  {
    hide UnboxSigned, CheckSender, SenderKey;
  }

  /******* What is accepted, in version 1 *******/

  /** The sealed header opens to h, whose own signature is that of the key it names. */
  predicate OpensToV1(c: Crypto, boxed: Boxed, key: Keys, h: SignedHeader) {
    && |boxed.header.n| == BodyNonceSize
    && var p := c.open(boxed.header.e, boxed.header.n, key.material);
    && p.Some? && c.unpackHeader(p.value) == Some(HeaderV1(h))
    && h.signature.Some? && c.verify(c.packSigned(h.(signature := None)), h.signature.value.sig, h.signature.value.kid, ChatMBv1)
  }

  predicate SaysTheSameV1(h: ClientHeader, v: SignedHeader) {
    && h.conv == v.conv && h.tlfName == v.tlfName && h.tlfPublic == v.tlfPublic && h.messageType == v.messageType
    && h.prev == v.prev && h.sender == v.sender && h.senderDevice == v.senderDevice
  }

  predicate BodyOpensToV1(c: Crypto, boxed: Boxed, h: SignedHeader, key: Keys, body: Body) {
    if boxed.body.e == [] then body == Body(TypeNone, 0)
    else
      && h.bodyHash == c.hash(boxed.body.e) && |boxed.body.n| == BodyNonceSize
      && var p := c.open(boxed.body.e, boxed.body.n, key.material); p.Some? && c.unpackBody(p.value) == Some(BodyV1(body))
  }

  predicate VouchedV1(c: Crypto, boxed: Boxed, key: Keys, r: Receiver, h: SignedHeader, body: Body) {
    && boxed.server.Some? && (boxed.verifyKey.None? || boxed.verifyKey.value == [])
    && OpensToV1(c, boxed, key, h) && SenderHolds(r, h.sender, h.signature.value.kid, boxed.server.value.ctime)
    && SaysTheSameV1(boxed.client, h) && BodyOpensToV1(c, boxed, h, key, body)
  }

  function OutcomeV1(c: Crypto, boxed: Boxed, r: Receiver, h: SignedHeader, body: Body): Unboxed
    requires boxed.server.Some? && h.signature.Some?
  {
    var s, kid := boxed.server.value, h.signature.value.kid;
    Unboxed(Verified(h.conv, h.tlfName, h.tlfPublic, h.messageType, h.prev, h.sender, h.senderDevice, h.kbfsCryptKeysUsed,
                     None, h.outboxID, h.outboxInfo, None, if s.rtime.Some? then s.rtime.value else r.now, false, None),
            s, body, h.bodyHash, c.hash(boxed.header.e), h.signature, kid, Revocation(r, h.sender, kid))
  }

  lemma HeaderMeansV1(c: Crypto, boxed: Boxed, key: Keys, r: Receiver, h: SignedHeader, ctime: int)
    ensures OpenHeaderV1(c, boxed, key) == Ok(h) && VerifyV1(c, boxed, h, r, ctime).Ok? <==>
      && OpensToV1(c, boxed, key, h) && (boxed.body.e != [] ==> h.bodyHash == c.hash(boxed.body.e))
      && SenderHolds(r, h.sender, h.signature.value.kid, ctime)
    ensures VerifyV1(c, boxed, h, r, ctime).Ok? ==>
      h.signature.Some? && VerifyV1(c, boxed, h, r, ctime).value == Revocation(r, h.sender, h.signature.value.kid)
  {
    if h.signature.Some? { CheckSenderIff(r, h.sender, h.signature.value.kid, ctime); }
    hide CheckSender, SenderHolds, Revocation;
  }

  lemma BodyMeansV1(c: Crypto, boxed: Boxed, key: Keys, body: Body)
    ensures boxed.body.e != [] ==>
      (BodyOfV1(c, boxed, key) == Ok(Some(BodyV1(body))) <==>
       |boxed.body.n| == BodyNonceSize && var p := c.open(boxed.body.e, boxed.body.n, key.material); p.Some? && c.unpackBody(p.value) == Some(BodyV1(body)))
    ensures boxed.body.e == [] ==> BodyOfV1(c, boxed, key) == Ok(None)
  {
  }

  /** Version 1: what is vouched for is accepted as just that. */
  lemma VouchedIsAcceptedV1(c: Crypto, boxed: Boxed, key: Keys, r: Receiver, h: SignedHeader, body: Body)
    requires VouchedV1(c, boxed, key, r, h, body)
    ensures UnboxV1(c, boxed, key, r) == Ok(OutcomeV1(c, boxed, r, h, body))
  {
    HeaderMeansV1(c, boxed, key, r, h, boxed.server.value.ctime);
    BodyMeansV1(c, boxed, key, body);
    hide OpenHeaderV1, VerifyV1, BodyOfV1, OpensToV1, SenderHolds, Revocation;
  }

  /** And nothing else is accepted. */
  lemma AcceptedIsVouchedV1(c: Crypto, boxed: Boxed, key: Keys, r: Receiver) returns (h: SignedHeader, body: Body)
    requires UnboxV1(c, boxed, key, r).Ok?
    ensures VouchedV1(c, boxed, key, r, h, body) && UnboxV1(c, boxed, key, r) == Ok(OutcomeV1(c, boxed, r, h, body))
  {
    h := OpenHeaderV1(c, boxed, key).value;
    body := UnboxV1(c, boxed, key, r).value.body;
    HeaderMeansV1(c, boxed, key, r, h, boxed.server.value.ctime);
    BodyMeansV1(c, boxed, key, body);
    assert VerifyV1(c, boxed, h, r, boxed.server.value.ctime).Ok? ==> boxed.body.e != [] ==> h.bodyHash == c.hash(boxed.body.e);
    hide OpenHeaderV1, VerifyV1, BodyOfV1, OpensToV1, SenderHolds, Revocation;
  }
}
