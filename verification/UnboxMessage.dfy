/** From BoxMessage on one side to UnboxMessage on the other (go/chat/boxer.go:324-482, 1473-1598). */
module UnboxMessage {
  import opened Wrappers
  import opened BoxerTypes
  import opened Boxer
  import opened Unboxer
  import opened BoxerRoundTrip
  import opened BoxerChecks
  import opened BoxerTable

  datatype Conversation = Conversation(convID: Bytes, isPublic: bool)

  /** Keys by generation. */
  datatype Keyring = Keyring(base: nat -> Result<Keys>, ephemeral: nat -> Result<Keys>)

  function Digits(n: nat): Bytes {
    if n < 10 then [48 + n] else Digits(n / 10) + [48 + n % 10]
  }

  /** The number that ASCII digits stand for. */
  function ValueOf(d: Bytes): int {
    if d == [] then 0 else 10 * ValueOf(d[..|d| - 1]) + d[|d| - 1] - 48
  }

  lemma {:induction false} DigitsAre(n: nat)
    ensures ValueOf(Digits(n)) == n && (forall x :: x in Digits(n) ==> 48 <= x <= 57)
    ensures Digits(n) != [] && (n > 0 ==> Digits(n)[0] != 48)
  {
    if n < 10 {
      assert [48 + n][..0] == [];
    } else {
      DigitsAre(n / 10);
      var front: Bytes := Digits(n / 10);
      assert Digits(n)[..|front|] == front;
    }
  }

  /** The conversation ID is the hash of the triple, but for two bytes that name a shard. */
  predicate Derivable(c: Crypto, t: Triple, convID: Bytes) {
    var h := c.hash(t.tlfid + t.topicID + Digits(t.topicType));
    |h| > 2 && |convID| > 2 && h[2..] == convID[2..]
  }

  /** The checks of checkInvariants that need no table. */
  function CheckHeader(c: Crypto, conv: Conversation, u: Unboxed): Option<Error> {
    if !Derivable(c, u.header.conv, conv.convID) then Some(ConvIDMismatch)
    else if !u.body.IsNil() && u.header.messageType != u.body.typ then Some(TypeMismatch)
    else None
  }

  function FindKeys(boxed: Boxed, ring: Keyring): Result<(Keys, Keys)> {
    var key := ring.base(boxed.keyGeneration);
    if key.Err? then Err(key.error)
    else if !boxed.IsEphemeral() then Ok((key.value, Keys([], 0)))
    else
      var ek := ring.ephemeral(boxed.client.ephemeral.value.generation);
      if ek.Err? then Err(ek.error) else Ok((key.value, ek.value))
  }

  /** UnboxMessage up to the table checks; a message without a server header is refused. */
  function Receive(c: Crypto, boxed: Boxed, conv: Conversation, ring: Keyring, r: Receiver): Result<Unboxed> {
    if boxed.client.conv.tlfid == [] then Err(Unavailable)
    else if boxed.server.None? then Err(NoServerHeader)
    else if conv.isPublic != boxed.client.tlfPublic then Err(VisibilityMismatch)
    else
      var stamped := boxed.(server := Some(boxed.server.value.(rtime := Some(Rtime(boxed.server.value, r.now)))));
      var keys := FindKeys(stamped, ring);
      if keys.Err? then Err(keys.error)
      else
        var u := Unbox(c, stamped, keys.value.0, keys.value.1, r);
        if u.Err? then u
        else if CheckHeader(c, conv, u.value).Some? then Err(CheckHeader(c, conv, u.value).value)
        else u
  }

  /******* Boxing, then receiving *******/

  predicate IsMacd(m: Plaintext, s: Services) {
    m.IsEphemeral() && s.shouldMac
  }

  /** The key that the receiver holds the sender to. */
  function SenderKid(c: Crypto, m: Plaintext, version: nat, s: Services, pair: Pair, r: Receiver): Bytes {
    if version == 1 then pair.kid
    else if IsMacd(m, s) && s.device.Some? then c.dhKid(s.device.value)
    else if m.header.pairwiseMacs != map[] && r.deviceKid(m.header.sender, m.header.senderDevice).Some?
    then r.deviceKid(m.header.sender, m.header.senderDevice).value
    else pair.kid
  }

  /** The version a message leaves with when it is not MAC'd. */
  function LeavesAs(m: Plaintext, version: nat): nat {
    if m.IsEphemeral() && version == 2 then 3 else version
  }

  /** The receiver can tell the sender: by the MACs made for it, by MACs the plaintext came with, or by a
      signing key of its own. */
  predicate TellsSender(c: Crypto, m: Plaintext, version: nat, s: Services, pair: Pair, hash: Bytes, r: Receiver) {
    if version == 1 then true
    else if IsMacd(m, s) then r.device.Some? && c.dhKid(r.device.value) in s.recipients
    else if m.header.pairwiseMacs != map[] then MacsReady(c, m.header, LeavesAs(m, version), pair.kid, hash, r)
    else pair.kid != c.DummyKid()
  }

  /** The conversation ID has the length of the triple's hash and agrees with it from the third byte on. */
  predicate Names(c: Crypto, t: Triple, convID: Bytes) {
    var h := c.hash(t.tlfid + t.topicID + Digits(t.topicType));
    |convID| == |h| > 2 && forall i :: 2 <= i < |h| ==> convID[i] == h[i]
  }

  lemma DerivableNames(c: Crypto, t: Triple, convID: Bytes)
    ensures Derivable(c, t, convID) <==> Names(c, t, convID)
  {
    hide Digits;
    var h := c.hash(t.tlfid + t.topicID + Digits(t.topicType));
    if Derivable(c, t, convID) {
      assert forall i :: 2 <= i < |h| ==> h[i] == h[2..][i - 2] && convID[i] == convID[2..][i - 2];
    }
  }

  /** What a receiver needs, in terms of what the sender was given to send and of the header hash. */
  predicate Receivable(c: Crypto, m: Plaintext, version: nat, s: Services, pair: Pair, hash: Bytes, server: ServerHeader, conv: Conversation, r: Receiver) {
    && m.header.conv.tlfid != []
    && conv.isPublic == m.header.tlfPublic
    && Names(c, m.header.conv, conv.convID)
    && (m.body.IsNil() || m.header.messageType == m.body.typ)
    && NotExploded(m.header)
    && TellsSender(c, m, version, s, pair, hash, r)
    && SenderHolds(r, m.header.sender, SenderKid(c, m, version, s, pair, r), server.ctime)
  }

  /** The header as it should arrive: canonical name, newest merkle root, generation of the ephemeral key. */
  function Sent(m: Plaintext, version: nat, s: Services): ClientHeader {
    var h := m.header.(tlfName := s.canonicalName);
    var e := h.ephemeral;
    if version == 1 then h
    else h.(merkleRoot := s.root,
            ephemeral := if e.None? then None else Some(Ephemeral(e.value.lifetime, s.ephemeralKey.generation, e.value.explodedBy)))
  }

  /** The receiver has the sender's keys under their generations, and its device key. */
  predicate Matches(c: Crypto, m: Plaintext, s: Services, ring: Keyring, r: Receiver) {
    && ring.base(s.key.generation) == Ok(s.key)
    && ring.ephemeral(s.ephemeralKey.generation) == Ok(s.ephemeralKey)
    && (IsMacd(m, s) ==> KnowsDevice(c, m.header, s.device, r))
  }

  /** What the receiver adds: its time of receipt, the key the sender is held to with its revocation, whether MACs
      vouch for it, and in version 1 the signature. */
  predicate Credited(u: Unboxed, m: Plaintext, version: nat, s: Services, pair: Pair, kid: Bytes, server: ServerHeader, r: Receiver) {
    && u.server == server && u.header.rtime == (if server.rtime.Some? then server.rtime.value else r.now)
    && u.verificationKey == kid && u.revokedAt == Revocation(r, m.header.sender, kid)
    && u.header.hasPairwiseMacs == (version != 1 && (IsMacd(m, s) || m.header.pairwiseMacs != map[]))
    && (if version == 1 then u.signature.Some? && u.signature.value.kid == pair.kid else u.signature.None?)
  }

  predicate NoncesOK(nonces: Nonces, version: nat) {
    |nonces.body| == BodyNonceSize && |nonces.header| == if version == 1 then BodyNonceSize else HeaderNonceSize
  }

  lemma UnboxIgnoresUnusedKey(c: Crypto, boxed: Boxed, key: Keys, ek: Keys, ek': Keys, r: Receiver)
    requires !boxed.IsEphemeral() && 2 <= boxed.version <= 4
    ensures Unbox(c, boxed, key, ek, r) == Unbox(c, boxed, key, ek', r)
  {
  }

  /** The encryption info that BoxMessage ends up with. */
  lemma InfoOf(c: Crypto, m: Plaintext, version: nat, s: Services, pair: Pair, nonces: Nonces)
    requires BoxMessage(c, m, version, s, pair, nonces).Ok? && version != 1
    ensures var h := m.header.(tlfName := s.canonicalName, merkleRoot := s.root);
      var info := GetEncryptionInfo(c, m, version, s, pair);
      && info.Ok? && 2 <= info.value.version <= 4
      && s.root.Some?
      && BoxMessage(c, m, version, s, pair, nonces) == BoxV2(c, m.(header := h), info.value, s.device, nonces)
      && (info.value.recipients != [] <==> IsMacd(m, s))
      && (IsMacd(m, s) ==> info.value.recipients == s.recipients && info.value.pair == DummyPair(c) && s.device.Some?)
      && (!IsMacd(m, s) ==> info.value.pair == pair)
      && info.value.key == s.key && info.value.ephemeralKey == s.ephemeralKey
      && (m.IsEphemeral() ==> info.value.version > 2)
      && (version == 2 ==> info.value.version == if IsMacd(m, s) then 4 else if m.IsEphemeral() then 3 else 2)
      && (!IsMacd(m, s) ==> info.value.version == LeavesAs(m, version))
      && (IsMacd(m, s) ==> info.value.version == 4)
  {
    hide BoxV1, Seal, SealHeader, WithGeneration, VersionBody, Boxer.BodyKey;
  }

  lemma SentIs(m: Plaintext, version: nat, s: Services)
    requires version != 1
    ensures Sent(m, version, s) == WithGeneration(m.header.(tlfName := s.canonicalName, merkleRoot := s.root), s.ephemeralKey.generation)
  {
  }

  lemma SameMacs(c: Crypto, m: Plaintext, s: Services, version: nat, kid: Bytes, hash: Bytes, r: Receiver)
    ensures var h := m.header.(tlfName := s.canonicalName, merkleRoot := s.root);
      && (MacsReady(c, h, version, kid, hash, r) <==> MacsReady(c, m.header, version, kid, hash, r))
      && (KnowsDevice(c, h, s.device, r) <==> KnowsDevice(c, m.header, s.device, r))
  {
  }

  /** Versions 2 to 4: the exploding message is found by the generation that boxing filled in. */
  lemma UnboxesV2(c: Crypto, m: Plaintext, version: nat, s: Services, pair: Pair, nonces: Nonces, server: ServerHeader, ring: Keyring, r: Receiver)
    requires Laws(c) && BoxMessage(c, m, version, s, pair, nonces).Ok? && PairOK(c, pair)
    requires version != 1 && NoncesOK(nonces, version) && Matches(c, m, s, ring, r)
    ensures var boxed := BoxMessage(c, m, version, s, pair, nonces).value;
      var b := Delivered(boxed, server);
      && FindKeys(b, ring).Ok?
      && var u := Unbox(c, b, FindKeys(b, ring).value.0, FindKeys(b, ring).value.1, r);
      && (u.Ok? <==>
          && NotExploded(m.header)
          && TellsSender(c, m, version, s, pair, HashOf(c, boxed), r)
          && SenderHolds(r, m.header.sender, SenderKid(c, m, version, s, pair, r), server.ctime))
      && (u.Ok? ==> && u.value.body == m.body && Carries(u.value.header, Sent(m, version, s))
                    && Credited(u.value, m, version, s, pair, SenderKid(c, m, version, s, pair, r), server, r)
                    && u.value.bodyHash == BodyHash(c, boxed.body) && u.value.headerHash == HashOf(c, boxed))
  {
    InfoOf(c, m, version, s, pair, nonces);
    var info := GetEncryptionInfo(c, m, version, s, pair).value;
    var m' := m.(header := m.header.(tlfName := s.canonicalName, merkleRoot := s.root));
    hide BoxMessage, BoxV2, GetEncryptionInfo, Laws, Unbox, UnboxV2, Carries, HashOf, BodyHash, AcceptsV2, TellsSender, SenderKid, NotExploded, SenderHolds, Revocation, FindKeys, KnowsDevice, HeldTo, WithGeneration, Sent;
    SentIs(m, version, s);
    var boxed := BoxV2(c, m', info, s.device, nonces).value;
    SameMacs(c, m, s, LeavesAs(m, version), pair.kid, HashOf(c, boxed), r);
    BoxedShape(c, m', info, s.device, nonces);
    UnboxBoxV2(c, m', info, s.device, nonces, server, r);
    FindsKeys(c, Delivered(boxed, server), s, ring, r);
    AcceptsMeans(c, m, version, s, pair, info, HashOf(c, boxed), server, r);
  }

  /** The keys found by generation open the message as the sender's own would. */
  lemma FindsKeys(c: Crypto, b: Boxed, s: Services, ring: Keyring, r: Receiver)
    requires 2 <= b.version <= 4 && b.keyGeneration == s.key.generation && ring.base(s.key.generation) == Ok(s.key)
    requires b.IsEphemeral() ==> b.client.ephemeral.value.generation == s.ephemeralKey.generation
    requires ring.ephemeral(s.ephemeralKey.generation) == Ok(s.ephemeralKey)
    ensures FindKeys(b, ring).Ok?
    ensures Unbox(c, b, FindKeys(b, ring).value.0, FindKeys(b, ring).value.1, r) == UnboxV2(c, b, s.key, s.ephemeralKey, r)
  {
    hide UnboxV1;
    if !b.IsEphemeral() { UnboxIgnoresUnusedKey(c, b, s.key, s.ephemeralKey, Keys([], 0), r); }
    hide UnboxV2;
  }

  lemma AcceptsMeans(c: Crypto, m: Plaintext, version: nat, s: Services, pair: Pair, info: Info, hash: Bytes, server: ServerHeader, r: Receiver)
    requires version != 1 && (info.recipients != [] <==> IsMacd(m, s)) && (m.IsEphemeral() ==> info.version > 2)
    requires IsMacd(m, s) ==> info.recipients == s.recipients && info.pair == DummyPair(c) && s.device.Some?
    requires !IsMacd(m, s) ==> info.pair == pair && info.version == LeavesAs(m, version)
    ensures var m' := m.(header := m.header.(tlfName := s.canonicalName, merkleRoot := s.root));
      AcceptsV2(c, m', info, s.device, hash, server, r) <==>
      && NotExploded(m.header)
      && TellsSender(c, m, version, s, pair, hash, r)
      && SenderHolds(r, m.header.sender, SenderKid(c, m, version, s, pair, r), server.ctime)
    ensures AcceptsV2(c, m.(header := m.header.(tlfName := s.canonicalName, merkleRoot := s.root)), info, s.device, hash, server, r) ==>
      HeldTo(c, m.header, info, s.device, r) == SenderKid(c, m, version, s, pair, r)
  {
    hide SenderHolds, MacsReady;
    SameMacs(c, m, s, LeavesAs(m, version), pair.kid, hash, r);
  }

  lemma UnboxesV1(c: Crypto, m: Plaintext, s: Services, pair: Pair, nonces: Nonces, server: ServerHeader, ring: Keyring, r: Receiver)
    requires Laws(c) && BoxMessage(c, m, 1, s, pair, nonces).Ok? && PairOK(c, pair)
    requires NoncesOK(nonces, 1) && Matches(c, m, s, ring, r)
    ensures var boxed := BoxMessage(c, m, 1, s, pair, nonces).value;
      var b := Delivered(boxed, server);
      && !m.IsEphemeral() && FindKeys(b, ring).Ok? && b.client == Sent(m, 1, s) && boxed.version == 1
      && var u := Unbox(c, b, FindKeys(b, ring).value.0, FindKeys(b, ring).value.1, r);
      && (u.Ok? <==> SenderHolds(r, m.header.sender, pair.kid, server.ctime))
      && (u.Ok? ==> && u.value.body == m.body && CarriesCommon(u.value.header, Sent(m, 1, s))
                    && Credited(u.value, m, 1, s, pair, pair.kid, server, r)
                    && u.value.bodyHash == c.hash(boxed.body.e) && u.value.headerHash == c.hash(boxed.header.e))
  {
    var m' := m.(header := m.header.(tlfName := s.canonicalName));
    V1Of(c, m, s, pair, nonces);
    UnboxBoxV1(c, m', s.key, pair, nonces, server, r);
    V1Shape(c, m', s.key, pair, nonces);
    hide Laws, UnboxV1, UnboxV2, CarriesCommon, SenderHolds, Revocation, BoxMessage, BoxV1;
  }

  lemma V1Shape(c: Crypto, m: Plaintext, key: Keys, pair: Pair, nonces: Nonces)
    requires BoxV1(c, m, key, pair, nonces).Ok?
    ensures var b := BoxV1(c, m, key, pair, nonces).value;
      b.version == 1 && b.client == m.header && b.server.None? && b.keyGeneration == key.generation
  {
    hide Seal;
  }

  lemma V1Of(c: Crypto, m: Plaintext, s: Services, pair: Pair, nonces: Nonces)
    requires BoxMessage(c, m, 1, s, pair, nonces).Ok?
    ensures BoxMessage(c, m, 1, s, pair, nonces) == BoxV1(c, m.(header := m.header.(tlfName := s.canonicalName)), s.key, pair, nonces)
    ensures !m.IsEphemeral() && m.header.merkleRoot.None?
  {
    hide Seal, BoxV2;
  }

  lemma ClientOf(c: Crypto, m: Plaintext, version: nat, s: Services, pair: Pair, nonces: Nonces)
    requires BoxMessage(c, m, version, s, pair, nonces).Ok?
    ensures var b := BoxMessage(c, m, version, s, pair, nonces).value;
      && b.client.(pairwiseMacs := map[]) == Sent(m, version, s).(pairwiseMacs := map[])
      && b.server.None? && (b.version == 1 <==> version == 1) && b.version >= 1
  {
    if version == 1 {
      V1Of(c, m, s, pair, nonces);
      V1Shape(c, m.(header := m.header.(tlfName := s.canonicalName)), s.key, pair, nonces);
      hide BoxMessage, BoxV1;
    } else {
      InfoOf(c, m, version, s, pair, nonces);
      var info := GetEncryptionInfo(c, m, version, s, pair).value;
      var m' := m.(header := m.header.(tlfName := s.canonicalName, merkleRoot := s.root));
      hide BoxMessage, BoxV2, GetEncryptionInfo;
      BoxedShape(c, m', info, s.device, nonces);
    }
  }

  /** What a boxed message claims in the hash table. */
  function MessageOf(c: Crypto, b: Boxed, convID: Bytes, messageID: nat): Message {
    if b.version <= 1 then Message(convID, messageID, c.hash(b.body.e), c.hash(b.header.e), b.client.prev)
    else Message(convID, messageID, BodyHash(c, b.body), HashOf(c, b), b.client.prev)
  }

  /** The server header with the time of receipt filled in. */
  function Stamped(server: ServerHeader, r: Receiver): ServerHeader {
    server.(rtime := Some(if server.rtime.Some? then server.rtime.value else r.now))
  }

  /** Whatever BoxMessage lets out, in any version, a receiver with the matching keys takes exactly when the
      listed conditions hold, and then gets the same body, the same signed header fields and its hashes. */
  lemma ReceivedIff(c: Crypto, m: Plaintext, version: nat, s: Services, pair: Pair, nonces: Nonces, server: ServerHeader,
                    conv: Conversation, ring: Keyring, r: Receiver)
    requires Laws(c) && BoxMessage(c, m, version, s, pair, nonces).Ok? && PairOK(c, pair)
    requires NoncesOK(nonces, version) && Matches(c, m, s, ring, r)
    ensures var b := BoxMessage(c, m, version, s, pair, nonces).value;
      var u := Receive(c, Delivered(b, server), conv, ring, r);
      && (u.Ok? <==> Receivable(c, m, version, s, pair, HashOf(c, b), server, conv, r))
      && (u.Ok? ==> u.value.body == m.body && CarriesCommon(u.value.header, Sent(m, version, s)))
      && (u.Ok? && version != 1 ==> Carries(u.value.header, Sent(m, version, s)))
      && (u.Ok? ==> Credited(u.value, m, version, s, pair, SenderKid(c, m, version, s, pair, r), Stamped(server, r), r))
      && (u.Ok? ==> Claimed(u.value, conv.convID, server.messageID) == MessageOf(c, b, conv.convID, server.messageID))
  {
    hide BoxMessage, Unbox, FindKeys, Laws, SenderHolds, Derivable, Names, HashOf, BodyHash, TellsSender, SenderKid, Receive, NotExploded, MessageOf, Credited;
    var stamped := Stamped(server, r);
    DerivableNames(c, m.header.conv, conv.convID);
    var b := BoxMessage(c, m, version, s, pair, nonces).value;
    ClientOf(c, m, version, s, pair, nonces);
    MessageIs(c, b, conv.convID, server.messageID);
    if version == 1 {
      UnboxesV1(c, m, s, pair, nonces, stamped, ring, r);
      V1Tells(c, m, s, pair, HashOf(c, b), r);
    } else {
      UnboxesV2(c, m, version, s, pair, nonces, stamped, ring, r);
    }
    ReceiveSteps(c, b, server, conv, ring, r);
  }

  /** UnboxMessage stamps the message, unboxes it and checks its header. */
  lemma ReceiveSteps(c: Crypto, b: Boxed, server: ServerHeader, conv: Conversation, ring: Keyring, r: Receiver)
    requires FindKeys(Delivered(b, server.(rtime := Some(Rtime(server, r.now)))), ring).Ok?
    ensures var d := Delivered(b, server.(rtime := Some(Rtime(server, r.now))));
      var u := Unbox(c, d, FindKeys(d, ring).value.0, FindKeys(d, ring).value.1, r);
      var res := Receive(c, Delivered(b, server), conv, ring, r);
      && (res.Ok? <==> b.client.conv.tlfid != [] && conv.isPublic == b.client.tlfPublic && u.Ok? && CheckHeader(c, conv, u.value).None?)
      && (res.Ok? ==> res == u)
  {
    hide Unbox, FindKeys, CheckHeader;
  }

  lemma V1Tells(c: Crypto, m: Plaintext, s: Services, pair: Pair, hash: Bytes, r: Receiver)
    requires !m.IsEphemeral()
    ensures TellsSender(c, m, 1, s, pair, hash, r) && SenderKid(c, m, 1, s, pair, r) == pair.kid && NotExploded(m.header)
  {
  }

  lemma MessageIs(c: Crypto, b: Boxed, convID: Bytes, messageID: nat)
    ensures b.version <= 1 ==> MessageOf(c, b, convID, messageID) == Message(convID, messageID, c.hash(b.body.e), c.hash(b.header.e), b.client.prev)
    ensures b.version > 1 ==> MessageOf(c, b, convID, messageID) == Message(convID, messageID, BodyHash(c, b.body), HashOf(c, b), b.client.prev)
  {
  }

  /******* With the hash table *******/

  /** What an unboxed message claims in the hash table. */
  function Claimed(u: Unboxed, convID: Bytes, messageID: nat): Message {
    Message(convID, messageID, u.bodyHash, u.headerHash, u.header.prev)
  }

  /** The table has the body hash under another conversation or message ID. */
  predicate OwnedByAnother(table: Table, m: Message) {
    BodyKey(m.bodyHash) in table && table[BodyKey(m.bodyHash)] != Owner(m.conv, m.id)
  }

  lemma FirstClaim(table: Table, m: Message)
    ensures Claims(m) != [] && (CheckOne(table, Claims(m)[0]).1 <==> !OwnedByAnother(table, m))
  {
  }

  /** UnboxMessage as a whole, on the table it finds. */
  function Accept(c: Crypto, table: Table, boxed: Boxed, conv: Conversation, ring: Keyring, r: Receiver): (Table, Result<Unboxed>) {
    var u := Receive(c, boxed, conv, ring, r);
    if u.Err? then (table, u)
    else
      var claims := Claims(Claimed(u.value, conv.convID, boxed.server.value.messageID));
      var (table', ok) := CheckAll(table, claims);
      (table', if ok then u else Err(if CheckOne(table, claims[0]).1 then Inconsistent else Replay))
  }

  /** Whatever BoxMessage lets out is accepted by a receiver with the matching keys exactly when the listed
      conditions hold and the receiver's table says nothing else of the message or its predecessors; and an
      accepted message can be accepted again. */
  lemma AcceptedIff(c: Crypto, m: Plaintext, version: nat, s: Services, pair: Pair, nonces: Nonces, server: ServerHeader,
                    conv: Conversation, ring: Keyring, r: Receiver, table: Table)
    requires Laws(c) && BoxMessage(c, m, version, s, pair, nonces).Ok? && PairOK(c, pair)
    requires NoncesOK(nonces, version) && Matches(c, m, s, ring, r)
    ensures var b := BoxMessage(c, m, version, s, pair, nonces).value;
      var (table', u) := Accept(c, table, Delivered(b, server), conv, ring, r);
      && (u.Ok? <==>
          && Receivable(c, m, version, s, pair, HashOf(c, b), server, conv, r)
          && Compatible(table, Claims(MessageOf(c, b, conv.convID, server.messageID))))
      && (u.Ok? ==> u.value.body == m.body && CarriesCommon(u.value.header, Sent(m, version, s)))
      && (u.Ok? && version != 1 ==> Carries(u.value.header, Sent(m, version, s)))
      && (u.Ok? ==> Credited(u.value, m, version, s, pair, SenderKid(c, m, version, s, pair, r), Stamped(server, r), r))
      && (u.Ok? ==> Accept(c, table', Delivered(b, server), conv, ring, r) == (table', u))
      && (u.Err? && Receivable(c, m, version, s, pair, HashOf(c, b), server, conv, r) ==>
            u == Err(if OwnedByAnother(table, MessageOf(c, b, conv.convID, server.messageID)) then Replay else Inconsistent))
  {
    hide BoxMessage, Receive, Laws, Receivable, Credited, Claims, MessageOf, CheckAll, CarriesCommon, Carries, Compatible, CheckOne, OwnedByAnother;
    ReceivedIff(c, m, version, s, pair, nonces, server, conv, ring, r);
    var b := BoxMessage(c, m, version, s, pair, nonces).value;
    var u := Receive(c, Delivered(b, server), conv, ring, r);
    if u.Ok? {
      var claims := Claims(Claimed(u.value, conv.convID, server.messageID));
      CheckAllIff(table, claims);
      FirstClaim(table, Claimed(u.value, conv.convID, server.messageID));
      if CheckAll(table, claims).1 { CheckedAgain(table, claims); }
    }
  }

  /** Checks that passed pass again and record nothing new. */
  lemma CheckedAgain(table: Table, cs: seq<Claim>)
    requires CheckAll(table, cs).1
    ensures CheckAll(CheckAll(table, cs).0, cs) == (CheckAll(table, cs).0, true)
  {
    CheckAllIff(table, cs);
    AllRecorded(CheckAll(table, cs).0, cs);
  }

  lemma {:induction false} AllRecorded(table: Table, cs: seq<Claim>)
    requires forall x :: x in cs ==> x.key in table && table[x.key] == x.value
    ensures CheckAll(table, cs) == (table, true)
  {
    if cs != [] {
      assert cs == cs[..|cs| - 1] + [cs[|cs| - 1]];
      AllRecorded(table, cs[..|cs| - 1]);
    }
  }
}
