/** What the header and body hashes pin down (go/chat/boxer.go:1100-1117, 1196-1233, 1758-1772). */
module BoxerHashes {
  import opened BoxerTypes
  import opened Boxer
  import opened Unboxer

  ghost predicate NoCollisions(c: Crypto) {
    forall x, y :: c.hash(x) == c.hash(y) ==> x == y
  }

  predicate IsInt32(v: int) {
    -0x8000_0000 <= v < 0x8000_0000
  }

  function FromWord(w: Bytes): int
    requires |w| == 4
  {
    var a: int, b: int, c: int, d: int := w[0], w[1], w[2], w[3];
    var u := a * 0x100_0000 + b * 0x1_0000 + c * 256 + d;
    if u < 0x8000_0000 then u else u - 0x1_0000_0000
  }

  lemma WordRoundTrip(v: int)
    requires IsInt32(v)
    ensures FromWord(Word(v)) == v
  {
    var u := v % 0x1_0000_0000;
    var q := u / 256;
    var p := q / 256;
    assert p == 256 * (p / 256) + p % 256 && q == 256 * p + q % 256 && u == 256 * q + u % 256;
  }

  /** With nonces of one length the preimage can be taken apart again. */
  lemma PreimageSplits(a: Sealed, b: Sealed)
    requires IsInt32(a.v) && IsInt32(b.v) && |a.n| == |b.n| && Word(a.v) + a.n + a.e == Word(b.v) + b.n + b.e
    ensures a == b
  {
    hide Word, FromWord;
    WordRoundTrip(a.v);
    WordRoundTrip(b.v);
    var x, y := Word(a.v) + a.n + a.e, Word(b.v) + b.n + b.e;
    assert x[..4] == Word(a.v) && y[..4] == Word(b.v);
    assert x[4..4 + |a.n|] == a.n && y[4..4 + |b.n|] == b.n;
    assert x[4 + |a.n|..] == a.e && y[4 + |b.n|..] == b.e;
  }

  /** Equal header hashes mean equal sealed headers: the nonce length is checked before hashing. */
  lemma HeaderHashPins(c: Crypto, a: Sealed, b: Sealed)
    requires NoCollisions(c) && IsInt32(a.v) && IsInt32(b.v)
    requires HeaderHash(c, a).Ok? && HeaderHash(c, a) == HeaderHash(c, b)
    ensures a == b
  {
    hide Word;
    PreimageSplits(a, b);
  }

  /** The body hash alone does not: bytes can move between nonce and ciphertext. */
  lemma BodyHashAmbiguous(c: Crypto, v: int, n: Bytes, x: Byte, e: Bytes)
    ensures BodyHash(c, Sealed(v, e, n + [x])) == BodyHash(c, Sealed(v, [x] + e, n))
    ensures Sealed(v, e, n + [x]) != Sealed(v, [x] + e, n)
  {
    hide Word;
    assert Word(v) + (n + [x]) + e == Word(v) + n + ([x] + e);
  }

  lemma UnboxedBody(c: Crypto, boxed: Boxed, key: Keys, ek: Keys, r: Receiver)
    requires UnboxV2(c, boxed, key, ek, r).Ok? && boxed.body.e != []
    ensures |boxed.body.n| == BodyNonceSize && UnboxV2(c, boxed, key, ek, r).value.bodyHash == BodyHash(c, boxed.body)
    ensures HeaderHash(c, boxed.header) == Ok(UnboxV2(c, boxed, key, ek, r).value.headerHash)
  {
    hide CompareHeaders, SenderKey, CheckSender, OpenHeaderV2, BodyHash, HeaderHash, VerifiedV2;
  }

  /** Yet two unboxed messages with the same body hash have the same body ciphertext, as opening it checks
      the nonce length; and equal header hashes mean equal sealed headers. */
  lemma UnboxedHashesPin(c: Crypto, a: Boxed, b: Boxed, ka: Keys, ea: Keys, kb: Keys, eb: Keys, ra: Receiver, rb: Receiver)
    requires NoCollisions(c) && UnboxV2(c, a, ka, ea, ra).Ok? && UnboxV2(c, b, kb, eb, rb).Ok?
    requires a.body.e != [] && b.body.e != [] && IsInt32(a.body.v) && IsInt32(b.body.v) && IsInt32(a.header.v) && IsInt32(b.header.v)
    ensures UnboxV2(c, a, ka, ea, ra).value.bodyHash == UnboxV2(c, b, kb, eb, rb).value.bodyHash ==> a.body == b.body
    ensures UnboxV2(c, a, ka, ea, ra).value.headerHash == UnboxV2(c, b, kb, eb, rb).value.headerHash ==> a.header == b.header
  {
    hide UnboxV2, HeaderHash, Word;
    UnboxedBody(c, a, ka, ea, ra);
    UnboxedBody(c, b, kb, eb, rb);
    if BodyHash(c, a.body) == BodyHash(c, b.body) { PreimageSplits(a.body, b.body); }
    if HeaderHash(c, a.header) == HeaderHash(c, b.header) { HeaderHashPins(c, a.header, b.header); }
  }

  /** A key that is valid for a message is valid, with the same revocation, for every earlier one; it stops
      being valid exactly at its revocation, unless its owner is deleted. */
  lemma SenderKeyExpiresOnce(k: KeyCheck, ctime: int, earlier: int)
    requires earlier <= ctime
    ensures ValidSenderKey(k, ctime).Ok? ==> ValidSenderKey(k, earlier) == ValidSenderKey(k, ctime)
    ensures ValidSenderKey(k, earlier).Ok? && ValidSenderKey(k, ctime).Err? <==>
      k.Checked? && k.found && !k.deleted && k.revokedAt.Some? && k.revokedAt.value != 0 && earlier < k.revokedAt.value <= ctime
  {
  }

  /** Nothing that is accepted differs from its signed header in a field the receiver compares. */
  lemma AcceptedHeaderIsSigned(c: Crypto, boxed: Boxed, key: Keys, ek: Keys, r: Receiver)
    requires UnboxV2(c, boxed, key, ek, r).Ok?
    ensures var v, h := UnboxV2(c, boxed, key, ek, r).value.header, boxed.client;
      && h.conv == v.conv && h.tlfName == v.tlfName && h.tlfPublic == v.tlfPublic && h.messageType == v.messageType
      && h.prev == v.prev && h.sender == v.sender && h.senderDevice == v.senderDevice
      && h.merkleRoot == v.merkleRoot && v.merkleRoot.Some? && h.outboxID == v.outboxID && h.outboxInfo == v.outboxInfo
      && (boxed.version > 2 ==> h.ephemeral == v.ephemeral && h.botUID == v.botUID)
    ensures boxed.client.pairwiseMacs == map[] ==> boxed.verifyKey.Some? && boxed.verifyKey.value != c.DummyKid()
  {
    hide BodyOfV2, OpenHeaderV2, BodyHash, HeaderHash, ValidatePairwiseMac, CheckSender;
  }
}

/** The table of hashes as the boxer changes it (go/chat/boxer.go:407-482; go/chat/storage/checkers.go:27-94). */
module BoxerTable {
  import opened BoxerTypes
  import opened C = BoxerChecks

  /** One check without interference. */
  function CheckOne(t: Table, c: Claim): (Table, bool) {
    if c.key !in t then (t[c.key := c.value], true) else (t, t[c.key] == c.value)
  }

  /** Checks are made in order up to the first that fails; what was recorded before stays. */
  function CheckAll(t: Table, cs: seq<Claim>): (Table, bool) {
    if cs == [] then (t, true)
    else
      var (t', ok) := CheckAll(t, cs[..|cs| - 1]);
      if !ok then (t', false) else CheckOne(t', cs[|cs| - 1])
  }

  /** Errors of the database make a check pass: unread, or passed but not recorded. */
  datatype Fault = Works | Unreadable | Unwritable

  function CheckFaulty(t: Table, c: Claim, f: Fault): (Table, bool) {
    match f
    case Works => CheckOne(t, c)
    case Unreadable => (t, true)
    case Unwritable => (t, CheckOne(t, c).1)
  }

  /** A table that cannot be read lets everything pass and records nothing; one that cannot be written checks and
      records nothing; one that works records what it has not seen. */
  lemma FaultyCheckIs(t: Table, c: Claim)
    ensures CheckFaulty(t, c, Unreadable) == (t, true)
    ensures CheckFaulty(t, c, Unwritable) == (t, c.key in t ==> t[c.key] == c.value)
    ensures CheckFaulty(t, c, Works) == (if c.key in t then (t, t[c.key] == c.value) else (t[c.key := c.value], true))
  {
  }

  function CheckEach(t: Table, cs: seq<Claim>, fs: seq<Fault>): (Table, bool)
    requires |cs| == |fs|
  {
    if cs == [] then (t, true)
    else
      var n := |cs| - 1;
      var (t', ok) := CheckEach(t, cs[..n], fs[..n]);
      if !ok then (t', false) else CheckFaulty(t', cs[n], fs[n])
  }

  lemma {:induction false} WorkingIsCheckAll(t: Table, cs: seq<Claim>, fs: seq<Fault>)
    requires |cs| == |fs| && forall f :: f in fs ==> f.Works?
    ensures CheckEach(t, cs, fs) == CheckAll(t, cs)
  {
    if cs != [] {
      assert fs[|cs| - 1] in fs;
      WorkingIsCheckAll(t, cs[..|cs| - 1], fs[..|cs| - 1]);
    }
  }

  /** Faults only ever let more through: what is compatible passes, and nothing recorded changes. */
  lemma {:induction false} FaultsLetThrough(t: Table, cs: seq<Claim>, fs: seq<Fault>)
    requires |cs| == |fs|
    ensures Compatible(t, cs) ==> CheckEach(t, cs, fs).1
    ensures forall k :: k in t ==> k in CheckEach(t, cs, fs).0 && CheckEach(t, cs, fs).0[k] == t[k]
    ensures forall k :: k in CheckEach(t, cs, fs).0 ==> k in t || Claim(k, CheckEach(t, cs, fs).0[k]) in cs
  {
    if cs != [] {
      var n := |cs| - 1;
      assert cs == cs[..n] + [cs[n]];
      FaultsLetThrough(t, cs[..n], fs[..n]);
      var t' := CheckEach(t, cs[..n], fs[..n]).0;
      assert Compatible(t, cs) ==> Compatible(t, cs[..n]);
      assert cs[n] in cs;
      assert Compatible(t, cs) && cs[n].key in t' ==> t'[cs[n].key] == cs[n].value;
    }
  }

  /** Neither the table nor another of the checks says otherwise. */
  ghost predicate Compatible(t: Table, cs: seq<Claim>) {
    && (forall c :: c in cs && c.key in t ==> t[c.key] == c.value)
    && (forall a, b :: a in cs && b in cs && a.key == b.key ==> a.value == b.value)
  }

  /** First writer wins: the checks pass exactly when they are compatible, and nothing recorded ever changes. */
  lemma {:induction false} CheckAllIff(t: Table, cs: seq<Claim>)
    ensures CheckAll(t, cs).1 <==> Compatible(t, cs)
    ensures forall k :: k in t ==> k in CheckAll(t, cs).0 && CheckAll(t, cs).0[k] == t[k]
    ensures CheckAll(t, cs).1 ==> forall c :: c in cs ==> c.key in CheckAll(t, cs).0 && CheckAll(t, cs).0[c.key] == c.value
    ensures CheckAll(t, cs).1 ==> forall k :: k in CheckAll(t, cs).0 ==> k in t || Claim(k, CheckAll(t, cs).0[k]) in cs
  {
    if cs != [] {
      var front, c := cs[..|cs| - 1], cs[|cs| - 1];
      assert cs == front + [c];
      CheckAllIff(t, front);
      var t' := CheckAll(t, front).0;
      if CheckAll(t, front).1 && c.key in t' && t'[c.key] != c.value {
        assert c.key in t || Claim(c.key, t'[c.key]) in front;
        assert c in cs && (Claim(c.key, t'[c.key]) in front ==> Claim(c.key, t'[c.key]) in cs);
        assert !Compatible(t, cs);
      } else if CheckAll(t, front).1 {
        NextCompatible(t, front, c, t');
      } else {
        assert Compatible(t, cs) ==> Compatible(t, front);
      }
    }
  }

  lemma NextCompatible(t: Table, front: seq<Claim>, c: Claim, t': Table)
    requires Compatible(t, front) && (c.key in t' ==> t'[c.key] == c.value)
    requires forall k :: k in t ==> k in t' && t'[k] == t[k]
    requires forall a :: a in front ==> a.key in t' && t'[a.key] == a.value
    ensures Compatible(t, front + [c])
  {
  }

  class HashTable {
    var table: Table

    constructor ()
      ensures table == map[]
    {
      table := map[];
    }

    method CheckAndRecord(c: Claim, f: Fault) returns (ok: bool)
      modifies this
      ensures (table, ok) == CheckFaulty(old(table), c, f)
    {
      if f.Unreadable? { return true; }
      if c.key in table { return table[c.key] == c.value; }
      if f.Works? { table := table[c.key := c.value]; }
      ok := true;
    }

    method CheckInvariants(m: Message, fs: seq<Fault>) returns (ok: bool)
      requires |fs| == |Claims(m)|
      modifies this
      ensures (table, ok) == CheckEach(old(table), Claims(m), fs)
      ensures (forall f :: f in fs ==> f.Works?) ==> (ok <==> Compatible(old(table), Claims(m)))
    {
      ghost var t := table;
      ghost var cs := Claims(m);
      if forall f :: f in fs ==> f.Works? {
        WorkingIsCheckAll(t, cs, fs);
        CheckAllIff(t, cs);
      }
      PrefixOnce(t, cs, fs, 0);
      PrefixOnce(t, cs, fs, 1);
      assert cs[..0] == [] && cs[0] == Claim(BodyKey(m.bodyHash), Owner(m.conv, m.id)) && cs[1] == Claim(PrevKey(m.conv, m.id), HeaderIs(m.headerHash));
      ok := CheckAndRecord(Claim(BodyKey(m.bodyHash), Owner(m.conv, m.id)), fs[0]);
      if !ok {
        StopsAt(t, cs, fs, 1);
        return;
      }
      ok := CheckAndRecord(Claim(PrevKey(m.conv, m.id), HeaderIs(m.headerHash)), fs[1]);
      if !ok {
        StopsAt(t, cs, fs, 2);
        return;
      }
      for i := 0 to |m.prev|
        invariant ok && (table, true) == CheckEach(t, cs[..i + 2], fs[..i + 2])
      {
        PrefixOnce(t, cs, fs, i + 2);
        assert cs[i + 2] == Claim(PrevKey(m.conv, m.prev[i].id), HeaderIs(m.prev[i].hash));
        ok := CheckAndRecord(Claim(PrevKey(m.conv, m.prev[i].id), HeaderIs(m.prev[i].hash)), fs[i + 2]);
        if !ok {
          StopsAt(t, cs, fs, i + 3);
          return;
        }
      }
      assert cs[..|m.prev| + 2] == cs && fs[..|m.prev| + 2] == fs;
    }
  }

  lemma PrefixOnce(t: Table, cs: seq<Claim>, fs: seq<Fault>, i: nat)
    requires i < |cs| == |fs|
    ensures CheckEach(t, cs[..i + 1], fs[..i + 1]) ==
      if CheckEach(t, cs[..i], fs[..i]).1 then CheckFaulty(CheckEach(t, cs[..i], fs[..i]).0, cs[i], fs[i]) else CheckEach(t, cs[..i], fs[..i])
  {
    assert cs[..i + 1][..i] == cs[..i] && fs[..i + 1][..i] == fs[..i];
  }

  /** After a failed check nothing more is recorded. */
  lemma {:induction false} StopsAt(t: Table, cs: seq<Claim>, fs: seq<Fault>, i: nat)
    requires i <= |cs| == |fs| && !CheckEach(t, cs[..i], fs[..i]).1
    ensures CheckEach(t, cs, fs) == CheckEach(t, cs[..i], fs[..i])
    decreases |cs| - i
  {
    if i < |cs| {
      PrefixOnce(t, cs, fs, i);
      StopsAt(t, cs, fs, i + 1);
    } else {
      assert cs[..i] == cs && fs[..i] == fs;
    }
  }
}
