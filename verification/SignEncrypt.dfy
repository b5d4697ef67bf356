/**
 Signing and encrypting a byte stream in packets of one megabyte (go/chat/signencrypt/codec.go): what the
 sealed stream is, and how it is opened again.
 */
module SignEncrypt {
  import opened Wrappers
  import opened BoxerTypes

  const BoxOverhead := 16
  const SignatureSize := 64
  const ChunkLen := 0x10_0000
  const PacketLen := ChunkLen + BoxOverhead + SignatureSize

  datatype Scheme = Scheme(
    seal: (Bytes, Bytes, Bytes) -> Bytes,           // plaintext, nonce, key
    open: (Bytes, Bytes, Bytes) -> Option<Bytes>,
    sign: (Bytes, Bytes) -> Bytes,                  // secret, input
    verify: (Bytes, Bytes, Bytes) -> bool,          // public key, input, signature
    publicKey: Bytes -> Bytes,
    hash: Bytes -> Bytes)

  ghost predicate SchemeLaws(s: Scheme) {
    && (forall m, n, k :: s.open(s.seal(m, n, k), n, k) == Some(m) && |s.seal(m, n, k)| == |m| + BoxOverhead)
    && (forall e, n, k :: |e| < BoxOverhead ==> s.open(e, n, k) == None)
    && (forall sk, x :: |s.sign(sk, x)| == SignatureSize && s.verify(s.publicKey(sk), x, s.sign(sk, x)))
  }

  /** The keys, prefix and nonce of one stream. */
  datatype Stream = Stream(s: Scheme, encKey: Bytes, prefix: Bytes, nonce: Bytes)

  /******* Packets *******/

  /** The n lowest bytes of a number, most significant first. */
  function BigEndian(x: nat, n: nat): (r: Bytes)
    ensures |r| == n
    decreases n
  {
    if n == 0 then [] else BigEndian(x / 256, n - 1) + [x % 256]
  }

  function ChunkNonce(nonce: Bytes, chunkNum: nat): Bytes {
    nonce + BigEndian(chunkNum, 8)
  }

  function SignatureInput(t: Stream, plaintext: Bytes, chunkNonce: Bytes): Bytes {
    t.prefix + [0] + t.encKey + chunkNonce + t.s.hash(plaintext)
  }

  function SealPacket(t: Stream, secret: Bytes, plaintext: Bytes, chunkNum: nat): Bytes {
    var nonce := ChunkNonce(t.nonce, chunkNum);
    t.s.seal(t.s.sign(secret, SignatureInput(t, plaintext, nonce)) + plaintext, nonce, t.encKey)
  }

  function OpenPacket(t: Stream, verifyKey: Bytes, packet: Bytes, chunkNum: nat): Option<Bytes> {
    var nonce := ChunkNonce(t.nonce, chunkNum);
    var signed := t.s.open(packet, nonce, t.encKey);
    if signed.None? || |signed.value| < SignatureSize then None
    else
      var plaintext := signed.value[SignatureSize..];
      if t.s.verify(verifyKey, SignatureInput(t, plaintext, nonce), signed.value[..SignatureSize]) then Some(plaintext) else None
  }

  lemma PacketRoundTrip(t: Stream, secret: Bytes, plaintext: Bytes, chunkNum: nat)
    requires SchemeLaws(t.s)
    ensures var p := SealPacket(t, secret, plaintext, chunkNum);
      |p| == |plaintext| + BoxOverhead + SignatureSize && OpenPacket(t, t.s.publicKey(secret), p, chunkNum) == Some(plaintext)
    ensures var nonce := ChunkNonce(t.nonce, chunkNum);
      t.s.open(SealPacket(t, secret, plaintext, chunkNum), nonce, t.encKey) ==
      Some(t.s.sign(secret, t.prefix + [0] + t.encKey + nonce + t.s.hash(plaintext)) + plaintext)
  {
    hide BigEndian, ChunkNonce;
    var nonce := ChunkNonce(t.nonce, chunkNum);
    var sig := t.s.sign(secret, SignatureInput(t, plaintext, nonce));
    assert (sig + plaintext)[..SignatureSize] == sig && (sig + plaintext)[SignatureSize..] == plaintext;
  }

  lemma EmptyPacketFails(t: Stream, verifyKey: Bytes, chunkNum: nat)
    requires SchemeLaws(t.s)
    ensures OpenPacket(t, verifyKey, [], chunkNum).None?
  {
  }

  /** 256 to the n */
  function Power(n: nat): nat {
    if n == 0 then 1 else 256 * Power(n - 1)
  }

  lemma {:induction false} BigEndianInjective(x: nat, y: nat, n: nat)
    requires x < Power(n) && y < Power(n) && BigEndian(x, n) == BigEndian(y, n)
    ensures x == y
  {
    if n > 0 {
      var p, q := BigEndian(x / 256, n - 1), BigEndian(y / 256, n - 1);
      assert (p + [x % 256])[..n - 1] == p && (q + [y % 256])[..n - 1] == q;
      assert (p + [x % 256])[n - 1] == x % 256 && (q + [y % 256])[n - 1] == y % 256;
      BigEndianInjective(x / 256, y / 256, n - 1);
    }
  }

  /** The number that bytes stand for, most significant first. */
  function Number(b: Bytes): nat {
    if b == [] then 0 else 256 * Number(b[..|b| - 1]) + b[|b| - 1]
  }

  lemma {:induction false} BigEndianIs(x: nat, n: nat)
    requires x < Power(n)
    ensures Number(BigEndian(x, n)) == x
  {
    if n > 0 {
      BigEndianIs(x / 256, n - 1);
      assert BigEndian(x, n)[..n - 1] == BigEndian(x / 256, n - 1);
    }
  }

  /** The nonce of a chunk is the nonce of the stream and the eight bytes of the chunk's number. */
  lemma ChunkNonceIs(nonce: Bytes, chunkNum: nat)
    requires chunkNum < Power(8)
    ensures var n := ChunkNonce(nonce, chunkNum);
      |n| == |nonce| + 8 && n[..|nonce|] == nonce && Number(n[|nonce|..]) == chunkNum
  {
    hide BigEndian, Power, Number;
    BigEndianIs(chunkNum, 8);
    assert ChunkNonce(nonce, chunkNum)[|nonce|..] == BigEndian(chunkNum, 8);
  }

  /** Whatever opens as a packet, from anybody, is sealed under the chunk's nonce and carries, before its plaintext, a
      valid signature of prefix, null byte, key, nonce and hash of that plaintext; and whatever does, opens. */
  lemma PacketOpensIff(t: Stream, verifyKey: Bytes, packet: Bytes, chunkNum: nat, sig: Bytes, plaintext: Bytes)
    requires |sig| == 64 && t.s.open(packet, ChunkNonce(t.nonce, chunkNum), t.encKey) == Some(sig + plaintext)
    ensures OpenPacket(t, verifyKey, packet, chunkNum) == Some(plaintext) <==>
      t.s.verify(verifyKey, t.prefix + [0] + t.encKey + ChunkNonce(t.nonce, chunkNum) + t.s.hash(plaintext), sig)
    ensures OpenPacket(t, verifyKey, packet, chunkNum).None? || OpenPacket(t, verifyKey, packet, chunkNum) == Some(plaintext)
  {
    hide ChunkNonce;
    assert (sig + plaintext)[..64] == sig && (sig + plaintext)[64..] == plaintext;
  }

  /** No two chunks of a stream share a nonce. */
  lemma ChunkNoncesDiffer(nonce: Bytes, i: nat, j: nat)
    requires i < Power(8) && j < Power(8) && i != j
    ensures ChunkNonce(nonce, i) != ChunkNonce(nonce, j)
  {
    hide BigEndian, Power;
    if ChunkNonce(nonce, i) == ChunkNonce(nonce, j) {
      assert ChunkNonce(nonce, i)[|nonce|..] == BigEndian(i, 8) && ChunkNonce(nonce, j)[|nonce|..] == BigEndian(j, 8);
      BigEndianInjective(i, j, 8);
    }
  }

  /** What is signed pins down the prefix, the key, the chunk and its hash, as the prefix has no null byte. */
  lemma SignatureInputPins(t: Stream, u: Stream, p: Bytes, q: Bytes, m: Bytes, n: Bytes)
    requires 0 !in t.prefix && 0 !in u.prefix && |t.encKey| == |u.encKey| && |m| == |n|
    requires SignatureInput(t, p, m) == SignatureInput(u, q, n)
    ensures t.prefix == u.prefix && t.encKey == u.encKey && m == n && t.s.hash(p) == u.s.hash(q)
  {
    var x := SignatureInput(t, p, m);
    FirstNull(t.prefix, t.encKey + m + t.s.hash(p), u.prefix, u.encKey + n + u.s.hash(q), x) by {
      assert x == t.prefix + [0] + (t.encKey + m + t.s.hash(p)) && x == u.prefix + [0] + (u.encKey + n + u.s.hash(q));
    }
    var a, b := t.encKey + m + t.s.hash(p), u.encKey + n + u.s.hash(q);
    var l := |t.encKey|;
    assert a[..l] == t.encKey && b[..l] == u.encKey;
    assert a[l..l + |m|] == m && b[l..l + |n|] == n;
    assert a[l + |m|..] == t.s.hash(p) && b[l + |n|..] == u.s.hash(q);
  }

  /** The first null byte ends the prefix. */
  lemma FirstNull(p: Bytes, a: Bytes, q: Bytes, b: Bytes, x: Bytes)
    requires 0 !in p && 0 !in q && x == p + [0] + a == q + [0] + b
    ensures p == q && a == b
  {
    assert x[|p|] == 0 && x[|q|] == 0;
    assert forall i :: 0 <= i < |p| ==> x[i] == p[i] && p[i] in p;
    assert forall i :: 0 <= i < |q| ==> x[i] == q[i] && q[i] in q;
    assert x[..|p|] == p && x[..|q|] == q && x[|p| + 1..] == a && x[|q| + 1..] == b;
  }

  /******* Whole streams *******/

  /** Full packets, then exactly one short one, which may be empty. */
  function SealFrom(t: Stream, secret: Bytes, plaintext: Bytes, chunkNum: nat): Bytes
    decreases |plaintext|
  {
    if |plaintext| < ChunkLen then SealPacket(t, secret, plaintext, chunkNum)
    else SealPacket(t, secret, plaintext[..ChunkLen], chunkNum) + SealFrom(t, secret, plaintext[ChunkLen..], chunkNum + 1)
  }

  function OpenFrom(t: Stream, verifyKey: Bytes, sealed: Bytes, chunkNum: nat): Option<Bytes>
    decreases |sealed|
  {
    if |sealed| < PacketLen then OpenPacket(t, verifyKey, sealed, chunkNum)
    else
      var head := OpenPacket(t, verifyKey, sealed[..PacketLen], chunkNum);
      if head.None? then None else Then(head.value, OpenFrom(t, verifyKey, sealed[PacketLen..], chunkNum + 1))
  }

  function Then(head: Bytes, rest: Option<Bytes>): Option<Bytes> {
    if rest.None? then None else Some(head + rest.value)
  }

  function SealedSize(n: nat): nat {
    n / ChunkLen * PacketLen + n % ChunkLen + BoxOverhead + SignatureSize
  }

  function PlaintextSize(n: nat): int {
    n / PacketLen * ChunkLen + n % PacketLen - (BoxOverhead + SignatureSize)
  }

  lemma SizesInvert(n: nat)
    ensures PlaintextSize(SealedSize(n)) == n
  {
    var q, r := n / ChunkLen, n % ChunkLen + BoxOverhead + SignatureSize;
    assert SealedSize(n) == q * PacketLen + r && r < PacketLen;
  }

  lemma SizeStep(n: nat)
    ensures SealedSize(n) == if n < ChunkLen then n + BoxOverhead + SignatureSize else PacketLen + SealedSize(n - ChunkLen)
  {
    if n >= ChunkLen { assert n / ChunkLen == (n - ChunkLen) / ChunkLen + 1 && n % ChunkLen == (n - ChunkLen) % ChunkLen; }
  }

  lemma {:induction false} SealedLength(t: Stream, secret: Bytes, plaintext: Bytes, chunkNum: nat)
    requires SchemeLaws(t.s)
    ensures |SealFrom(t, secret, plaintext, chunkNum)| == SealedSize(|plaintext|)
    decreases |plaintext|
  {
    hide SchemeLaws, SealPacket, SealedSize, OpenPacket;
    SizeStep(|plaintext|);
    if |plaintext| < ChunkLen {
      PacketRoundTrip(t, secret, plaintext, chunkNum);
    } else {
      PacketRoundTrip(t, secret, plaintext[..ChunkLen], chunkNum);
      SealedLength(t, secret, plaintext[ChunkLen..], chunkNum + 1);
    }
  }

  /** Opening undoes sealing. */
  lemma {:induction false} RoundTrip(t: Stream, secret: Bytes, plaintext: Bytes, chunkNum: nat)
    requires SchemeLaws(t.s)
    ensures OpenFrom(t, t.s.publicKey(secret), SealFrom(t, secret, plaintext, chunkNum), chunkNum) == Some(plaintext)
    decreases |plaintext|
  {
    hide SchemeLaws, SealPacket, OpenPacket;
    if |plaintext| < ChunkLen {
      PacketRoundTrip(t, secret, plaintext, chunkNum);
    } else {
      var head, rest := SealPacket(t, secret, plaintext[..ChunkLen], chunkNum), SealFrom(t, secret, plaintext[ChunkLen..], chunkNum + 1);
      PacketRoundTrip(t, secret, plaintext[..ChunkLen], chunkNum);
      RoundTrip(t, secret, plaintext[ChunkLen..], chunkNum + 1);
      assert (head + rest)[..PacketLen] == head && (head + rest)[PacketLen..] == rest;
      assert plaintext[..ChunkLen] + plaintext[ChunkLen..] == plaintext;
    }
  }

  /** A stream cut off after any number of its full packets does not open. */
  lemma {:induction false} TruncationIsNoticed(t: Stream, secret: Bytes, plaintext: Bytes, chunkNum: nat, n: nat)
    requires SchemeLaws(t.s) && n <= |plaintext| / ChunkLen
    ensures n * PacketLen <= |SealFrom(t, secret, plaintext, chunkNum)|
    ensures OpenFrom(t, t.s.publicKey(secret), SealFrom(t, secret, plaintext, chunkNum)[..n * PacketLen], chunkNum).None?
    decreases n
  {
    hide SchemeLaws, SealPacket, OpenPacket;
    SealedLength(t, secret, plaintext, chunkNum);
    var cut := SealFrom(t, secret, plaintext, chunkNum)[..n * PacketLen];
    if n == 0 {
      EmptyPacketFails(t, t.s.publicKey(secret), chunkNum);
      assert cut == [];
    } else {
      var head, rest := SealPacket(t, secret, plaintext[..ChunkLen], chunkNum), SealFrom(t, secret, plaintext[ChunkLen..], chunkNum + 1);
      PacketRoundTrip(t, secret, plaintext[..ChunkLen], chunkNum);
      TruncationIsNoticed(t, secret, plaintext[ChunkLen..], chunkNum + 1, n - 1);
      assert cut == head + rest[..(n - 1) * PacketLen];
      assert cut[..PacketLen] == head && cut[PacketLen..] == rest[..(n - 1) * PacketLen];
    }
  }
}
