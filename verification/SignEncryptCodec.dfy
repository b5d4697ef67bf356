/** The incremental encoder and decoder (go/chat/signencrypt/codec.go:218-378, 549-566). */
module SignEncryptCodec {
  import opened Wrappers
  import opened BoxerTypes
  import opened SignEncrypt

  /** The full packets of sealed opened, the bytes left over, and the number of the next chunk. */
  datatype Opened = Opened(plain: Bytes, rest: Bytes, next: nat)

  function OpenFull(t: Stream, verifyKey: Bytes, sealed: Bytes, chunkNum: nat): Option<Opened>
    decreases |sealed|
  {
    if |sealed| < PacketLen then Some(Opened([], sealed, chunkNum))
    else
      var head := OpenPacket(t, verifyKey, sealed[..PacketLen], chunkNum);
      if head.None? then None
      else
        var o := OpenFull(t, verifyKey, sealed[PacketLen..], chunkNum + 1);
        if o.None? then None else Some(o.value.(plain := head.value + o.value.plain))
  }

  /** Opening the full packets early changes nothing about the whole. */
  lemma {:induction false} OpenFullThen(t: Stream, verifyKey: Bytes, sealed: Bytes, more: Bytes, chunkNum: nat)
    ensures var o := OpenFull(t, verifyKey, sealed, chunkNum);
      && (o.Some? ==> |o.value.rest| < PacketLen)
      && OpenFrom(t, verifyKey, sealed + more, chunkNum) ==
         if o.None? then None else Then(o.value.plain, OpenFrom(t, verifyKey, o.value.rest + more, o.value.next))
    decreases |sealed|
  {
    hide OpenPacket;
    var all := sealed + more;
    if |sealed| < PacketLen {
      var r := OpenFrom(t, verifyKey, all, chunkNum);
      assert r.Some? ==> [] + r.value == r.value;
    } else {
      assert all[..PacketLen] == sealed[..PacketLen] && all[PacketLen..] == sealed[PacketLen..] + more;
      OpenFullThen(t, verifyKey, sealed[PacketLen..], more, chunkNum + 1);
      var head, o := OpenPacket(t, verifyKey, sealed[..PacketLen], chunkNum), OpenFull(t, verifyKey, sealed[PacketLen..], chunkNum + 1);
      if head.Some? && o.Some? {
        var r := OpenFrom(t, verifyKey, o.value.rest + more, o.value.next);
        if r.Some? { assert head.value + (o.value.plain + r.value) == head.value + o.value.plain + r.value; }
      }
    }
  }

  /** Opening in two goes: the second starts from what the first left over. */
  lemma {:induction false} OpenFullTwice(t: Stream, verifyKey: Bytes, sealed: Bytes, more: Bytes, chunkNum: nat)
    ensures var o := OpenFull(t, verifyKey, sealed, chunkNum);
      OpenFull(t, verifyKey, sealed + more, chunkNum) ==
      if o.None? then None else Prefixed(o.value.plain, OpenFull(t, verifyKey, o.value.rest + more, o.value.next))
    decreases |sealed|
  {
    hide OpenPacket;
    var all := sealed + more;
    if |sealed| < PacketLen {
      PrefixedNothing(OpenFull(t, verifyKey, all, chunkNum));
    } else {
      assert all[..PacketLen] == sealed[..PacketLen] && all[PacketLen..] == sealed[PacketLen..] + more;
      OpenFullTwice(t, verifyKey, sealed[PacketLen..], more, chunkNum + 1);
      var head, o := OpenPacket(t, verifyKey, sealed[..PacketLen], chunkNum), OpenFull(t, verifyKey, sealed[PacketLen..], chunkNum + 1);
      if head.Some? && o.Some? {
        PrefixedTwice(head.value, o.value.plain, OpenFull(t, verifyKey, o.value.rest + more, o.value.next));
      }
    }
  }

  function Prefixed(head: Bytes, o: Option<Opened>): Option<Opened> {
    if o.None? then None else Some(o.value.(plain := head + o.value.plain))
  }

  lemma PrefixedTwice(a: Bytes, b: Bytes, o: Option<Opened>)
    ensures Prefixed(a, Prefixed(b, o)) == Prefixed(a + b, o)
  {
    if o.Some? { assert a + (b + o.value.plain) == a + b + o.value.plain; }
  }

  lemma PrefixedNothing(o: Option<Opened>)
    ensures Prefixed([], o) == o
  {
    if o.Some? { assert [] + o.value.plain == o.value.plain; }
  }

  /** The full packets of plaintext sealed, the bytes left over, and the number of the next chunk. */
  datatype Packed = Packed(out: Bytes, rest: Bytes, next: nat)

  function SealFull(t: Stream, secret: Bytes, plaintext: Bytes, chunkNum: nat): (p: Packed)
    ensures |p.rest| < ChunkLen
    decreases |plaintext|
  {
    if |plaintext| < ChunkLen then Packed([], plaintext, chunkNum)
    else
      var p := SealFull(t, secret, plaintext[ChunkLen..], chunkNum + 1);
      p.(out := SealPacket(t, secret, plaintext[..ChunkLen], chunkNum) + p.out)
  }

  /** What has come out already, and what is still to come. */
  function After(out: Bytes, p: Packed): Packed {
    p.(out := out + p.out)
  }

  lemma SealFullNext(t: Stream, secret: Bytes, plaintext: Bytes, chunkNum: nat, out: Bytes)
    requires |plaintext| >= ChunkLen
    ensures After(out, SealFull(t, secret, plaintext, chunkNum)) ==
      After(out + SealPacket(t, secret, plaintext[..ChunkLen], chunkNum), SealFull(t, secret, plaintext[ChunkLen..], chunkNum + 1))
  {
    hide SealPacket;
    var packet, p := SealPacket(t, secret, plaintext[..ChunkLen], chunkNum), SealFull(t, secret, plaintext[ChunkLen..], chunkNum + 1);
    assert out + (packet + p.out) == out + packet + p.out;
  }

  lemma SealFullDone(t: Stream, secret: Bytes, plaintext: Bytes, chunkNum: nat, out: Bytes)
    requires |plaintext| < ChunkLen
    ensures After(out, SealFull(t, secret, plaintext, chunkNum)) == Packed(out, plaintext, chunkNum)
  {
    assert out + [] == out;
  }

  lemma {:induction false} SealFullThen(t: Stream, secret: Bytes, plaintext: Bytes, chunkNum: nat)
    ensures var p := SealFull(t, secret, plaintext, chunkNum);
      SealFrom(t, secret, plaintext, chunkNum) == p.out + SealFrom(t, secret, p.rest, p.next)
    decreases |plaintext|
  {
    hide SealPacket;
    if |plaintext| >= ChunkLen {
      SealFullThen(t, secret, plaintext[ChunkLen..], chunkNum + 1);
      var head, p := SealPacket(t, secret, plaintext[..ChunkLen], chunkNum), SealFull(t, secret, plaintext[ChunkLen..], chunkNum + 1);
      assert head + (p.out + SealFrom(t, secret, p.rest, p.next)) == head + p.out + SealFrom(t, secret, p.rest, p.next);
    }
  }

  lemma {:induction false} SealFullTwice(t: Stream, secret: Bytes, plaintext: Bytes, more: Bytes, chunkNum: nat)
    ensures var p := SealFull(t, secret, plaintext, chunkNum);
      var q := SealFull(t, secret, p.rest + more, p.next);
      SealFull(t, secret, plaintext + more, chunkNum) == q.(out := p.out + q.out)
    decreases |plaintext|
  {
    hide SealPacket;
    var all := plaintext + more;
    if |plaintext| < ChunkLen {
      var q := SealFull(t, secret, all, chunkNum);
      assert [] + q.out == q.out;
    } else {
      assert all[..ChunkLen] == plaintext[..ChunkLen] && all[ChunkLen..] == plaintext[ChunkLen..] + more;
      SealFullTwice(t, secret, plaintext[ChunkLen..], more, chunkNum + 1);
      var head, p := SealPacket(t, secret, plaintext[..ChunkLen], chunkNum), SealFull(t, secret, plaintext[ChunkLen..], chunkNum + 1);
      var q := SealFull(t, secret, p.rest + more, p.next);
      assert head + (p.out + q.out) == head + p.out + q.out;
    }
  }

  function Concat(chunks: seq<Bytes>): Bytes {
    if chunks == [] then [] else Concat(chunks[..|chunks| - 1]) + chunks[|chunks| - 1]
  }

  class Encoder {
    const stream: Stream
    const secret: Bytes
    var buf: Bytes
    var chunkNum: nat

    constructor (t: Stream, sk: Bytes)
      ensures stream == t && secret == sk && buf == [] && chunkNum == 0
    {
      stream, secret, buf, chunkNum := t, sk, [], 0;
    }

    method SealOnePacket(len: nat) returns (packet: Bytes)
      requires len <= |buf|
      modifies this
      ensures packet == SealPacket(stream, secret, old(buf)[..len], old(chunkNum))
      ensures buf == old(buf)[len..] && chunkNum == old(chunkNum) + 1
    {
      packet := SealPacket(stream, secret, buf[..len], chunkNum);
      buf := buf[len..];
      chunkNum := chunkNum + 1;
    }

    method Write(plaintext: Bytes) returns (output: Bytes)
      modifies this
      ensures Packed(output, buf, chunkNum) == SealFull(stream, secret, old(buf) + plaintext, old(chunkNum))
    {
      hide SealFull;
      buf := buf + plaintext;
      output := [];
      ghost var whole := SealFull(stream, secret, buf, chunkNum);
      assert [] + whole.out == whole.out;
      while |buf| >= ChunkLen
        invariant whole == After(output, SealFull(stream, secret, buf, chunkNum))
        decreases |buf|
      {
        SealFullNext(stream, secret, buf, chunkNum, output);
        var packet := SealOnePacket(ChunkLen);
        output := output + packet;
      }
      SealFullDone(stream, secret, buf, chunkNum, output);
    }

    method Finish() returns (output: Bytes)
      requires |buf| < ChunkLen
      modifies this
      ensures output == SealFrom(stream, secret, old(buf), old(chunkNum))
    {
      output := SealOnePacket(|buf|);
      assert old(buf)[..|old(buf)|] == old(buf);
    }
  }

  class Decoder {
    const stream: Stream
    const verifyKey: Bytes
    var buf: Bytes
    var chunkNum: nat
    var failed: bool

    constructor (t: Stream, vk: Bytes, first: nat)
      ensures stream == t && verifyKey == vk && buf == [] && chunkNum == first && !failed
    {
      stream, verifyKey, buf, chunkNum, failed := t, vk, [], first, false;
    }

    method OpenOnePacket(len: nat) returns (plaintext: Option<Bytes>)
      requires len <= |buf|
      modifies this`buf, this`chunkNum
      ensures plaintext == OpenPacket(stream, verifyKey, old(buf)[..len], old(chunkNum))
      ensures plaintext.Some? ==> buf == old(buf)[len..] && chunkNum == old(chunkNum) + 1
      ensures plaintext.None? ==> buf == old(buf) && chunkNum == old(chunkNum)
    {
      plaintext := OpenPacket(stream, verifyKey, buf[..len], chunkNum);
      if plaintext.Some? {
        buf := buf[len..];
        chunkNum := chunkNum + 1;
      }
    }

    /** All full packets are opened, or the decoder has failed for good. */
    method Write(ciphertext: Bytes) returns (output: Option<Bytes>)
      modifies this
      ensures old(failed) ==> failed && output.None?
      ensures !old(failed) ==>
        var o := OpenFull(stream, verifyKey, old(buf) + ciphertext, old(chunkNum));
        && (failed <==> o.None?) && (output.None? <==> o.None?)
        && (o.Some? ==> output.value == o.value.plain && buf == o.value.rest && chunkNum == o.value.next)
    {
      if failed { return None; }
      buf := buf + ciphertext;
      var out := [];
      ghost var whole := OpenFull(stream, verifyKey, buf, chunkNum);
      PrefixedNothing(whole);
      while |buf| >= PacketLen
        invariant !failed
        invariant whole == Prefixed(out, OpenFull(stream, verifyKey, buf, chunkNum))
        decreases |buf|
      {
        var plaintext := OpenOnePacket(PacketLen);
        if plaintext.None? {
          failed := true;
          return None;
        }
        PrefixedTwice(out, plaintext.value, OpenFull(stream, verifyKey, buf, chunkNum));
        out := out + plaintext.value;
      }
      output := Some(out);
      assert out + [] == out;
    }

    method Finish() returns (output: Option<Bytes>)
      requires !failed ==> |buf| < PacketLen
      modifies this
      ensures output == if old(failed) then None else OpenFrom(stream, verifyKey, old(buf), old(chunkNum))
    {
      if failed { return None; }
      output := OpenOnePacket(|buf|);
      assert old(buf)[..|old(buf)|] == old(buf);
      failed := output.None?;
    }
  }

  /******* Streaming, whatever the pieces *******/


  /** However the plaintext is cut into writes, the sealed stream is the same. */
  method EncodeAll(t: Stream, secret: Bytes, chunks: seq<Bytes>) returns (sealed: Bytes)
    ensures sealed == SealFrom(t, secret, Concat(chunks), 0)
  {
    hide SealFrom, SealFull;
    var e := new Encoder(t, secret);
    sealed := [];
    SealNothing(t, secret);
    for i := 0 to |chunks|
      invariant e.stream == t && e.secret == secret && fresh(e)
      invariant Packed(sealed, e.buf, e.chunkNum) == SealFull(t, secret, Concat(chunks[..i]), 0)
    {
      assert chunks[..i + 1][..i] == chunks[..i];
      SealFullTwice(t, secret, Concat(chunks[..i]), chunks[i], 0);
      var output := e.Write(chunks[i]);
      sealed := sealed + output;
    }
    assert chunks[..|chunks|] == chunks;
    SealFullThen(t, secret, Concat(chunks), 0);
    var last := e.Finish();
    sealed := sealed + last;
  }

  lemma SealNothing(t: Stream, secret: Bytes)
    ensures SealFull(t, secret, [], 0) == Packed([], [], 0)
  {
  }

  /** However the sealed stream is cut into writes, valid or not, it decodes as the whole does. */
  method DecodeAll(t: Stream, verifyKey: Bytes, chunks: seq<Bytes>) returns (plaintext: Option<Bytes>)
    ensures plaintext == OpenFrom(t, verifyKey, Concat(chunks), 0)
  {
    hide OpenFrom, OpenFull;
    var d := new Decoder(t, verifyKey, 0);
    var out := [];
    OpenNothing(t, verifyKey);
    for i := 0 to |chunks|
      invariant d.stream == t && d.verifyKey == verifyKey && fresh(d)
      invariant d.failed <==> OpenFull(t, verifyKey, Concat(chunks[..i]), 0).None?
      invariant !d.failed ==> OpenFull(t, verifyKey, Concat(chunks[..i]), 0) == Some(Opened(out, d.buf, d.chunkNum))
    {
      assert chunks[..i + 1][..i] == chunks[..i];
      OpenFullTwice(t, verifyKey, Concat(chunks[..i]), chunks[i], 0);
      var output := d.Write(chunks[i]);
      if output.Some? { out := out + output.value; }
    }
    assert chunks[..|chunks|] == chunks;
    var all := Concat(chunks);
    OpenFullThen(t, verifyKey, all, [], 0);
    assert all + [] == all;
    if !d.failed { assert d.buf + [] == d.buf; }
    var last := d.Finish();
    plaintext := if last.None? then None else Some(out + last.value);
  }

  lemma OpenNothing(t: Stream, verifyKey: Bytes)
    ensures OpenFull(t, verifyKey, [], 0) == Some(Opened([], [], 0))
  {
  }

  /** Written in any pieces, sent, and read in any other pieces. */
  lemma StreamsRoundTrip(t: Stream, secret: Bytes, written: seq<Bytes>, read: seq<Bytes>)
    requires SchemeLaws(t.s) && Concat(read) == SealFrom(t, secret, Concat(written), 0)
    ensures OpenFrom(t, t.s.publicKey(secret), Concat(read), 0) == Some(Concat(written))
  {
    RoundTrip(t, secret, Concat(written), 0);
  }

  /** The sealing that the boxer relies on: signencrypt with the scheme's primitives. */
  ghost predicate UsesSignEncrypt(c: Crypto, s: Scheme, prefixBytes: Prefix -> Bytes) {
    && (forall sk :: c.publicKey(sk) == s.publicKey(sk))
    && (forall m, k, sk, p, n :: c.signSeal(m, k, sk, p, n) == SealFrom(Stream(s, k, prefixBytes(p), n), sk, m, 0))
    && (forall e, k, vk, p, n :: c.signOpen(e, k, vk, p, n) == OpenFrom(Stream(s, k, prefixBytes(p), n), vk, e, 0))
  }

  /** So the law the boxer needs of sign-sealing is one that signencrypt meets. */
  lemma SignSealLawHolds(c: Crypto, s: Scheme, prefixBytes: Prefix -> Bytes)
    requires SchemeLaws(s) && UsesSignEncrypt(c, s, prefixBytes)
    ensures SignSealLaw(c)
  {
    hide SealFrom, OpenFrom, SchemeLaws;
    forall m, k, sk, p, n ensures c.signOpen(c.signSeal(m, k, sk, p, n), k, c.publicKey(sk), p, n) == Some(m) {
      RoundTrip(Stream(s, k, prefixBytes(p), n), sk, m, 0);
    }
  }
}
