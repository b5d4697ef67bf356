/**
 Random access to a sealed attachment: only the packets around the wanted bytes are fetched and opened, and
 opened chunks are cached (go/chat/signencrypt/codec.go:495-546, go/chat/signencrypt/seeker.go:49-192).
 */
module ReadSeeker {
  import opened Wrappers
  import opened BoxerTypes
  import opened SignEncrypt
  import opened SignEncryptCodec

  datatype ChunkSpec = ChunkSpec(index: nat, ptStart: nat, ptEnd: nat, cipherStart: nat, cipherEnd: nat)

  function ChunkFromIndex(i: nat): ChunkSpec {
    ChunkSpec(i, i * ChunkLen, i * ChunkLen + ChunkLen, i * PacketLen, i * PacketLen + PacketLen)
  }

  /** Chunk i of a plaintext of length len: all chunks are full but the last, which may be empty. */
  function ChunkAt(i: nat, len: nat): (c: ChunkSpec)
    requires i <= len / ChunkLen
    ensures c.index == i && c.ptStart == i * ChunkLen <= c.ptEnd <= len && c.cipherStart == i * PacketLen <= c.cipherEnd <= SealedSize(len)
    ensures i < len / ChunkLen ==> c.ptEnd == (i + 1) * ChunkLen && c.cipherEnd == (i + 1) * PacketLen
    ensures i == len / ChunkLen ==> c.ptEnd == len && c.cipherEnd == SealedSize(len)
  {
    if i < len / ChunkLen then ChunkFromIndex(i) else ChunkFromIndex(i).(ptEnd := len, cipherEnd := SealedSize(len))
  }

  method GetChunksInRange(begin: nat, end: nat, len: nat) returns (res: seq<ChunkSpec>)
    requires begin <= end <= len
    ensures |res| == end / ChunkLen - begin / ChunkLen + 1
    ensures forall j :: 0 <= j < |res| ==> res[j] == ChunkAt(begin / ChunkLen + j, len)
  {
    var first, last := begin / ChunkLen, end / ChunkLen;
    res := [];
    for i := first to last + 1
      invariant |res| == i - first
      invariant forall j :: 0 <= j < |res| ==> res[j] == ChunkFromIndex(first + j)
    {
      res := res + [ChunkFromIndex(i)];
    }
    var k := |res| - 1;
    if res[k].ptEnd >= len { res := res[k := res[k].(ptEnd := len)]; }
    if res[k].cipherEnd >= SealedSize(len) { res := res[k := res[k].(cipherEnd := SealedSize(len))]; }
  }

  /** The plaintext of chunks a to b. */
  function Span(pt: Bytes, a: nat, b: nat): Bytes
    requires a <= b <= |pt| / ChunkLen
  {
    pt[a * ChunkLen..ChunkAt(b, |pt|).ptEnd]
  }

  lemma SpanGrows(pt: Bytes, a: nat, b: nat)
    requires a < b <= |pt| / ChunkLen
    ensures Span(pt, a, b) == Span(pt, a, b - 1) + Span(pt, b, b)
  {
  }

  /******* Opening a part of the stream *******/

  lemma {:induction false} DropPackets(t: Stream, secret: Bytes, pt: Bytes, k: nat, n: nat)
    requires SchemeLaws(t.s) && n <= |pt| / ChunkLen
    ensures n * PacketLen <= |SealFrom(t, secret, pt, k)|
    ensures SealFrom(t, secret, pt, k)[n * PacketLen..] == SealFrom(t, secret, pt[n * ChunkLen..], k + n)
    decreases n
  {
    hide SchemeLaws, SealPacket, SealedSize, SealFrom;
    var whole := SealFrom(t, secret, pt, k);
    if n == 0 {
      assert whole[0..] == whole && pt[0..] == pt;
    } else {
      SealsFirst(t, secret, pt, k);
      DropPackets(t, secret, pt[ChunkLen..], k + 1, n - 1);
      assert whole[n * PacketLen..] == whole[PacketLen..][(n - 1) * PacketLen..];
      assert pt[ChunkLen..][(n - 1) * ChunkLen..] == pt[n * ChunkLen..];
    }
  }

  /** The first packet of a stream with a full chunk, and the rest. */
  lemma SealsFirst(t: Stream, secret: Bytes, pt: Bytes, k: nat)
    requires SchemeLaws(t.s) && |pt| >= ChunkLen
    ensures var whole := SealFrom(t, secret, pt, k);
      && |whole| >= PacketLen && whole[..PacketLen] == SealPacket(t, secret, pt[..ChunkLen], k)
      && whole[PacketLen..] == SealFrom(t, secret, pt[ChunkLen..], k + 1)
  {
    hide SchemeLaws, SealPacket;
    PacketRoundTrip(t, secret, pt[..ChunkLen], k);
  }

  lemma {:induction false} OpenPrefix(t: Stream, secret: Bytes, pt: Bytes, k: nat, n: nat)
    requires SchemeLaws(t.s) && n <= |pt| / ChunkLen
    ensures n * PacketLen <= |SealFrom(t, secret, pt, k)|
    ensures OpenFull(t, t.s.publicKey(secret), SealFrom(t, secret, pt, k)[..n * PacketLen], k) == Some(Opened(pt[..n * ChunkLen], [], k + n))
    decreases n
  {
    hide SchemeLaws, SealPacket, OpenPacket, SealedSize, SealFrom;
    var whole := SealFrom(t, secret, pt, k);
    if n > 0 {
      SealsFirst(t, secret, pt, k);
      PacketRoundTrip(t, secret, pt[..ChunkLen], k);
      OpenPrefix(t, secret, pt[ChunkLen..], k + 1, n - 1);
      var cut := whole[..n * PacketLen];
      assert cut[..PacketLen] == whole[..PacketLen] && cut[PacketLen..] == whole[PacketLen..][..(n - 1) * PacketLen];
      assert pt[..ChunkLen] + pt[ChunkLen..][..(n - 1) * ChunkLen] == pt[..n * ChunkLen];
    }
  }

  /** What the decoder gives for the packets a to b, when a failing Finish is ignored. */
  function Decoded(t: Stream, verifyKey: Bytes, sealed: Bytes, first: nat): Option<Bytes> {
    var o := OpenFull(t, verifyKey, sealed, first);
    if o.None? then None
    else
      var last := OpenFrom(t, verifyKey, o.value.rest, o.value.next);
      Some(if last.Some? then o.value.plain + last.value else o.value.plain)
  }

  /** The last packets, up to and including the short one. */
  lemma DecodesTail(t: Stream, secret: Bytes, q: Bytes, a: nat)
    requires SchemeLaws(t.s)
    ensures Decoded(t, t.s.publicKey(secret), SealFrom(t, secret, q, a), a) == Some(q)
  {
    hide SchemeLaws, SealFrom, OpenFrom, OpenFull;
    var part, vk := SealFrom(t, secret, q, a), t.s.publicKey(secret);
    RoundTrip(t, secret, q, a);
    OpenFullThen(t, vk, part, [], a);
    assert part + [] == part;
    var o := OpenFull(t, vk, part, a);
    assert o.value.rest + [] == o.value.rest;
  }

  /** n full packets, after which nothing is left to finish. */
  lemma DecodesFull(t: Stream, secret: Bytes, q: Bytes, a: nat, n: nat)
    requires SchemeLaws(t.s) && n <= |q| / ChunkLen
    ensures n * PacketLen <= |SealFrom(t, secret, q, a)|
    ensures Decoded(t, t.s.publicKey(secret), SealFrom(t, secret, q, a)[..n * PacketLen], a) == Some(q[..n * ChunkLen])
  {
    hide SchemeLaws, SealFrom, OpenFrom, OpenFull;
    OpenPrefix(t, secret, q, a, n);
    NothingMore(t, t.s.publicKey(secret), a + n);
  }

  ghost predicate IsSealed(t: Stream, secret: Bytes, pt: Bytes, sealed: Bytes) {
    sealed == SealFrom(t, secret, pt, 0) && |sealed| == SealedSize(|pt|)
  }

  /** The packets of chunks a to b. */
  function Packets(sealed: Bytes, len: nat, a: nat, b: nat): Bytes
    requires |sealed| == SealedSize(len) && a <= b <= len / ChunkLen
  {
    sealed[a * PacketLen..ChunkAt(b, len).cipherEnd]
  }

  /** Fetching the packets of chunks a to b gives exactly their plaintext. */
  lemma DecodesSpan(t: Stream, secret: Bytes, pt: Bytes, sealed: Bytes, a: nat, b: nat)
    requires SchemeLaws(t.s) && a <= b <= |pt| / ChunkLen && |sealed| == SealedSize(|pt|) && IsSealed(t, secret, pt, sealed)
    ensures Decoded(t, t.s.publicKey(secret), Packets(sealed, |pt|, a, b), a) == Some(Span(pt, a, b))
  {
    hide SchemeLaws, SealFrom, SealedSize, Decoded;
    var q := pt[a * ChunkLen..];
    DropPackets(t, secret, pt, 0, a);
    var part := SealFrom(t, secret, q, a);
    if b == |pt| / ChunkLen {
      assert sealed[a * PacketLen..SealedSize(|pt|)] == part;
      assert Span(pt, a, b) == q;
      DecodesTail(t, secret, q, a);
    } else {
      var n := b + 1 - a;
      DropPackets(t, secret, pt, 0, b + 1);
      DecodesFull(t, secret, q, a, n);
      assert sealed[a * PacketLen..(b + 1) * PacketLen] == part[..n * PacketLen];
      assert Span(pt, a, b) == q[..n * ChunkLen];
    }
  }

  lemma NothingMore(t: Stream, verifyKey: Bytes, chunkNum: nat)
    requires SchemeLaws(t.s)
    ensures OpenFrom(t, verifyKey, [], chunkNum).None?
  {
    EmptyPacketFails(t, verifyKey, chunkNum);
  }

  /******* The seeker *******/

  type Cache = map<nat, Bytes>

  /** Every cached chunk is the plaintext of that chunk. */
  ghost predicate CacheOK(cache: Cache, pt: Bytes) {
    forall i :: i in cache ==> i <= |pt| / ChunkLen && cache[i] == Span(pt, i, i)
  }

  ghost predicate AreChunks(chunks: seq<ChunkSpec>, a: nat, len: nat) {
    && chunks != [] && a + |chunks| - 1 <= len / ChunkLen
    && forall j :: 0 <= j < |chunks| ==> chunks[j] == ChunkAt(a + j, len)
  }

  const Megabyte := 0x10_0000

  function ReadaheadFactor(size: nat): nat {
    if size >= 1000 * Megabyte then 16 else if size >= 500 * Megabyte then 8 else 4
  }

  datatype ReadResult = Data(bytes: Bytes) | EndOfFile | Failed | Panic

  /** Go's integer division. */
  function TruncatedDiv(a: int, b: int): int
    requires b > 0
  {
    if a >= 0 then a / b else -(-a / b)
  }

  datatype Whence = SeekStart | SeekCurrent | SeekEnd

  class DecodingReadSeeker {
    const stream: Stream
    const verifyKey: Bytes
    const source: Bytes
    const size: nat
    var offset: int
    var chunks: Cache
    ghost const plaintext: Bytes
    ghost const secret: Bytes

    /** The source is the plaintext sealed by the holder of the verify key. */
    ghost predicate Valid()
      reads this`chunks
    {
      && SchemeLaws(stream.s)
      && size == |plaintext|
      && verifyKey == stream.s.publicKey(secret) && IsSealed(stream, secret, plaintext, source)
      && CacheOK(chunks, plaintext)
    }

    constructor (t: Stream, ghost sk: Bytes, vk: Bytes, sealed: Bytes, n: nat, ghost pt: Bytes)
      requires SchemeLaws(t.s) && vk == t.s.publicKey(sk) && sealed == SealFrom(t, sk, pt, 0) && n == |pt|
      ensures Valid() && plaintext == pt && offset == 0
    {
      SealedLength(t, sk, pt, 0);
      hide SealFrom, SealedSize;
      stream, verifyKey, source, size, offset, chunks, plaintext, secret := t, vk, sealed, n, 0, map[], pt, sk;
    }

    method GetChunksFromCache(cs: seq<ChunkSpec>, ghost a: nat) returns (res: Bytes, ok: bool)
      requires CacheOK(chunks, plaintext) && AreChunks(cs, a, |plaintext|)
      ensures ok ==> res == Span(plaintext, a, a + |cs| - 1)
    {
      res := [];
      for i := 0 to |cs|
        invariant i == 0 ==> res == []
        invariant i > 0 ==> res == Span(plaintext, a, a + i - 1)
      {
        if cs[i].index !in chunks { return res, false; }
        if i > 0 { SpanGrows(plaintext, a, a + i); }
        res := res + chunks[cs[i].index];
      }
      ok := true;
    }

    /** The plaintext of each chunk is cached; the cache may push out any other entries. */
    method WriteChunksToCache(pt: Bytes, cs: seq<ChunkSpec>, evicted: set<nat>, ghost a: nat)
      requires CacheOK(chunks, plaintext) && AreChunks(cs, a, |plaintext|) && pt == Span(plaintext, a, a + |cs| - 1)
      modifies this`chunks
      ensures CacheOK(chunks, plaintext)
    {
      hide SealedSize, Span, ChunkAt;
      var start := cs[0].ptStart;
      for i := 0 to |cs|
        invariant CacheOK(chunks, plaintext)
      {
        var c := cs[i];
        ChunkInSpan(plaintext, a, a + i, a + |cs| - 1);
        chunks := chunks[c.index := pt[c.ptStart - start..c.ptEnd - start]];
      }
      chunks := chunks - evicted;
    }

    /** Opens the packets of the given chunks from the source; None if they do not open. */
    method Fetch(cs: seq<ChunkSpec>) returns (plain: Option<Bytes>)
      requires cs != [] && cs[0].cipherStart <= cs[|cs| - 1].cipherEnd <= |source|
      ensures plain == Decoded(stream, verifyKey, source[cs[0].cipherStart..cs[|cs| - 1].cipherEnd], cs[0].index)
    {
      var sealed := source[cs[0].cipherStart..cs[|cs| - 1].cipherEnd];
      var d := new Decoder(stream, verifyKey, cs[0].index);
      assert [] + sealed == sealed;
      OpenFullThen(stream, verifyKey, sealed, [], cs[0].index);
      hide OpenFull, OpenFrom;
      plain := d.Write(sealed);
      if plain.None? { return; }
      var last := d.Finish();
      if last.Some? { plain := Some(plain.value + last.value); }
    }

    method FetchSpan(cs: seq<ChunkSpec>, evicted: set<nat>, ghost a: nat) returns (plain: Bytes)
      requires Valid() && AreChunks(cs, a, size)
      modifies this`chunks
      ensures Valid() && plain == Span(plaintext, a, a + |cs| - 1)
    {
      hide SchemeLaws, SealFrom, Decoded, CacheOK, SealedSize, Span;
      DecodesSpan(stream, secret, plaintext, source, a, a + |cs| - 1);
      var fetched := Fetch(cs);
      plain := fetched.value;
      WriteChunksToCache(plain, cs, evicted, a);
    }

    /** Fetches the chunks for a read up to chunkEnd, and more ahead of it, and caches them. */
    method FetchAhead(chunkEnd: nat, evicted: set<nat>) returns (plain: Bytes, ghost b: nat)
      requires Valid() && 0 <= offset <= chunkEnd <= size
      modifies this`chunks
      ensures Valid() && chunkEnd / ChunkLen <= b <= size / ChunkLen && plain == Span(plaintext, offset / ChunkLen, b)
      ensures var k := if size < 524288000 then 4 else if size < 1048576000 then 8 else 16;
        b == (if offset + k * ChunkLen >= size then size else if offset + k * ChunkLen > chunkEnd then offset + k * ChunkLen else chunkEnd) / ChunkLen
    {
      hide Valid, Span, ChunkAt, CacheOK;
      SizeOfValid();
      var ahead := offset + ReadaheadFactor(size) * ChunkLen;
      var minChunkEnd := if ahead >= size then size else ahead;
      var prefetchEnd := if minChunkEnd > chunkEnd then minChunkEnd else chunkEnd;
      var prefetch := GetChunksInRange(offset, prefetchEnd, size);
      ghost var a := offset / ChunkLen;
      b := a + |prefetch| - 1;
      plain := FetchSpan(prefetch, evicted, a);
    }

    lemma SizeOfValid()
      requires Valid()
      ensures size == |plaintext| && CacheOK(chunks, plaintext)
    {
    }

    /** The chunks for a read up to chunkEnd, from the cache if it has them all. */
    method GetChunks(chunkEnd: nat, evicted: set<nat>) returns (plain: Bytes, ghost b: nat)
      requires Valid() && 0 <= offset <= chunkEnd <= size
      modifies this`chunks
      ensures Valid() && chunkEnd / ChunkLen <= b <= size / ChunkLen && plain == Span(plaintext, offset / ChunkLen, b)
    {
      hide Valid, Span, ChunkAt, CacheOK;
      SizeOfValid();
      var cs := GetChunksInRange(offset, chunkEnd, size);
      ghost var a := offset / ChunkLen;
      var ok;
      plain, ok := GetChunksFromCache(cs, a);
      b := a + |cs| - 1;
      if !ok { plain, b := FetchAhead(chunkEnd, evicted); }
    }

    /** The wanted part of the chunks that hold it. */
    method GetPlaintext(chunkEnd: nat, evicted: set<nat>) returns (res: Bytes)
      requires Valid() && 0 <= offset <= chunkEnd <= size && offset < size
      modifies this`chunks
      ensures Valid() && size == |plaintext| && res == plaintext[offset..chunkEnd]
    {
      hide Valid, Span, ChunkAt, CacheOK;
      SizeOfValid();
      var plain, b := GetChunks(chunkEnd, evicted);
      var start := offset / ChunkLen * ChunkLen;
      ExtractFromSpan(plaintext, offset / ChunkLen, b, offset, chunkEnd);
      res := plain[offset - start..chunkEnd - start];
    }

    /** What is still to be read. */
    ghost function Rest(): Bytes
      reads this`offset
    {
      if 0 <= offset <= |plaintext| then plaintext[offset..] else []
    }

    /** Read takes the next bytes off what is left, whatever is cached or evicted; at the end it says so.
        Seek does not prevent a negative offset. Go's division truncates toward zero, so less than a chunk before
        the start the first chunk is read and the slice panics; further back the chunk index is negative, no cache
        has it, and seeking the source before its start fails. */
    method Read(num: nat, evicted: set<nat>) returns (res: ReadResult)
      requires Valid()
      modifies this
      ensures Valid() && size == |plaintext|
      ensures res.Panic? <==> -ChunkLen < old(offset) < 0
      ensures res.Failed? <==> old(offset) <= -ChunkLen
      ensures res.EndOfFile? <==> old(offset) >= size
      ensures !res.Data? ==> offset == old(offset)
      ensures res.Data? ==>
        && |res.bytes| == (if old(offset) + num < size then num else size - old(offset))
        && offset == old(offset) + |res.bytes| && old(Rest()) == res.bytes + Rest()
    {
      hide Valid, CacheOK;
      SizeOfValid();
      if offset >= size { return EndOfFile; }
      if TruncatedDiv(offset, ChunkLen) < 0 { return Failed; }
      if offset < 0 { return Panic; }
      var chunkEnd := if offset + num >= size then size else offset + num;
      var plain := GetPlaintext(chunkEnd, evicted);
      res := Data(plain);
      offset := offset + |plain|;
    }

    /** Seek decides what is left to read: all from a position, all but the next bytes, or the last bytes. */
    method Seek(to: int, whence: Whence) returns (res: int)
      requires Valid()
      modifies this`offset
      ensures Valid() && size == |plaintext| && res == offset
      ensures whence.SeekStart? && 0 <= to <= size ==> Rest() == plaintext[to..]
      ensures whence.SeekCurrent? && 0 <= to <= |old(Rest())| && old(offset) >= 0 ==> Rest() == old(Rest())[to..]
      ensures whence.SeekEnd? && 0 <= to <= size ==> |Rest()| == to && plaintext == plaintext[..size - to] + Rest()
      ensures offset == match whence case SeekStart => to case SeekCurrent => old(offset) + to case SeekEnd => size - to
    {
      hide Valid;
      SizeOfValid();
      match whence {
        case SeekStart => offset := to;
        case SeekCurrent => offset := offset + to;
        case SeekEnd => offset := size - to;
      }
      res := offset;
    }
  }

  lemma ChunkInSpan(pt: Bytes, a: nat, i: nat, b: nat)
    requires a <= i <= b <= |pt| / ChunkLen
    ensures var c := ChunkAt(i, |pt|);
      && a * ChunkLen <= c.ptStart <= c.ptEnd <= a * ChunkLen + |Span(pt, a, b)|
      && Span(pt, a, b)[c.ptStart - a * ChunkLen..c.ptEnd - a * ChunkLen] == Span(pt, i, i)
  {
    hide SealedSize;
    var c := ChunkAt(i, |pt|);
    SliceOfSlice(pt, a * ChunkLen, ChunkAt(b, |pt|).ptEnd, c.ptStart, c.ptEnd);
  }

  /** The wanted bytes lie within the chunks that were fetched for them. */
  lemma ExtractFromSpan(pt: Bytes, a: nat, b: nat, from: nat, to: nat)
    requires from <= to <= |pt| && from < |pt| && a == from / ChunkLen && to / ChunkLen <= b <= |pt| / ChunkLen
    ensures a <= b && a * ChunkLen <= from && to - a * ChunkLen <= |Span(pt, a, b)|
    ensures Span(pt, a, b)[from - a * ChunkLen..to - a * ChunkLen] == pt[from..to]
  {
    hide SealedSize;
    SliceOfSlice(pt, a * ChunkLen, ChunkAt(b, |pt|).ptEnd, from, to);
  }

  lemma SliceOfSlice(pt: Bytes, x: nat, y: nat, from: nat, to: nat)
    requires x <= from <= to <= y <= |pt|
    ensures pt[x..y][from - x..to - x] == pt[from..to]
  {
    forall i | 0 <= i < to - from ensures pt[x..y][from - x..to - x][i] == pt[from..to][i] { }
  }
}
