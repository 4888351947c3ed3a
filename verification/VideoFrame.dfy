/**
 A whole encoded frame on its way to the client: frame header, header gaps, FEC blocks, shards, and
 the in-place header writes; and what the client makes of the data shards it receives.
 */
module VideoFrame {
  import opened Arith
  import opened Interleave
  import opened Slices
  import FecPlan
  import opened ShardPlan
  import opened FecEncode

  /** sizeof(video_packet_raw_t): RTP header 12, reserved 4, NV_VIDEO_PACKET 16. */
  const HEADERS: nat := 32
  const NV_VIDEO_PACKET: nat := 16
  const MAX_RTP_HEADER_SIZE: nat := 16

  function LastPayloadLen(size: nat, slice: nat): nat
    requires slice > 0
  {
    if (size + 8) % slice == 0 then slice else (size + 8) % slice
  }

  /**
   What the 16-bit header field holds: the remainder is stored first, and the field itself is then tested for
   zero.
   */
  function LastPayloadField(size: nat, slice: nat): nat
    requires slice > 0
  {
    var stored := (size + 8) % slice % 0x1_0000;
    if stored == 0 then slice % 0x1_0000 else stored
  }

  /** The field holds the length of the last packet's payload just when that length fits. */
  lemma FieldHoldsLength(size: nat, slice: nat)
    requires slice > 0
    ensures LastPayloadField(size, slice) < 65536
    ensures LastPayloadField(size, slice) == LastPayloadLen(size, slice) <==> LastPayloadLen(size, slice) < 65536
  {
  }

  function ByteOf(n: nat): Byte { n % 256 }

  /** The 8-byte short frame header; the 16-bit fields keep only their low 16 bits. */
  function FrameHeader(frameType: nat, latency: nat, lastPayloadLen: nat): (h: seq<Byte>)
    ensures |h| == 8
  {
    [1, ByteOf(latency), ByteOf(latency / 256), ByteOf(frameType), ByteOf(lastPayloadLen),
        ByteOf(lastPayloadLen / 256), 0, 0]
  }

  /** Type 1; latency, frame type and the last length, the two 16-bit numbers with their low byte first. */
  lemma FrameHeaderSpelled(frameType: nat, latency: nat, lastPayloadLen: nat)
    ensures var h := FrameHeader(frameType, latency, lastPayloadLen);
            && h[0] == 1 && (h[1] as int) + 256 * (h[2] as int) == latency % 65536 && h[3] == frameType % 256
            && (h[4] as int) + 256 * (h[5] as int) == lastPayloadLen % 65536 && h[6] == 0 == h[7]
  {
  }

  /** Payload bytes of shards received in order, their packet headers dropped. */
  function DropHeaders(shards: seq<seq<Byte>>): seq<Byte> {
    if shards == [] then []
    else
      var last := shards[|shards| - 1];
      DropHeaders(shards[..|shards| - 1]) + if |last| >= HEADERS then last[HEADERS..] else []
  }

  function Word(lo: int, hi: int): int { lo + 256 * hi }

  /** The client: concatenate the payloads and cut the last one to the length the frame header gives. */
  function Depacketize(shards: seq<seq<Byte>>, slice: nat): seq<Byte> {
    var flat := DropHeaders(shards);
    if |flat| < 8 then flat
    else
      var excess := slice - Word(flat[4], flat[5]);
      if 0 <= excess <= |flat| then flat[..|flat| - excess] else flat
  }

  lemma DropHeadersSnoc(shards: seq<seq<Byte>>, last: seq<Byte>)
    requires |last| >= HEADERS
    ensures DropHeaders(shards + [last]) == DropHeaders(shards) + last[HEADERS..]
  {
    assert (shards + [last])[..|shards|] == shards;
  }

  lemma {:induction false} DropHeadersAppend(a: seq<seq<Byte>>, b: seq<seq<Byte>>)
    ensures DropHeaders(a + b) == DropHeaders(a) + DropHeaders(b)
  {
    if b == [] {
      assert a + b == a;
    } else {
      var init, last := b[..|b| - 1], b[|b| - 1];
      DropHeadersAppend(a, init);
      assert (a + b)[..|a + b| - 1] == a + init;
      Assoc(DropHeaders(a), DropHeaders(init), if |last| >= HEADERS then last[HEADERS..] else []);
    }
  }

  lemma DropOneMore(shards: seq<seq<Byte>>, front: seq<Byte>, shard: seq<Byte>, slice: nat, k: nat)
    requires slice > 0 && |front| == Times(k, HEADERS + slice) && |shard| == HEADERS + slice
    requires DropHeaders(shards) == Stripped(HEADERS, slice, front)
    ensures DropHeaders(shards + [shard]) == Stripped(HEADERS, slice, front + shard)
  {
    DropHeadersSnoc(shards, shard);
    StrippedAppend(HEADERS, slice, front, shard, k);
    LastBlock(HEADERS, slice, shard);
  }

  /** Data shards of a block differ from its bytes only by the padding of the last one. */
  lemma DropDataShards(view: seq<Byte>, slice: nat, n: nat, pad: nat)
    requires slice > 0 && n > 0 && |view| + pad == Times(n, HEADERS + slice) && pad < HEADERS + slice
    ensures Times(n - 1, HEADERS + slice) <= |view|
    ensures DropHeaders(LeadingShards(view, HEADERS + slice, n)) == Stripped(HEADERS, slice, view + Zeros(pad))
  {
    FullShards(view, slice, n - 1);
    var front, shard := LastShard(view, HEADERS + slice, n, pad);
    DropOneMore(LeadingShards(view, HEADERS + slice, n - 1), front, shard, slice, n - 1);
  }

  lemma LastShard(view: seq<Byte>, blocksize: nat, n: nat, pad: nat) returns (front: seq<Byte>, shard: seq<Byte>)
    requires n > 0 && |view| + pad == Times(n, blocksize) && pad < blocksize
    ensures Times(n - 1, blocksize) <= |view|
    ensures front == view[..Times(n - 1, blocksize)] && shard == DataShard(view, blocksize, n - 1)
    ensures view + Zeros(pad) == front + shard
  {
    front, shard := view[..Times(n - 1, blocksize)], DataShard(view, blocksize, n - 1);
    TakeExtend(view, |front|, |view|);
    assert view[..|view|] == view && view[|front|..|view|] == view[|front|..];
    if pad == 0 {
      assert view + Zeros(0) == view;
    } else {
      Assoc(front, view[|front|..], Zeros(pad));
    }
  }

  lemma {:induction false} FullShards(view: seq<Byte>, slice: nat, n: nat)
    requires slice > 0 && Times(n, HEADERS + slice) <= |view|
    ensures n > 0 ==> Times(n - 1, HEADERS + slice) <= |view|
    ensures DropHeaders(LeadingShards(view, HEADERS + slice, n))
            == Stripped(HEADERS, slice, view[..Times(n, HEADERS + slice)])
  {
    var bs := HEADERS + slice;
    if n > 0 {
      var at := Times(n - 1, bs);
      FullShards(view, slice, n - 1);
      TakeExtend(view, at, at + bs);
      DropOneMore(LeadingShards(view, bs, n - 1), view[..at], Region(view, n - 1, bs), slice, n - 1);
    } else {
      assert view[..0] == [];
    }
  }

  /**
   End of the round trip: once the payloads of the data shards are known to be frame header and payload
   plus padding, the client recovers exactly those bytes if and only if the last length fits 16 bits.
   */
  lemma {:induction false} CutLast(frameType: nat, latency: nat, payload: seq<Byte>, slice: nat,
                                   shards: seq<seq<Byte>>, pad: nat, n: nat)
    requires slice > 0 && pad < slice && 8 + |payload| + pad == Times(n, slice)
    requires var header := FrameHeader(frameType, latency, LastPayloadField(|payload|, slice));
             DropHeaders(shards) == header + payload + Zeros(pad)
    ensures var header := FrameHeader(frameType, latency, LastPayloadField(|payload|, slice));
            Depacketize(shards, slice) == header + payload <==> LastPayloadLen(|payload|, slice) < 65536
  {
    var last := LastPayloadLen(|payload|, slice);
    var field := LastPayloadField(|payload|, slice);
    var header := FrameHeader(frameType, latency, field);
    LastIsRest(|payload| + 8, slice, pad, n);
    FieldHoldsLength(|payload|, slice);
    var flat := DropHeaders(shards);
    WordOf(field);
    assert flat[4] == header[4] && flat[5] == header[5];
    assert Word(flat[4], flat[5]) == field;
    assert slice <= |flat|;
    assert flat[..|flat| - pad] == header + payload;
  }

  /**
   A payload of 65528 bytes in packets of 65537: the field says 1 where the length is 65536, and the client
   loses the frame.
   */
  lemma LongPacketLost(frameType: nat, latency: nat, payload: seq<Byte>, shards: seq<seq<Byte>>)
    requires |payload| == 65528
    requires DropHeaders(shards) == FrameHeader(frameType, latency, LastPayloadField(65528, 65537)) + payload + Zeros(1)
    ensures LastPayloadLen(65528, 65537) == 65536 && LastPayloadField(65528, 65537) == 1
    ensures Depacketize(shards, 65537) != FrameHeader(frameType, latency, LastPayloadField(65528, 65537)) + payload
  {
    var slice := |payload| + 9;
    TimesIsProduct(1, slice);
    var one: nat := 1;
    CutLast(frameType, latency, payload, slice, shards, one, one);
  }

  lemma WordOf(n: nat)
    ensures Word(ByteOf(n), ByteOf(n / 256)) == n % 65536
    ensures n % 65536 == n <==> n < 65536
  {
    assert n == 65536 * (n / 65536) + 256 * (n / 256 % 256) + n % 256;
  }

  lemma LastIsRest(size: nat, slice: nat, pad: nat, n: nat)
    requires slice > 0 && size > 0 && pad < slice && size + pad == Times(n, slice)
    ensures (if size % slice == 0 then slice else size % slice) == slice - pad
    ensures slice <= size + pad
  {
    assert n > 0;
    TimesIsProduct(n - 1, slice);
    if pad == 0 {
      DivUnique(size, slice, n, 0) by { TimesIsProduct(n, slice); }
    } else {
      DivUnique(size, slice, n - 1, slice - pad);
    }
  }

  // Sending: headers are written in place, into the frame buffer before encoding and through the shard pointers
  // after it.

  /**
   The packet headers of a frame: what the first pass writes in packet `x` of block `b`, and what the second
   makes of the header it finds in shard `x`.
   */
  datatype Headers = Headers(first: (nat, nat) -> seq<Byte>, second: (nat, nat, seq<Byte>) -> seq<Byte>)
  {
    ghost predicate Fit() {
      && (forall b, x :: |first(b, x)| == HEADERS)
      && (forall b, x, old' :: |second(b, x, old')| == HEADERS)
    }
  }

  function Overwritten(s: seq<Byte>, at: nat, body: seq<Byte>): (r: seq<Byte>)
    ensures |r| == |s|
  {
    if at + |body| <= |s| then s[..at] + body + s[at + |body|..] else s
  }

  /** A block with the headers of its first `packets` packets written into it. */
  function Stamped(s: seq<Byte>, slice: nat, packets: nat, b: nat, hs: Headers): (r: seq<Byte>)
    ensures |r| == |s|
  {
    if packets == 0 then s
    else
      Overwritten(Stamped(s, slice, packets - 1, b, hs), Times(packets - 1, HEADERS + slice), hs.first(b, packets - 1))
  }

  /** Packet `x` then starts with its own header. */
  lemma {:induction false} StampedHeader(s: seq<Byte>, slice: nat, packets: nat, b: nat, hs: Headers, x: nat)
    requires hs.Fit() && x < packets && Times(packets - 1, HEADERS + slice) + HEADERS <= |s|
    ensures var at := Times(x, HEADERS + slice);
            at + HEADERS <= |s| && Stamped(s, slice, packets, b, hs)[at..at + HEADERS] == hs.first(b, x)
  {
    TimesMono(x, packets - 1, HEADERS + slice);
    var at, last := Times(x, HEADERS + slice), Times(packets - 1, HEADERS + slice);
    var before, after := Stamped(s, slice, packets - 1, b, hs), Stamped(s, slice, packets, b, hs);
    if x < packets - 1 {
      TimesMono(packets - 2, packets - 1, HEADERS + slice);
      StampedHeader(s, slice, packets - 1, b, hs, x);
      SliceAgree(before, after, last, at, at + HEADERS);
    }
  }

  /** And nothing of the payload has changed. */
  lemma {:induction false} StampedPayload(s: seq<Byte>, slice: nat, packets: nat, b: nat, hs: Headers)
    requires hs.Fit() && slice > 0
    requires packets > 0 ==> Times(packets - 1, HEADERS + slice) + HEADERS <= |s|
    ensures Stripped(HEADERS, slice, Stamped(s, slice, packets, b, hs)) == Stripped(HEADERS, slice, s)
  {
    if packets > 0 {
      if packets > 1 {
        TimesMono(packets - 2, packets - 1, HEADERS + slice);
      }
      StampedPayload(s, slice, packets - 1, b, hs);
      StampKeepsPayload(Stamped(s, slice, packets - 1, b, hs), packets - 1, hs.first(b, packets - 1), slice);
    }
  }

  lemma StampKeepsPayload(s: seq<Byte>, k: nat, header: seq<Byte>, slice: nat)
    requires slice > 0 && |header| == HEADERS && Times(k, HEADERS + slice) + HEADERS <= |s|
    ensures var at := Times(k, HEADERS + slice);
            Stripped(HEADERS, slice, s[..at] + header + s[at + HEADERS..]) == Stripped(HEADERS, slice, s)
  {
    var at := Times(k, HEADERS + slice);
    var front, back, stamped := s[..at], s[at..], header + s[at + HEADERS..];
    assert s == front + back && s[..at] + header + s[at + HEADERS..] == front + stamped;
    StrippedAppend(HEADERS, slice, front, back, k);
    StrippedAppend(HEADERS, slice, front, stamped, k);
    FirstHeader(back, header, stamped, slice);
  }

  lemma FirstHeader(a: seq<Byte>, header: seq<Byte>, b: seq<Byte>, slice: nat)
    requires slice > 0 && |header| == HEADERS <= |a| && b == header + a[HEADERS..]
    ensures Stripped(HEADERS, slice, a) == Stripped(HEADERS, slice, b)
  {
    var n := Min(HEADERS + slice, |a|);
    assert a[HEADERS..n] == b[HEADERS..n] && a[n..] == b[n..];
  }

  /** The first header pass over a block in the frame buffer. */
  method StampPackets(buf: array<Byte>, lo: nat, hi: nat, slice: nat, packets: nat, b: nat, hs: Headers)
    requires lo <= hi <= buf.Length && hs.Fit()
    requires packets > 0 ==> Times(packets - 1, HEADERS + slice) + HEADERS <= hi - lo
    modifies buf
    ensures buf[..lo] == old(buf[..lo]) && buf[hi..] == old(buf[hi..])
    ensures buf[lo..hi] == Stamped(old(buf[lo..hi]), slice, packets, b, hs)
  {
    for x := 0 to packets
      invariant buf[..lo] == old(buf[..lo]) && buf[hi..] == old(buf[hi..])
      invariant buf[lo..hi] == Stamped(old(buf[lo..hi]), slice, x, b, hs)
    {
      TimesMono(x, packets - 1, HEADERS + slice);
      StampPacket(buf, lo, hi, slice, x, hs.first(b, x));
    }
  }

  method StampPacket(buf: array<Byte>, lo: nat, hi: nat, slice: nat, x: nat, header: seq<Byte>)
    requires lo <= hi <= buf.Length && |header| == HEADERS
    requires Times(x, HEADERS + slice) + HEADERS <= hi - lo
    modifies buf
    ensures buf[..lo] == old(buf[..lo]) && buf[hi..] == old(buf[hi..])
    ensures buf[lo..hi] == Overwritten(old(buf[lo..hi]), Times(x, HEADERS + slice), header)
  {
    var at := Multiply(x, HEADERS + slice);
    ghost var before := buf[..];
    CopyInto(header, buf, lo + at);
    SpliceWindow(before, lo, hi, at, header, buf[..]);
  }

  /** A datagram and a shard with the same bytes behind the header. */
  predicate SameBody(datagram: seq<Byte>, content: seq<Byte>) {
    |datagram| == |content| >= HEADERS && datagram[HEADERS..] == content[HEADERS..]
  }

  /** Shard `x` of block `b` as sent: the second pass has made its header out of the one in the shard. */
  predicate SentShard(datagram: seq<Byte>, content: seq<Byte>, b: nat, x: nat, hs: Headers) {
    |content| >= HEADERS && datagram == hs.second(b, x, content[..HEADERS]) + content[HEADERS..]
  }

  lemma {:induction false} DropHeadersSame(a: seq<seq<Byte>>, b: seq<seq<Byte>>)
    requires |a| == |b| && forall i :: 0 <= i < |a| ==> SameBody(a[i], b[i])
    ensures DropHeaders(a) == DropHeaders(b)
  {
    if a != [] {
      DropHeadersSame(a[..|a| - 1], b[..|b| - 1]);
      assert SameBody(a[|a| - 1], b[|b| - 1]);
    }
  }

  /** Shards do not overlap, so a header written into one leaves the others as they were. */
  lemma ShardsApart(payload: array<Byte>, lo: nat, shards: array<Byte>, aligned: nat, blocksize: nat, x: nat, y: nat)
    requires x < y && payload != shards
    ensures var p := ShardAt(payload, lo, shards, aligned, blocksize, x);
            var q := ShardAt(payload, lo, shards, aligned, blocksize, y);
            p.buf != q.buf || p.off + blocksize <= q.off
  {
    if y < aligned {
      TimesMono(x, y, blocksize);
    } else if aligned <= x {
      TimesMono(x - aligned, y - aligned, blocksize);
    }
  }

  /** One step of the second header pass: shard `x` gets its header and is sent. */
  method StampShard(p: Ptr, blocksize: nat, b: nat, x: nat, hs: Headers, ghost content: seq<Byte>)
    returns (datagram: seq<Byte>)
    requires hs.Fit() && HEADERS <= blocksize && Holds(p, blocksize, content)
    modifies if p.At? then {p.buf} else {}
    ensures SentShard(datagram, content, b, x, hs)
    ensures p.buf[..p.off] == old(p.buf[..p.off]) && p.buf[p.off + blocksize..] == old(p.buf[p.off + blocksize..])
  {
    var found := p.buf[p.off..p.off + HEADERS];
    assert found == content[..HEADERS];
    var header := hs.second(b, x, found);
    datagram := OverwriteShard(p, blocksize, header, content);
  }

  method OverwriteShard(p: Ptr, blocksize: nat, header: seq<Byte>, ghost content: seq<Byte>)
    returns (datagram: seq<Byte>)
    requires |header| == HEADERS <= blocksize && Holds(p, blocksize, content)
    modifies if p.At? then {p.buf} else {}
    ensures datagram == header + content[HEADERS..]
    ensures p.buf[..p.off] == old(p.buf[..p.off]) && p.buf[p.off + blocksize..] == old(p.buf[p.off + blocksize..])
  {
    ghost var before := p.buf[..];
    CopyInto(header, p.buf, p.off);
    datagram := p.buf[p.off..p.off + blocksize];
    SpliceWindow(before, p.off, p.off + blocksize, 0, header, p.buf[..]);
    assert before[p.off..p.off + blocksize] == content;
    assert p.buf[..][p.off..p.off + blocksize] == datagram;
  }

  lemma StillHolds(q: Ptr, blocksize: nat, content: seq<Byte>, before: seq<Byte>, from: nat)
    requires q.At? && from <= q.off && q.off + blocksize <= |before| == q.buf.Length
    requires before[q.off..q.off + blocksize] == content && q.buf[from..] == before[from..]
    ensures Holds(q, blocksize, content)
  {
    SliceOfDrop(q.buf[..], from, q.off - from, q.off - from + blocksize);
    SliceOfDrop(before, from, q.off - from, q.off - from + blocksize);
  }

  ghost predicate AllHold(shardsP: seq<Ptr>, blocksize: nat, contents: seq<seq<Byte>>, from: nat)
    reads set i, p | 0 <= i < |shardsP| && p == shardsP[i] && p.At? :: p.buf
  {
    |contents| == |shardsP| && forall y :: from <= y < |shardsP| ==> Holds(shardsP[y], blocksize, contents[y])
  }

  /** One iteration: shard `x` is sent, the later shards keep their content, and so does the frame behind `hi`. */
  method SendShard(payload: array<Byte>, lo: nat, ghost hi: nat, shards: array<Byte>, ghost aligned: nat,
                   blocksize: nat, shardsP: seq<Ptr>,
                   b: nat, x: nat, hs: Headers, ghost contents: seq<seq<Byte>>) returns (datagram: seq<Byte>)
    requires payload != shards && x < |shardsP| && hs.Fit() && HEADERS <= blocksize
    requires lo + Times(aligned, blocksize) <= hi <= payload.Length
    requires forall y :: 0 <= y < |shardsP| ==> shardsP[y] == ShardAt(payload, lo, shards, aligned, blocksize, y)
    requires AllHold(shardsP, blocksize, contents, x)
    modifies payload, shards
    ensures SentShard(datagram, contents[x], b, x, hs)
    ensures AllHold(shardsP, blocksize, contents, x + 1)
    ensures payload[hi..] == old(payload[hi..])
  {
    var p := shardsP[x];
    ghost var before, tail := p.buf[..], payload[hi..];
    datagram := StampShard(p, blocksize, b, x, hs, contents[x]);
    forall y | x < y < |shardsP|
      ensures Holds(shardsP[y], blocksize, contents[y])
    {
      ShardsApart(payload, lo, shards, aligned, blocksize, x, y);
      if shardsP[y].buf == p.buf {
        StillHolds(shardsP[y], blocksize, contents[y], before, p.off + blocksize);
      }
    }
    if x < aligned {
      TimesMono(x, aligned, blocksize);
      SliceAgree(payload[..], before, p.off + blocksize, hi, hi);
      assert payload[..][hi..] == payload[hi..];
    }
  }

  method StampAndSend(payload: array<Byte>, lo: nat, ghost hi: nat, shards: array<Byte>, ghost aligned: nat,
                      blocksize: nat, shardsP: seq<Ptr>,
                      b: nat, hs: Headers, ghost contents: seq<seq<Byte>>) returns (sent: seq<seq<Byte>>)
    requires payload != shards && HEADERS <= blocksize && hs.Fit()
    requires lo + Times(aligned, blocksize) <= hi <= payload.Length
    requires forall y :: 0 <= y < |shardsP| ==> shardsP[y] == ShardAt(payload, lo, shards, aligned, blocksize, y)
    requires AllHold(shardsP, blocksize, contents, 0)
    modifies payload, shards
    ensures |sent| == |shardsP| == |contents|
    ensures forall x :: 0 <= x < |sent| ==> SentShard(sent[x], contents[x], b, x, hs)
    ensures payload[hi..] == old(payload[hi..])
  {
    sent := [];
    for x := 0 to |shardsP|
      invariant |sent| == x && forall y :: 0 <= y < x ==> SentShard(sent[y], contents[y], b, y, hs)
      invariant AllHold(shardsP, blocksize, contents, x)
      invariant payload[hi..] == old(payload[hi..])
    {
      var datagram := SendShard(payload, lo, hi, shards, aligned, blocksize, shardsP, b, x, hs, contents);
      sent := sent + [datagram];
    }
  }

  /** What was sent of one FEC block. */
  datatype SentBlock = SentBlock(dataShards: nat, percentage: nat, datagrams: seq<seq<Byte>>)

  /** The datagrams of a block carry the block's data shards and then their parity. */
  ghost predicate DatagramsOf(datagrams: seq<seq<Byte>>, view: seq<Byte>, blocksize: nat, data: nat, rs: ReedSolomon,
                              b: nat, hs: Headers) {
    && 0 < data <= |datagrams| && Times(data - 1, blocksize) <= |view|
    && forall x :: 0 <= x < |datagrams| ==>
         SentShard(datagrams[x], ShardContent(view, blocksize, data, |datagrams| - data, rs, x), b, x, hs)
  }

  lemma {:induction false} DataShardAt(view: seq<Byte>, blocksize: nat, n: nat, x: nat)
    requires x < n && Times(n - 1, blocksize) <= |view|
    ensures Times(x, blocksize) <= |view|
    ensures LeadingShards(view, blocksize, n)[x] == DataShard(view, blocksize, x)
  {
    if x < n - 1 {
      DataShardAt(view, blocksize, n - 1, x);
    }
  }

  /** The payload the client gets out of a block's data shards is that of the bytes the block was made from. */
  lemma BlockPayload(view0: seq<Byte>, view: seq<Byte>, slice: nat, data: nat, pad: nat, rs: ReedSolomon,
                     sent: seq<seq<Byte>>, b: nat, hs: Headers)
    requires hs.Fit() && slice > 0 && data > 0 && |view0| == |view| && |view| + pad == Times(data, HEADERS + slice)
    requires pad < HEADERS + slice
    requires Stripped(HEADERS, slice, view) == Stripped(HEADERS, slice, view0)
    requires DatagramsOf(sent, view, HEADERS + slice, data, rs, b, hs)
    ensures DropHeaders(sent[..data]) == Stripped(HEADERS, slice, view0 + Zeros(pad))
  {
    forall x | 0 <= x < data
      ensures SameBody(sent[..data][x], LeadingShards(view, HEADERS + slice, data)[x])
    {
      DataShardAt(view, HEADERS + slice, data, x);
    }
    DropHeadersSame(sent[..data], LeadingShards(view, HEADERS + slice, data));
    DropDataShards(view, slice, data, pad);
    StrippedSamePadded(HEADERS, slice, view, view0, Zeros(pad));
  }

  lemma ContentsInPlace(fec: Fec, buf: array<Byte>, lo: nat, hi: nat, aligned: nat, rs: ReedSolomon)
    returns (contents: seq<seq<Byte>>)
    requires Encoded(fec, buf, lo, hi, aligned, rs)
    ensures AllHold(fec.shardsP[..], fec.blocksize, contents, 0)
    ensures forall x :: 0 <= x < |contents| ==>
              contents[x]
              == ShardContent(buf[lo..hi], fec.blocksize, fec.dataShards, fec.nrShards - fec.dataShards, rs, x)
  {
    var view, parity := buf[lo..hi], fec.nrShards - fec.dataShards;
    contents := seq(fec.nrShards, x requires 0 <= x < fec.nrShards =>
      ShardContent(view, fec.blocksize, fec.dataShards, parity, rs, x));
    forall x | 0 <= x < fec.nrShards
      ensures Holds(fec.shardsP[x], fec.blocksize, contents[x])
    {
      ShardsReadable(fec, buf, lo, hi, aligned, rs, x);
    }
  }

  method EncodeAndSend(buf: array<Byte>, lo: nat, hi: nat, blocksize: nat, percentage: nat, minParity: nat,
                       rs: ReedSolomon, b: nat, hs: Headers)
    returns (sb: SentBlock)
    requires lo < hi <= buf.Length && blocksize >= HEADERS && hs.Fit()
    requires forall d, m, j :: |rs(d, m, j)| == blocksize
    modifies buf
    ensures SentAs(sb, hi - lo, blocksize, percentage, minParity)
    ensures DatagramsOf(sb.datagrams, old(buf[lo..hi]), blocksize, sb.dataShards, rs, b, hs)
    ensures buf[hi..] == old(buf[hi..])
  {
    ghost var view := buf[lo..hi];
    var fec, aligned := Encode(buf, lo, hi, blocksize, percentage, minParity, rs);
    sb := SendEncoded(buf, lo, hi, fec, aligned, rs, b, hs);
  }

  /** An encoded block, shard by shard. */
  method SendEncoded(buf: array<Byte>, lo: nat, hi: nat, fec: Fec, ghost aligned: nat, ghost rs: ReedSolomon, b: nat,
                     hs: Headers)
    returns (sb: SentBlock)
    requires Encoded(fec, buf, lo, hi, aligned, rs) && HEADERS <= fec.blocksize && hs.Fit() && buf != fec.shards
    modifies buf, fec.shards
    ensures sb.dataShards == fec.dataShards && sb.percentage == fec.percentage && |sb.datagrams| == fec.nrShards
    ensures DatagramsOf(sb.datagrams, old(buf[lo..hi]), fec.blocksize, fec.dataShards, rs, b, hs)
    ensures buf[hi..] == old(buf[hi..])
  {
    ghost var contents := ContentsInPlace(fec, buf, lo, hi, aligned, rs);
    var shardsP := fec.shardsP[..];
    var sent := StampAndSend(buf, lo, hi, fec.shards, aligned, fec.blocksize, shardsP, b, hs, contents);
    sb := SentBlock(fec.dataShards, fec.percentage, sent);
  }

  /** What one block of the plan must have been sent as. */
  ghost predicate SentAs(sb: SentBlock, size: nat, blocksize: nat, percentage: nat, minParity: nat) {
    && size > 0 && blocksize > 0 && sb.dataShards == CeilDiv(size, blocksize) > 0
    && var plan := PlanShards(sb.dataShards, percentage, minParity);
       |sb.datagrams| == plan.data + plan.parity && sb.percentage == plan.percentage
  }

  method SendBlock(buf: array<Byte>, lo: nat, hi: nat, slice: nat, percentage: nat, minParity: nat, rs: ReedSolomon,
                   b: nat, hs: Headers) returns (sb: SentBlock, ghost pad: nat)
    requires lo < hi <= buf.Length && slice > 0 && hs.Fit()
    requires Times(CeilDiv(hi - lo, HEADERS + slice) - 1, HEADERS + slice) + HEADERS <= hi - lo
    requires forall d, m, j :: |rs(d, m, j)| == HEADERS + slice
    modifies buf
    ensures SentAs(sb, hi - lo, HEADERS + slice, percentage, minParity)
    ensures Shipped(sb, old(buf[lo..hi]), slice, rs, b, hs)
    ensures sb.dataShards <= |sb.datagrams| && hi - lo + pad == Times(sb.dataShards, HEADERS + slice)
            && pad < HEADERS + slice
    ensures DropHeaders(sb.datagrams[..sb.dataShards]) == Stripped(HEADERS, slice, old(buf[lo..hi]) + Zeros(pad))
    ensures buf[hi..] == old(buf[hi..])
  {
    var blocksize := HEADERS + slice;
    ghost var view0 := buf[lo..hi];
    CeilDivBounds(hi - lo, blocksize);
    var packets := RoundUp(hi - lo, blocksize);
    pad := Times(packets, blocksize) - (hi - lo);
    StampPackets(buf, lo, hi, slice, packets, b, hs);
    StampedPayload(view0, slice, packets, b, hs);
    ghost var view := buf[lo..hi];
    sb := EncodeAndSend(buf, lo, hi, blocksize, percentage, minParity, rs, b, hs);
    assert sb.dataShards == packets && view0 == old(buf[lo..hi]);
    BlockPayload(view0, view, slice, packets, pad, rs, sb.datagrams, b, hs);
  }

  /** The block's datagrams are made from its bytes with the headers of the first pass written into them. */
  ghost predicate Shipped(sb: SentBlock, bytes: seq<Byte>, slice: nat, rs: ReedSolomon, b: nat, hs: Headers) {
    DatagramsOf(sb.datagrams, Stamped(bytes, slice, sb.dataShards, b, hs), HEADERS + slice, sb.dataShards, rs, b, hs)
  }

  /** The header of each data shard is what the second pass makes of the first pass's header for that shard. */
  ghost predicate HeadersSent(sb: SentBlock, b: nat, hs: Headers) {
    sb.dataShards <= |sb.datagrams| &&
    forall x :: 0 <= x < sb.dataShards ==>
      |sb.datagrams[x]| >= HEADERS && sb.datagrams[x][..HEADERS] == hs.second(b, x, hs.first(b, x))
  }

  lemma ShippedHeaders(sb: SentBlock, bytes: seq<Byte>, slice: nat, rs: ReedSolomon, b: nat, hs: Headers)
    requires hs.Fit() && Shipped(sb, bytes, slice, rs, b, hs)
    requires Times(sb.dataShards - 1, HEADERS + slice) + HEADERS <= |bytes|
    ensures HeadersSent(sb, b, hs)
  {
    forall x | 0 <= x < sb.dataShards
      ensures |sb.datagrams[x]| >= HEADERS && sb.datagrams[x][..HEADERS] == hs.second(b, x, hs.first(b, x))
    {
      var view, bs := Stamped(bytes, slice, sb.dataShards, b, hs), HEADERS + slice;
      assert SentShard(sb.datagrams[x], ShardContent(view, bs, sb.dataShards, |sb.datagrams| - sb.dataShards, rs, x),
                       b, x, hs);
      StampedHeader(bytes, slice, sb.dataShards, b, hs, x);
      ShardHeader(view, bs, x);
    }
  }

  lemma ShardHeader(view: seq<Byte>, bs: nat, x: nat)
    requires HEADERS <= bs && Times(x, bs) + HEADERS <= |view|
    ensures DataShard(view, bs, x)[..HEADERS] == view[Times(x, bs)..Times(x, bs) + HEADERS]
  {
    if Times(x + 1, bs) <= |view| {
      SliceOfSlice(view, Times(x, bs), Times(x + 1, bs), 0, HEADERS);
    }
  }

  // The whole frame.

  /** The number of packets of a frame, and the length of the last one, before FEC. */
  lemma FrameShape(data: seq<Byte>, slice: nat) returns (n: nat, r: nat)
    requires slice > 0 && data != []
    ensures n > 0 && 1 <= r <= slice
    ensures |Interleaved(HEADERS, slice, data)| == Times(n - 1, HEADERS + slice) + HEADERS + r
  {
    n := CeilDiv(|data|, slice);
    CeilDivBounds(|data|, slice);
    InterleavedLength(HEADERS, slice, data);
    TimesSplit(n - 1, HEADERS, slice);
    r := |data| - Times(n - 1, slice);
  }

  /** Blocks of a plan: all but the last are a whole number of packets, and every header fits. */
  lemma BlockShape(total: nat, bs: nat, p: FecPlan.BlockPlan, a: nat, n: nat, r: nat, x: nat)
    returns (k: nat)
    requires n > 0 && 1 <= r && HEADERS + r <= bs && total == Times(n - 1, bs) + HEADERS + r
    requires FecPlan.CutsFit(total, p) && p.alignedSize == Times(a, bs) > 0 && x < p.blocks
    ensures var lo, hi := FecPlan.Cut(total, p, x), FecPlan.Cut(total, p, x + 1);
            && lo < hi <= total && lo == Times(x, p.alignedSize) == Times(k, bs)
            && (x < p.blocks - 1 ==> hi == lo + p.alignedSize)
            && CeilDiv(hi - lo, bs) > 0 && Times(CeilDiv(hi - lo, bs) - 1, bs) + HEADERS <= hi - lo
            && (x < p.blocks - 1 ==> Times(CeilDiv(hi - lo, bs), bs) == hi - lo)
  {
    k := Times(x, a);
    FecPlan.CutStep(total, p, x);
    TimesAssoc(x, a, bs);
    if x < p.blocks - 1 {
      WholeBlocks(p.alignedSize, bs, a);
    } else {
      TimesIsProduct(x, p.alignedSize);
      PartialBlocks(total, bs, n, r, Times(x, a));
    }
  }

  lemma WholeBlocks(size: nat, bs: nat, a: nat)
    requires bs > HEADERS && size == Times(a, bs) && size > 0
    ensures CeilDiv(size, bs) == a > 0 && Times(a - 1, bs) + HEADERS <= size
  {
    CeilDivBounds(size, bs);
    assert a > 0;
    CeilDivUnique(size, bs, a);
  }

  lemma PartialBlocks(total: nat, bs: nat, n: nat, r: nat, k: nat)
    requires n > 0 && 1 <= r && HEADERS + r <= bs && total == Times(n - 1, bs) + HEADERS + r && Times(k, bs) < total
    ensures var size := total - Times(k, bs);
            CeilDiv(size, bs) > 0 && Times(CeilDiv(size, bs) - 1, bs) + HEADERS <= size
  {
    if k > n - 1 {
      TimesMono(n, k, bs);
    } else {
      TimesAdd(k, n - 1 - k, bs);
      var size := total - Times(k, bs);
      CeilDivBounds(size, bs);
      CeilDivUnique(size, bs, n - k);
    }
  }

  /** The data shards of all blocks, in the order they were sent. */
  function DataOf(blocks: seq<SentBlock>): seq<seq<Byte>> {
    if blocks == [] then []
    else
      var b := blocks[|blocks| - 1];
      DataOf(blocks[..|blocks| - 1]) + if b.dataShards <= |b.datagrams| then b.datagrams[..b.dataShards] else []
  }

  lemma DataOfSnoc(blocks: seq<SentBlock>, b: SentBlock)
    requires b.dataShards <= |b.datagrams|
    ensures DropHeaders(DataOf(blocks + [b])) == DropHeaders(DataOf(blocks)) + DropHeaders(b.datagrams[..b.dataShards])
  {
    assert (blocks + [b])[..|blocks|] == blocks;
    DropHeadersAppend(DataOf(blocks), b.datagrams[..b.dataShards]);
  }

  lemma NextPayload(frame: seq<Byte>, lo: nat, hi: nat, pad: nat, k: nat, slice: nat)
    requires slice > 0 && lo <= hi <= |frame| && lo == Times(k, HEADERS + slice)
    ensures Stripped(HEADERS, slice, frame[..lo]) + Stripped(HEADERS, slice, frame[lo..hi] + Zeros(pad))
            == Stripped(HEADERS, slice, frame[..hi] + Zeros(pad))
  {
    assert frame[..lo] + (frame[lo..hi] + Zeros(pad)) == frame[..hi] + Zeros(pad);
    StrippedAppend(HEADERS, slice, frame[..lo], frame[lo..hi] + Zeros(pad), k);
  }

  /** How far sending has come: `sent` carries the payload of the first `at` bytes of the frame, plus padding. */
  ghost predicate Carries(sent: seq<SentBlock>, frame: seq<Byte>, at: nat, slice: nat, pad: nat)
    requires slice > 0
  {
    at <= |frame| && DropHeaders(DataOf(sent)) == Stripped(HEADERS, slice, frame[..at] + Zeros(pad))
  }

  /** One block further: its data shards carry the payload of its bytes. */
  lemma NextCarried(frame: seq<Byte>, sent: seq<SentBlock>, sb: SentBlock, lo: nat, hi: nat, pad: nat, k: nat,
                    slice: nat)
    returns (packets: nat)
    requires slice > 0 && lo <= hi <= |frame| && lo == Times(k, HEADERS + slice) && sb.dataShards <= |sb.datagrams|
    requires Carries(sent, frame, lo, slice, 0) && hi - lo + pad == Times(sb.dataShards, HEADERS + slice)
    requires DropHeaders(sb.datagrams[..sb.dataShards]) == Stripped(HEADERS, slice, frame[lo..hi] + Zeros(pad))
    ensures Carries(sent + [sb], frame, hi, slice, pad)
    ensures hi + pad == Times(packets, HEADERS + slice)
  {
    packets := k + sb.dataShards;
    TimesAdd(k, sb.dataShards, HEADERS + slice);
    assert frame[..lo] + Zeros(0) == frame[..lo];
    NextPayload(frame, lo, hi, pad, k, slice);
    DataOfSnoc(sent, sb);
  }

  /** A block out of a buffer that from there on is still the frame. */
  method SendPart(buf: array<Byte>, lo: nat, hi: nat, slice: nat, percentage: nat, minParity: nat, rs: ReedSolomon,
                  b: nat, hs: Headers, ghost frame: seq<Byte>)
    returns (sb: SentBlock, ghost pad: nat)
    requires slice > 0 && lo < hi <= buf.Length == |frame| && hs.Fit() && buf[lo..] == frame[lo..]
    requires Times(CeilDiv(hi - lo, HEADERS + slice) - 1, HEADERS + slice) + HEADERS <= hi - lo
    requires forall d, m, j :: |rs(d, m, j)| == HEADERS + slice
    modifies buf
    ensures buf[hi..] == frame[hi..]
    ensures SentAs(sb, hi - lo, HEADERS + slice, percentage, minParity)
    ensures Shipped(sb, frame[lo..hi], slice, rs, b, hs) && HeadersSent(sb, b, hs)
    ensures hi - lo + pad == Times(sb.dataShards, HEADERS + slice) && pad < HEADERS + slice
    ensures DropHeaders(sb.datagrams[..sb.dataShards]) == Stripped(HEADERS, slice, frame[lo..hi] + Zeros(pad))
  {
    SliceAgree(buf[..], frame, lo, lo, hi);
    SliceAgree(buf[..], frame, lo, hi, hi);
    assert buf[..][lo..] == buf[lo..] && buf[..][lo..hi] == buf[lo..hi] && buf[..][hi..] == buf[hi..];
    sb, pad := SendBlock(buf, lo, hi, slice, percentage, minParity, rs, b, hs);
    ShippedHeaders(sb, frame[lo..hi], slice, rs, b, hs);
  }

  /** Block `x` of the plan was sent as it should. */
  ghost predicate BlockSent(sb: SentBlock, total: nat, p: FecPlan.BlockPlan, x: nat, blocksize: nat, minParity: nat)
    requires x < p.blocks
  {
    var lo, hi := FecPlan.Cut(total, p, x), FecPlan.Cut(total, p, x + 1);
    lo < hi && SentAs(sb, hi - lo, blocksize, p.percentage, minParity)
  }

  /** And of the right bytes of the frame, with the right headers. */
  ghost predicate BlockShipped(sb: SentBlock, frame: seq<Byte>, p: FecPlan.BlockPlan, b: nat, slice: nat,
                               rs: ReedSolomon, hs: Headers)
    requires b < p.blocks
  {
    var lo, hi := FecPlan.Cut(|frame|, p, b), FecPlan.Cut(|frame|, p, b + 1);
    lo < hi <= |frame| && Shipped(sb, frame[lo..hi], slice, rs, b, hs) && HeadersSent(sb, b, hs)
  }

  /** The blocks of the plan sent so far. */
  ghost predicate Progress(sent: seq<SentBlock>, frame: seq<Byte>, p: FecPlan.BlockPlan, slice: nat, minParity: nat,
                           rs: ReedSolomon, hs: Headers) {
    |sent| <= p.blocks &&
    (sent == [] ||
     (var x := |sent| - 1;
      && Progress(sent[..x], frame, p, slice, minParity, rs, hs)
      && BlockSent(sent[x], |frame|, p, x, HEADERS + slice, minParity)
      && BlockShipped(sent[x], frame, p, x, slice, rs, hs)))
  }

  lemma {:induction false} ProgressAt(sent: seq<SentBlock>, frame: seq<Byte>, p: FecPlan.BlockPlan, slice: nat,
                                      minParity: nat, rs: ReedSolomon, hs: Headers, x: nat)
    requires Progress(sent, frame, p, slice, minParity, rs, hs) && x < |sent|
    ensures BlockSent(sent[x], |frame|, p, x, HEADERS + slice, minParity)
    ensures BlockShipped(sent[x], frame, p, x, slice, rs, hs)
  {
    if x < |sent| - 1 {
      ProgressAt(sent[..|sent| - 1], frame, p, slice, minParity, rs, hs, x);
    }
  }

  lemma BlockDone(frame: seq<Byte>, p: FecPlan.BlockPlan, x: nat, slice: nat, minParity: nat, rs: ReedSolomon,
                  hs: Headers, sb: SentBlock, lo: nat, hi: nat)
    requires x < p.blocks && lo == FecPlan.Cut(|frame|, p, x) && hi == FecPlan.Cut(|frame|, p, x + 1)
    requires lo < hi <= |frame| && SentAs(sb, hi - lo, HEADERS + slice, p.percentage, minParity)
    requires Shipped(sb, frame[lo..hi], slice, rs, x, hs) && HeadersSent(sb, x, hs)
    ensures BlockSent(sb, |frame|, p, x, HEADERS + slice, minParity)
    ensures BlockShipped(sb, frame, p, x, slice, rs, hs)
  {
  }

  lemma ProgressSnoc(sent: seq<SentBlock>, frame: seq<Byte>, p: FecPlan.BlockPlan, slice: nat, minParity: nat,
                     rs: ReedSolomon, hs: Headers, sb: SentBlock)
    requires Progress(sent, frame, p, slice, minParity, rs, hs) && |sent| < p.blocks
    requires BlockSent(sb, |frame|, p, |sent|, HEADERS + slice, minParity)
    requires BlockShipped(sb, frame, p, |sent|, slice, rs, hs)
    ensures Progress(sent + [sb], frame, p, slice, minParity, rs, hs)
  {
    assert (sent + [sb])[..|sent|] == sent;
  }

  method NextCut(total: nat, p: FecPlan.BlockPlan, x: nat, lo: nat) returns (hi: nat)
    requires x < p.blocks && FecPlan.CutsFit(total, p) && lo == FecPlan.Cut(total, p, x)
    ensures hi == FecPlan.Cut(total, p, x + 1)
  {
    FecPlan.CutStep(total, p, x);
    hi := if x == p.blocks - 1 then total else lo + p.alignedSize;
  }

  /** Block `x` of the plan. */
  method SendOne(buf: array<Byte>, p: FecPlan.BlockPlan, x: nat, lo: nat, slice: nat, minParity: nat, rs: ReedSolomon,
                 hs: Headers, ghost a: nat, ghost n: nat, ghost r: nat, ghost frame: seq<Byte>,
                 ghost sent: seq<SentBlock>)
    returns (sb: SentBlock, hi: nat, ghost pad: nat, ghost packets: nat)
    requires n > 0 && 1 <= r <= slice && buf.Length == |frame| == Times(n - 1, HEADERS + slice) + HEADERS + r
    requires FecPlan.CutsFit(buf.Length, p) && p.alignedSize == Times(a, HEADERS + slice) > 0
    requires x < p.blocks && lo == FecPlan.Cut(buf.Length, p, x) <= buf.Length
    requires hs.Fit()
    requires forall d, m, j :: |rs(d, m, j)| == HEADERS + slice
    requires buf[lo..] == frame[lo..] && Carries(sent, frame, lo, slice, 0)
    modifies buf
    ensures hi == FecPlan.Cut(buf.Length, p, x + 1) && lo < hi <= buf.Length
    ensures SentAs(sb, hi - lo, HEADERS + slice, p.percentage, minParity)
    ensures Shipped(sb, frame[lo..hi], slice, rs, x, hs) && HeadersSent(sb, x, hs)
    ensures buf[hi..] == frame[hi..] && Carries(sent + [sb], frame, hi, slice, pad)
    ensures x < p.blocks - 1 ==> pad == 0
    ensures pad < HEADERS + slice && hi + pad == Times(packets, HEADERS + slice)
  {
    ghost var total := buf.Length;
    ghost var k := BlockShape(total, HEADERS + slice, p, a, n, r, x);
    hi := NextCut(buf.Length, p, x, lo);
    assert hi <= total && CeilDiv(hi - lo, HEADERS + slice) > 0;
    sb, pad := SendPart(buf, lo, hi, slice, p.percentage, minParity, rs, x, hs, frame);
    packets := NextCarried(frame, sent, sb, lo, hi, pad, k, slice);
  }

  method SendBlocks(buf: array<Byte>, p: FecPlan.BlockPlan, slice: nat, minParity: nat, rs: ReedSolomon,
                    hs: Headers, ghost a: nat, ghost n: nat, ghost r: nat)
    returns (sent: seq<SentBlock>, ghost pad: nat, ghost packets: nat)
    requires n > 0 && 1 <= r <= slice && buf.Length == Times(n - 1, HEADERS + slice) + HEADERS + r
    requires FecPlan.CutsFit(buf.Length, p) && p.alignedSize == Times(a, HEADERS + slice) > 0
    requires hs.Fit()
    requires forall d, m, j :: |rs(d, m, j)| == HEADERS + slice
    modifies buf
    ensures |sent| == p.blocks && Progress(sent, old(buf[..]), p, slice, minParity, rs, hs)
    ensures pad < HEADERS + slice && buf.Length + pad == Times(packets, HEADERS + slice)
    ensures Carries(sent, old(buf[..]), buf.Length, slice, pad)
  {
    ghost var frame := buf[..];
    sent, pad, packets := [], 0, 0;
    var lo := 0;
    assert frame[..0] + Zeros(0) == [];
    for x := 0 to p.blocks
      invariant |sent| == x && lo == FecPlan.Cut(buf.Length, p, x) <= buf.Length
      invariant Progress(sent, frame, p, slice, minParity, rs, hs)
      invariant buf[lo..] == frame[lo..] && Carries(sent, frame, lo, slice, pad)
      invariant x < p.blocks ==> pad == 0
      invariant pad < HEADERS + slice && (x > 0 ==> lo + pad == Times(packets, HEADERS + slice))
    {
      sent, lo, pad, packets := SendAnother(buf, p, lo, slice, minParity, rs, hs, a, n, r, frame, sent);
    }
  }

  /** The next block of the plan, behind those already sent. */
  method SendAnother(buf: array<Byte>, p: FecPlan.BlockPlan, lo: nat, slice: nat, minParity: nat, rs: ReedSolomon,
                     hs: Headers, ghost a: nat, ghost n: nat, ghost r: nat, ghost frame: seq<Byte>,
                     sent: seq<SentBlock>)
    returns (sent': seq<SentBlock>, hi: nat, ghost pad: nat, ghost packets: nat)
    requires n > 0 && 1 <= r <= slice && buf.Length == |frame| == Times(n - 1, HEADERS + slice) + HEADERS + r
    requires FecPlan.CutsFit(buf.Length, p) && p.alignedSize == Times(a, HEADERS + slice) > 0
    requires |sent| < p.blocks && lo == FecPlan.Cut(buf.Length, p, |sent|) <= buf.Length
    requires hs.Fit()
    requires forall d, m, j :: |rs(d, m, j)| == HEADERS + slice
    requires Progress(sent, frame, p, slice, minParity, rs, hs)
    requires buf[lo..] == frame[lo..] && Carries(sent, frame, lo, slice, 0)
    modifies buf
    ensures |sent'| == |sent| + 1 && Progress(sent', frame, p, slice, minParity, rs, hs)
    ensures hi == FecPlan.Cut(buf.Length, p, |sent| + 1) <= buf.Length
    ensures buf[hi..] == frame[hi..] && Carries(sent', frame, hi, slice, pad)
    ensures |sent| < p.blocks - 1 ==> pad == 0
    ensures pad < HEADERS + slice && hi + pad == Times(packets, HEADERS + slice)
  {
    var sb;
    sb, hi, pad, packets := SendOne(buf, p, |sent|, lo, slice, minParity, rs, hs, a, n, r, frame, sent);
    BlockDone(frame, p, |sent|, slice, minParity, rs, hs, sb, lo, hi);
    ProgressSnoc(sent, frame, p, slice, minParity, rs, hs, sb);
    sent' := sent + [sb];
  }

  /** Frame header and payload as the client must get them back. */
  function FrameBytes(frameType: nat, latency: nat, payload: seq<Byte>, slice: nat): seq<Byte>
    requires slice > 0
  {
    FrameHeader(frameType, latency, LastPayloadField(|payload|, slice)) + payload
  }

  /** From what the data shards carry to what the client returns. */
  lemma {:induction false} ClientRecovers(frameType: nat, latency: nat, payload: seq<Byte>, slice: nat,
                                        sent: seq<SentBlock>, pad: nat, packets: nat)
    requires slice > 0 && pad < HEADERS + slice
    requires var frame := Interleaved(HEADERS, slice, FrameBytes(frameType, latency, payload, slice));
             |frame| + pad == Times(packets, HEADERS + slice) && Carries(sent, frame, |frame|, slice, pad)
    ensures Depacketize(DataOf(sent), slice) == FrameBytes(frameType, latency, payload, slice)
            <==> LastPayloadLen(|payload|, slice) < 65536
  {
    var data := FrameBytes(frameType, latency, payload, slice);
    var frame := Interleaved(HEADERS, slice, data);
    assert frame[..|frame|] == frame;
    StripPadded(HEADERS, slice, data, pad, packets);
    CutLast(frameType, latency, payload, slice, DataOf(sent), pad, packets);
  }

  /** Every block of the frame's plan was sent as it should. */
  ghost predicate PlanSent(sent: seq<SentBlock>, total: nat, p: FecPlan.BlockPlan, blocksize: nat, minParity: nat) {
    |sent| == p.blocks && forall x :: 0 <= x < p.blocks ==> BlockSent(sent[x], total, p, x, blocksize, minParity)
  }

  ghost predicate PlanShipped(sent: seq<SentBlock>, frame: seq<Byte>, p: FecPlan.BlockPlan, slice: nat, rs: ReedSolomon,
                              hs: Headers) {
    |sent| == p.blocks && forall x :: 0 <= x < p.blocks ==> BlockShipped(sent[x], frame, p, x, slice, rs, hs)
  }

  method Transmit(buf: array<Byte>, ghost frameType: nat, ghost latency: nat, ghost payload: seq<Byte>, slice: nat,
                  p: FecPlan.BlockPlan, minParity: nat, rs: ReedSolomon, hs: Headers, ghost a: nat)
    returns (sent: seq<SentBlock>)
    requires slice > 0 && buf[..] == Interleaved(HEADERS, slice, FrameBytes(frameType, latency, payload, slice))
    requires FecPlan.CutsFit(buf.Length, p) && p.alignedSize == Times(a, HEADERS + slice) > 0
    requires hs.Fit()
    requires forall d, m, j :: |rs(d, m, j)| == HEADERS + slice
    modifies buf
    ensures Depacketize(DataOf(sent), slice) == FrameBytes(frameType, latency, payload, slice)
            <==> LastPayloadLen(|payload|, slice) < 65536
    ensures PlanSent(sent, buf.Length, p, HEADERS + slice, minParity)
    ensures PlanShipped(sent, old(buf[..]), p, slice, rs, hs)
    ensures forall x :: 0 <= x < |sent| ==> HeadersSent(sent[x], x, hs)
  {
    ghost var n, r := FrameShape(FrameBytes(frameType, latency, payload, slice), slice);
    ghost var pad, packets;
    ghost var frame := buf[..];
    sent, pad, packets := SendBlocks(buf, p, slice, minParity, rs, hs, a, n, r);
    forall x: nat | x < p.blocks
      ensures BlockSent(sent[x], |frame|, p, x, HEADERS + slice, minParity)
      ensures BlockShipped(sent[x], frame, p, x, slice, rs, hs)
    {
      ProgressAt(sent, frame, p, slice, minParity, rs, hs, x);
    }
    ClientRecovers(frameType, latency, payload, slice, sent, pad, packets);
  }

  method BuildHeader(size: nat, slice: nat, frameType: nat, latency: nat) returns (header: seq<Byte>)
    requires slice > 0
    ensures header == FrameHeader(frameType, latency, LastPayloadField(size, slice))
  {
    var lastPayloadLen := (size + 8) % slice % 0x1_0000;
    if lastPayloadLen == 0 {
      lastPayloadLen := slice % 0x1_0000;
    }
    header := FrameHeader(frameType, latency, lastPayloadLen);
  }

  /** The client gets frame header and payload back. */
  ghost predicate Recovered(sent: seq<SentBlock>, payload: seq<Byte>, slice: nat, frameType: nat, latency: nat)
    requires slice > 0
  {
    Depacketize(DataOf(sent), slice) == FrameBytes(frameType, latency, payload, slice)
  }

  /**
   The blocks of the plan for the frame, each sent as it should, from its part of the frame, every shard under its
   own header. A packet of `slice` payload bytes takes a block of `HEADERS + slice`.
   */
  ghost predicate FrameSent(sent: seq<SentBlock>, p: FecPlan.BlockPlan, payload: seq<Byte>, slice: nat, percentage: nat,
                            minParity: nat, frameType: nat, latency: nat, rs: ReedSolomon, hs: Headers)
    requires slice > 0 && 1 <= percentage <= 255
  {
    var frame := Interleaved(HEADERS, slice, FrameBytes(frameType, latency, payload, slice));
    && |frame| > 0 && p == FecPlan.PlanBlocks(|frame|, HEADERS + slice, percentage)
    && PlanSent(sent, |frame|, p, HEADERS + slice, minParity) && PlanShipped(sent, frame, p, slice, rs, hs)
    && forall b :: 0 <= b < |sent| ==> HeadersSent(sent[b], b, hs)
  }

  /**
   One frame through the sender. `hs` are the packet headers written before and after FEC encoding. Whatever
   they hold, the client gets frame header and payload back from the data shards exactly when the length of the
   last packet payload fits its 16-bit field, and every shard goes out under the header that is its own.
   */
  method SendFrame(payload: seq<Byte>, packetSize: nat, fecPercentage: nat, minParity: nat, frameType: nat,
                   latency: nat, rs: ReedSolomon, hs: Headers)
    returns (sent: seq<SentBlock>, p: FecPlan.BlockPlan)
    requires packetSize > NV_VIDEO_PACKET && 1 <= fecPercentage <= 255
    requires hs.Fit()
    requires forall d, m, j :: |rs(d, m, j)| == packetSize + MAX_RTP_HEADER_SIZE
    ensures Recovered(sent, payload, packetSize - NV_VIDEO_PACKET, frameType, latency)
            <==> LastPayloadLen(|payload|, packetSize - NV_VIDEO_PACKET) < 65536
    ensures FrameSent(sent, p, payload, packetSize - NV_VIDEO_PACKET, fecPercentage, minParity, frameType, latency, rs,
                      hs)
  {
    var blocksize := packetSize + MAX_RTP_HEADER_SIZE;
    var slice := blocksize - HEADERS;
    var header := BuildHeader(|payload|, slice, frameType, latency);
    var buf := ConcatAndInsert(HEADERS, slice, header, payload);
    ghost var n, r := FrameShape(header + payload, slice);
    ghost var a := FecPlan.PlanShape(buf.Length, blocksize, fecPercentage);
    p := FecPlan.ComputePlan(buf.Length, blocksize, fecPercentage);
    sent := Transmit(buf, frameType, latency, payload, slice, p, minParity, rs, hs, a);
  }

  /**
   While FEC is on, a block sent by the plan stays within the shard limit exactly when the minimum fits beside
   its data.
   */
  lemma SentWithinShardLimit(frame: seq<Byte>, blocksize: nat, percentage: nat, minParity: nat, sb: SentBlock, x: nat)
    requires |frame| > 0 && blocksize > HEADERS && 1 <= percentage <= 255
    requires x < FecPlan.PlanBlocks(|frame|, blocksize, percentage).blocks
    requires FecPlan.PlanBlocks(|frame|, blocksize, percentage).percentage != 0
    requires BlockSent(sb, |frame|, FecPlan.PlanBlocks(|frame|, blocksize, percentage), x, blocksize, minParity)
    ensures |sb.datagrams| <= 255 <==> sb.dataShards + minParity <= 255
    ensures minParity <= 3 ==> |sb.datagrams| <= 255
  {
    var p := FecPlan.PlanBlocks(|frame|, blocksize, percentage);
    FecPlan.PlanCapacity(|frame|, blocksize, percentage);
    FecPlan.BlockShardsBound(frame, blocksize, percentage, x);
    FecPlan.CutStep(|frame|, p, x);
    ShardLimit(sb.dataShards, percentage, minParity);
    ShardLimitForAllBlocks(percentage, minParity);
  }

  // A frame too large for FEC.

  /** With FEC off, no block has more data shards than the equal share rounded up, and the first has as many. */
  lemma SharesOfLargeFrame(total: nat, bs: nat, percentage: nat, n: nat, r: nat, x: nat) returns (a: nat)
    requires n > 0 && 1 <= r && HEADERS + r <= bs && total == Times(n - 1, bs) + HEADERS + r && 1 <= percentage <= 255
    requires FecPlan.PlanBlocks(total, bs, percentage).percentage == 0 && x < FecPlan.MAX_FEC_BLOCKS
    ensures var p := FecPlan.PlanBlocks(total, bs, percentage);
            && p.blocks == FecPlan.MAX_FEC_BLOCKS && p.alignedSize == Times(a, bs) && p.alignedSize / bs == a
            && FecPlan.CutsFit(total, p)
            && 0 < BlockShards(total, bs, p, x) <= a && (x == 0 ==> BlockShards(total, bs, p, x) == a)
  {
    var p := FecPlan.PlanBlocks(total, bs, percentage);
    a := CeilDiv(total / FecPlan.MAX_FEC_BLOCKS, bs);
    FecPlan.CutsInside(total, bs, percentage);
    FecPlan.AlignedBounds(total, FecPlan.MAX_FEC_BLOCKS, bs);
    LargeFrame(total, bs, percentage);
    TimesIsProduct(a, bs);
    DivUnique(p.alignedSize, bs, a, 0);
    SharesOfPlan(total, bs, p, a, n, r, x);
  }

  lemma SharesOfPlan(total: nat, bs: nat, p: FecPlan.BlockPlan, a: nat, n: nat, r: nat, x: nat)
    requires n > 0 && 1 <= r && HEADERS + r <= bs && total == Times(n - 1, bs) + HEADERS + r
    requires FecPlan.CutsFit(total, p) && p.blocks == FecPlan.MAX_FEC_BLOCKS && x < p.blocks
    requires p.alignedSize == Times(a, bs) > 0 && total < 4 * Times(a, bs) + 4
    ensures 0 < BlockShards(total, bs, p, x) <= a && (x == 0 ==> BlockShards(total, bs, p, x) == a)
  {
    var k := BlockShape(total, bs, p, a, n, r, x);
    FecPlan.CutStep(total, p, x);
    if x < FecPlan.MAX_FEC_BLOCKS - 1 {
      WholeBlocks(p.alignedSize, bs, a);
    } else {
      LastShare(total, bs, a, n, r);
    }
  }

  lemma LargeFrame(total: nat, bs: nat, percentage: nat)
    requires total > 0 && bs > HEADERS && 1 <= percentage <= 255
    requires FecPlan.PlanBlocks(total, bs, percentage).percentage == 0
    ensures FecPlan.PlanBlocks(total, bs, percentage).blocks == FecPlan.MAX_FEC_BLOCKS
            && total >= FecPlan.MAX_FEC_BLOCKS
    ensures CeilDiv(total / FecPlan.MAX_FEC_BLOCKS, bs) > 0
  {
    FecPlan.MaxDataBounds(percentage, bs);
    FecPlan.PlanCapacity(total, bs, percentage);
    assert total / FecPlan.MAX_FEC_BLOCKS > 0;
    CeilDivBounds(total / FecPlan.MAX_FEC_BLOCKS, bs);
  }

  /** What is left for the last of four blocks needs no more packets than each of the others. */
  lemma LastShare(total: nat, bs: nat, a: nat, n: nat, r: nat)
    requires n > 0 && 1 <= r && HEADERS + r <= bs && total == Times(n - 1, bs) + HEADERS + r
    requires Times(3, Times(a, bs)) < total < 4 * Times(a, bs) + 4
    ensures CeilDiv(total - Times(3, Times(a, bs)), bs) <= a
  {
    var left := total - Times(3, Times(a, bs));
    FecPlan.FewTimes(Times(a, bs));
    TimesAssoc(4, a, bs);
    TimesIsProduct(4, a);
    if n - 1 >= 4 * a {
      TimesMono(4 * a, n - 1, bs);
    }
    TimesMono(n, 4 * a, bs);
    CeilDivAtMost(left, bs, a);
  }

  function BlockShards(total: nat, bs: nat, p: FecPlan.BlockPlan, x: nat): nat
    requires bs > 0 && FecPlan.CutsFit(total, p) && x < p.blocks
  {
    FecPlan.CutStep(total, p, x);
    CeilDiv(FecPlan.Cut(total, p, x + 1) - FecPlan.Cut(total, p, x), bs)
  }

  /**
   The header fields of a frame that is too large for FEC come back in every shard of every block exactly
   when the share of a block is below 1024 packets, the value at which the sender only logs an error.
   */
  lemma {:induction false} LargeFrameFieldsFit(total: nat, bs: nat, percentage: nat, minParity: nat, n: nat, r: nat)
    requires n > 0 && 1 <= r && HEADERS + r <= bs && total == Times(n - 1, bs) + HEADERS + r && 1 <= percentage <= 255
    requires FecPlan.PlanBlocks(total, bs, percentage).percentage == 0
    ensures FecPlan.CutsFit(total, FecPlan.PlanBlocks(total, bs, percentage))
    ensures var p := FecPlan.PlanBlocks(total, bs, percentage);
            (forall x :: 0 <= x < p.blocks ==> BlockFits(total, bs, p, x, minParity)) <==> p.alignedSize / bs < 1024
  {
    var p := FecPlan.PlanBlocks(total, bs, percentage);
    var first := 0;
    var a := SharesOfLargeFrame(total, bs, percentage, n, r, first);
    PlannedFieldsFit(a, 0, minParity);
    forall x: nat | x < p.blocks
      ensures a < 1024 ==> BlockFits(total, bs, p, x, minParity)
    {
      var a' := SharesOfLargeFrame(total, bs, percentage, n, r, x);
      PlannedFieldsFit(BlockShards(total, bs, p, x), 0, minParity);
    }
    assert BlockFits(total, bs, p, first, minParity) ==> a < 1024;
  }

  ghost predicate BlockFits(total: nat, bs: nat, p: FecPlan.BlockPlan, x: nat, minParity: nat)
    requires bs > 0 && FecPlan.CutsFit(total, p) && x < p.blocks
  {
    BlockShards(total, bs, p, x) > 0 && FieldsFit(PlanShards(BlockShards(total, bs, p, x), p.percentage, minParity))
  }

  /** Four thousand and ninety-six packets: the first block's data count reads back as zero. */
  lemma {:induction false} OversizedFrame(minParity: nat)
    ensures var total, bs := 4096 * 1040, 1040;
            var p := FecPlan.PlanBlocks(total, bs, 20);
            && p.percentage == 0 && p.alignedSize / bs == 1024 && FecPlan.CutsFit(total, p)
            && BlockShards(total, bs, p, 0) == 1024 && !BlockFits(total, bs, p, 0, minParity)
    ensures InfoData(FecInfo(0, 1024, 0)) == 0
  {
    var n, bs := 4096, 1040;
    var total, first := n * bs, 0;
    TimesIsProduct(n - 1, bs);
    TimesIsProduct(FecPlan.MaxDataShards(20), bs);
    FecPlan.PlanCapacity(total, bs, 20);
    var a := SharesOfLargeFrame(total, bs, 20, n, bs - HEADERS, first);
    FecPlan.AlignedBounds(total, FecPlan.MAX_FEC_BLOCKS, bs);
    TimesIsProduct(a, bs);
    PlannedFieldsFit(a, 0, minParity);
  }
}
