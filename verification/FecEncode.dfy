/**
 Memory layout of one FEC block. Full data shards stay where they are in the frame buffer; a padded
 last shard and all parity shards live in one extra buffer. The shard pointers and the pair of
 buffer descriptors used for batched sending must agree about where every shard is.
 */
module FecEncode {
  import opened Arith
  import opened Interleave
  import opened Slices
  import opened ShardPlan

  datatype Ptr = Null | At(buf: array<Byte>, off: nat)

  /** platf::buffer_descriptor_t */
  datatype Desc = Desc(buf: array<Byte>, off: nat, size: nat)

  /** The `k`-th piece of `blocksize` elements. */
  function Region<T>(s: seq<T>, k: nat, blocksize: nat): (r: seq<T>)
    requires Times(k + 1, blocksize) <= |s|
    ensures |r| == blocksize
  {
    assert Times(k + 1, blocksize) == Times(k, blocksize) + blocksize;
    s[Times(k, blocksize)..Times(k + 1, blocksize)]
  }

  /** Data shard `x` of a block: the last one is padded with zeros. */
  function DataShard(view: seq<Byte>, blocksize: nat, x: nat): (r: seq<Byte>)
    requires Times(x, blocksize) <= |view|
    ensures |r| == blocksize
  {
    if Times(x + 1, blocksize) <= |view| then Region(view, x, blocksize)
    else view[Times(x, blocksize)..] + Zeros(Times(x + 1, blocksize) - |view|)
  }

  lemma RegionWritten<T>(before: seq<T>, j: nat, body: seq<T>, blocksize: nat, after: seq<T>)
    requires |body| == blocksize && Times(j + 1, blocksize) <= |before|
    requires after == before[..Times(j, blocksize)] + body + before[Times(j + 1, blocksize)..]
    ensures |after| == |before| && Region(after, j, blocksize) == body
    ensures forall k: nat :: k != j && Times(k + 1, blocksize) <= |before| ==>
            Region(after, k, blocksize) == Region(before, k, blocksize)
  {
    forall k: nat | k != j && Times(k + 1, blocksize) <= |before|
      ensures Region(after, k, blocksize) == Region(before, k, blocksize)
    {
      TimesMonoIf(k + 1, j, blocksize);
      TimesMonoIf(j + 1, k, blocksize);
      SliceAgree(before, after, Times(j, blocksize), Times(k, blocksize), Times(k + 1, blocksize));
      SliceAgree(before, after, Times(j + 1, blocksize), Times(k, blocksize), Times(k + 1, blocksize));
    }
  }

  /** A payload offset resolved against the descriptors, as the batched send does for block `offset / blocksize`. */
  function BufferForPayloadOffset(buffers: seq<Desc>, offset: nat): (Ptr, nat) {
    if buffers == [] then (Null, 0)
    else if offset < buffers[0].size then (At(buffers[0].buf, buffers[0].off + offset), buffers[0].size - offset)
    else BufferForPayloadOffset(buffers[1..], offset - buffers[0].size)
  }

  function InPayload(payload: array<Byte>, lo: nat, blocksize: nat, x: nat): Ptr {
    At(payload, lo + Times(x, blocksize))
  }

  /** Where shard `x` is: `aligned` shards in the frame buffer from `lo` on, all others in `extra`. */
  function ShardAt(payload: array<Byte>, lo: nat, extra: array<Byte>, aligned: nat, blocksize: nat, x: nat): Ptr {
    if x < aligned then InPayload(payload, lo, blocksize, x) else At(extra, Times(x - aligned, blocksize))
  }

  function Buffers(payload: array<Byte>, lo: nat, extra: array<Byte>, aligned: nat, blocksize: nat): seq<Desc> {
    [Desc(payload, lo, Times(aligned, blocksize)), Desc(extra, 0, extra.Length)]
  }

  /** Batched sending finds every shard exactly where the shard pointer says it is, with a whole block left there. */
  lemma BatchedIsPerShard(payload: array<Byte>, lo: nat, extra: array<Byte>, aligned: nat, nr: nat, blocksize: nat,
                          x: nat)
    requires blocksize > 0 && aligned <= nr && extra.Length == Times(nr - aligned, blocksize) && x < nr
    ensures var buffers := Buffers(payload, lo, extra, aligned, blocksize);
            var (p, room) := BufferForPayloadOffset(buffers, Times(x, blocksize));
            p == ShardAt(payload, lo, extra, aligned, blocksize, x) && room >= blocksize
  {
    var buffers, offset := Buffers(payload, lo, extra, aligned, blocksize), Times(x, blocksize);
    assert buffers[1..][0] == buffers[1];
    if x < aligned {
      TimesMono(x, aligned, blocksize);
    } else {
      TimesMono(aligned, x, blocksize);
      TimesAdd(aligned, x - aligned, blocksize);
      TimesMono(x - aligned, nr - aligned, blocksize);
      assert BufferForPayloadOffset(buffers, offset)
             == BufferForPayloadOffset(buffers[1..], offset - Times(aligned, blocksize));
    }
  }

  function BytesAt(p: Ptr, n: nat): seq<Byte>
    requires p.At? && p.off + n <= p.buf.Length
    reads if p.At? then {p.buf} else {}
  {
    p.buf[p.off..p.off + n]
  }

  /** The data shards 0..n of a block. */
  function LeadingShards(view: seq<Byte>, blocksize: nat, n: nat): (r: seq<seq<Byte>>)
    requires n > 0 ==> Times(n - 1, blocksize) <= |view|
    ensures |r| == n
  {
    if n == 0 then [] else LeadingShards(view, blocksize, n - 1) + [DataShard(view, blocksize, n - 1)]
  }

  datatype Fec = Fec(dataShards: nat, nrShards: nat, percentage: nat, blocksize: nat,
                     shards: array<Byte>, shardsP: array<Ptr>, payloadBuffers: seq<Desc>)

  /** Parity bytes of shard `j` of `m` over the given data shards: the Reed-Solomon code itself stays abstract. */
  type ReedSolomon = (seq<seq<Byte>>, nat, nat) -> seq<Byte>

  /** The counts of one block, and how they relate to its bytes. */
  lemma BlockCounts(size: nat, blocksize: nat)
    requires size > 0 && blocksize > 0
    ensures var aligned, data := size / blocksize, CeilDiv(size, blocksize);
            Times(aligned, blocksize) <= size < Times(aligned, blocksize) + blocksize
            && (size % blocksize != 0 <==> Times(aligned, blocksize) < size)
            && 0 < data && data == aligned + if Times(aligned, blocksize) < size then 1 else 0
  {
    CeilDivByRemainder(size, blocksize);
  }

  method PointIntoPayload(payload: array<Byte>, lo: nat, aligned: nat, blocksize: nat, shardsP: array<Ptr>)
    requires aligned <= shardsP.Length
    modifies shardsP
    ensures forall x :: 0 <= x < aligned ==> shardsP[x] == InPayload(payload, lo, blocksize, x)
  {
    var next := lo;
    for x := 0 to aligned
      invariant next == lo + Times(x, blocksize)
      invariant forall y :: 0 <= y < x ==> shardsP[y] == InPayload(payload, lo, blocksize, y)
    {
      shardsP[x] := At(payload, next);
      next := next + blocksize;
    }
  }

  /** The padded shard: what is left of the block, then zeros over whatever the buffer held. */
  method CopyPadded(payload: array<Byte>, next: nat, hi: nat, blocksize: nat, shards: array<Byte>)
    requires next <= hi <= payload.Length && hi - next <= blocksize <= shards.Length && payload != shards
    modifies shards
    ensures shards[..] == payload[next..hi] + Zeros(blocksize - (hi - next)) + old(shards[blocksize..])
  {
    var copyLen := Min(blocksize, hi - next);
    CopyInto(payload[next..next + copyLen], shards, 0);
    if copyLen < blocksize {
      CopyInto(Zeros(blocksize - copyLen), shards, copyLen);
    }
  }

  method PointIntoParity(shards: array<Byte>, aligned: nat, dataShards: nat, parityShards: nat, blocksize: nat,
                         shardsP: array<Ptr>)
    requires aligned <= dataShards && dataShards + parityShards == shardsP.Length
    modifies shardsP
    ensures forall x :: 0 <= x < dataShards ==> shardsP[x] == old(shardsP[x])
    ensures forall x :: dataShards <= x < shardsP.Length ==> shardsP[x] == At(shards, Times(x - aligned, blocksize))
  {
    for x := 0 to parityShards
      invariant forall y :: 0 <= y < dataShards ==> shardsP[y] == old(shardsP[y])
      invariant forall y :: dataShards <= y < dataShards + x ==> shardsP[y] == At(shards, Times(y - aligned, blocksize))
    {
      var off := Multiply(dataShards - aligned + x, blocksize);
      shardsP[dataShards + x] := At(shards, off);
    }
  }

  /** What the pointers of the data shards must lead to before parity can be computed. */
  ghost predicate DataInPlace(shardsP: seq<Ptr>, view: seq<Byte>, blocksize: nat, data: nat)
    reads set i, p | 0 <= i < |shardsP| && p == shardsP[i] && p.At? :: p.buf
  {
    && data <= |shardsP|
    && (data > 0 ==> Times(data - 1, blocksize) <= |view|)
    && forall x :: 0 <= x < data ==> ShardReady(shardsP[x], view, blocksize, x)
  }

  ghost predicate ShardReady(p: Ptr, view: seq<Byte>, blocksize: nat, x: nat)
    reads if p.At? then {p.buf} else {}
  {
    p.At? && p.off + blocksize <= p.buf.Length && Times(x, blocksize) <= |view|
        && BytesAt(p, blocksize) == DataShard(view, blocksize, x)
  }

  method GatherData(shardsP: array<Ptr>, dataShards: nat, blocksize: nat, ghost view: seq<Byte>)
    returns (data: seq<seq<Byte>>)
    requires DataInPlace(shardsP[..], view, blocksize, dataShards)
    ensures data == LeadingShards(view, blocksize, dataShards)
  {
    data := [];
    for x := 0 to dataShards
      invariant x > 0 ==> Times(x - 1, blocksize) <= |view|
      invariant data == LeadingShards(view, blocksize, x)
    {
      assert ShardReady(shardsP[..][x], view, blocksize, x);
      data := data + [BytesAt(shardsP[x], blocksize)];
    }
  }

  /** The Reed-Solomon library call: parity shard `j` is written where pointer `dataShards + j` leads. */
  method ReedSolomonEncode(rs: ReedSolomon, shardsP: array<Ptr>, dataShards: nat, parityShards: nat, aligned: nat,
                           blocksize: nat, shards: array<Byte>, ghost view: seq<Byte>)
    requires forall d, m, j :: |rs(d, m, j)| == blocksize
    requires aligned <= dataShards && shardsP.Length == dataShards + parityShards
    requires shards.Length == Times(shardsP.Length - aligned, blocksize)
    requires forall x :: dataShards <= x < shardsP.Length ==> shardsP[x] == At(shards, Times(x - aligned, blocksize))
    requires DataInPlace(shardsP[..], view, blocksize, dataShards)
    modifies shards
    ensures forall k: nat :: k < dataShards - aligned && Times(k + 1, blocksize) <= shards.Length ==>
              Region(shards[..], k, blocksize) == old(Region(shards[..], k, blocksize))
    ensures forall j: nat :: j < parityShards && Times(dataShards - aligned + j + 1, blocksize) <= shards.Length ==>
              Region(shards[..], dataShards - aligned + j, blocksize)
                  == rs(LeadingShards(view, blocksize, dataShards), parityShards, j)
  {
    var data := GatherData(shardsP, dataShards, blocksize, view);
    ghost var before := shards[..];
    for j := 0 to parityShards
      invariant ParityWritten(before, shards[..], dataShards - aligned, data, parityShards, blocksize, rs, j)
    {
      TimesMono(dataShards - aligned + j + 1, shardsP.Length - aligned, blocksize);
      WriteParity(rs, shardsP[dataShards + j], data, parityShards, j, blocksize, shards, before, dataShards - aligned);
    }
  }

  method WriteParity(rs: ReedSolomon, p: Ptr, data: seq<seq<Byte>>, parity: nat, j: nat, blocksize: nat,
                     shards: array<Byte>, ghost before: seq<Byte>, ghost base: nat)
    requires p == At(shards, Times(base + j, blocksize)) && p.off + blocksize <= shards.Length
    requires |rs(data, parity, j)| == blocksize
    requires ParityWritten(before, shards[..], base, data, parity, blocksize, rs, j)
    modifies shards
    ensures ParityWritten(before, shards[..], base, data, parity, blocksize, rs, j + 1)
  {
    ghost var now := shards[..];
    CopyInto(rs(data, parity, j), shards, p.off);
    ParityStep(before, now, shards[..], base, data, parity, blocksize, rs, j);
  }

  /** The regions before `base` are as they were, and the first `j` regions from there on are parity. */
  ghost predicate ParityWritten(before: seq<Byte>, extra: seq<Byte>, base: nat, data: seq<seq<Byte>>, parity: nat,
                                blocksize: nat, rs: ReedSolomon, j: nat)
  {
    && |extra| == |before|
    && (forall k: nat :: k < base && Times(k + 1, blocksize) <= |extra| ==>
          Region(extra, k, blocksize) == Region(before, k, blocksize))
    && (forall i: nat :: i < j && Times(base + i + 1, blocksize) <= |extra| ==>
          Region(extra, base + i, blocksize) == rs(data, parity, i))
  }

  lemma ParityStep(before: seq<Byte>, now: seq<Byte>, after: seq<Byte>, base: nat, data: seq<seq<Byte>>, parity: nat,
                   blocksize: nat, rs: ReedSolomon, j: nat)
    requires ParityWritten(before, now, base, data, parity, blocksize, rs, j)
    requires |rs(data, parity, j)| == blocksize && Times(base + j, blocksize) + blocksize <= |now|
    requires after == now[..Times(base + j, blocksize)] + rs(data, parity, j)
             + now[Times(base + j, blocksize) + blocksize..]
    ensures ParityWritten(before, after, base, data, parity, blocksize, rs, j + 1)
  {
    RegionWritten(now, base + j, rs(data, parity, j), blocksize, after);
  }

  /** Content of shard `x`: the data shards of the block in order, then their parity. */
  ghost function ShardContent(view: seq<Byte>, blocksize: nat, data: nat, parity: nat, rs: ReedSolomon,
                              x: nat): seq<Byte>
    requires data > 0 && Times(data - 1, blocksize) <= |view|
  {
    if x < data then
      TimesMono(x, data - 1, blocksize);
      DataShard(view, blocksize, x)
    else rs(LeadingShards(view, blocksize, data), parity, x - data)
  }

  /** Sizes of a block in units of `blocksize`: `aligned` full data shards, and one more if bytes are left over. */
  ghost predicate Sized(size: nat, blocksize: nat, aligned: nat, data: nat) {
    && blocksize > 0
    && Times(aligned, blocksize) <= size < Times(aligned, blocksize) + blocksize
    && 0 < data == aligned + if Times(aligned, blocksize) < size then 1 else 0
  }

  /** A data shard, full or padded, can be read through its pointer. */
  lemma DataReady(payload: array<Byte>, lo: nat, hi: nat, blocksize: nat, aligned: nat, data: nat,
                  shards: array<Byte>, x: nat)
    requires lo < hi <= payload.Length && Sized(hi - lo, blocksize, aligned, data) && x < data
    requires aligned < data ==> Times(1, blocksize) <= shards.Length
    requires aligned < data ==> Region(shards[..], 0, blocksize) == DataShard(payload[lo..hi], blocksize, aligned)
    ensures ShardReady(ShardAt(payload, lo, shards, aligned, blocksize, x), payload[lo..hi], blocksize, x)
  {
    if x < aligned {
      DataReadyAligned(payload, lo, hi, blocksize, aligned, x);
    } else {
      PaddedReady(payload, lo, hi, blocksize, aligned, shards);
    }
  }

  lemma PaddedReady(payload: array<Byte>, lo: nat, hi: nat, blocksize: nat, aligned: nat, shards: array<Byte>)
    requires lo < hi <= payload.Length && Times(aligned, blocksize) <= hi - lo && Times(1, blocksize) <= shards.Length
    requires Region(shards[..], 0, blocksize) == DataShard(payload[lo..hi], blocksize, aligned)
    ensures ShardReady(At(shards, Times(0, blocksize)), payload[lo..hi], blocksize, aligned)
  {
  }

  method PointToData(payload: array<Byte>, lo: nat, hi: nat, blocksize: nat, aligned: nat, data: nat,
                     shards: array<Byte>, shardsP: array<Ptr>)
    requires lo < hi <= payload.Length && Sized(hi - lo, blocksize, aligned, data) && payload != shards
    requires data <= shardsP.Length && (aligned < data ==> Times(1, blocksize) <= shards.Length)
    modifies shards, shardsP
    ensures forall x :: 0 <= x < data ==> shardsP[x] == ShardAt(payload, lo, shards, aligned, blocksize, x)
    ensures Times(data - 1, blocksize) <= hi - lo
    ensures aligned < data ==> Region(shards[..], 0, blocksize) == DataShard(payload[lo..hi], blocksize, aligned)
    ensures payload[..] == old(payload[..])
  {
    PointIntoPayload(payload, lo, aligned, blocksize, shardsP);
    TimesMono(data - 1, aligned, blocksize);
    if aligned < data {
      var next := Multiply(aligned, blocksize);
      shardsP[aligned] := At(shards, 0);
      CopyPadded(payload, lo + next, hi, blocksize, shards);
      SliceOfSlice(payload[..], lo, hi, next, hi - lo);
      assert payload[..][lo..hi] == payload[lo..hi];
    }
  }

  /** The extra buffer holds the padded data shard, if there is one, and then the parity shards. */
  ghost predicate ExtraHolds(extra: seq<Byte>, view: seq<Byte>, blocksize: nat, aligned: nat, data: nat, parity: nat,
                             rs: ReedSolomon)
  {
    && aligned <= data && 0 < data && Times(data - 1, blocksize) <= |view|
    && |extra| == Times(data + parity - aligned, blocksize)
    && forall x :: aligned <= x < data + parity ==> ExtraShardIs(extra, view, blocksize, aligned, data, parity, rs, x)
  }

  ghost predicate ExtraShardIs(extra: seq<Byte>, view: seq<Byte>, blocksize: nat, aligned: nat, data: nat,
                               parity: nat, rs: ReedSolomon, x: nat)
    requires aligned <= x && 0 < data && Times(data - 1, blocksize) <= |view|
  {
    Times(x - aligned + 1, blocksize) <= |extra|
    && Region(extra, x - aligned, blocksize) == ShardContent(view, blocksize, data, parity, rs, x)
  }

  lemma ParityFromPart(extra: seq<Byte>, view: seq<Byte>, blocksize: nat, aligned: nat, data: nat, parity: nat,
                       rs: ReedSolomon, j: nat)
    requires aligned <= data && 0 < data && Times(data - 1, blocksize) <= |view|
    requires Times(data - aligned + j + 1, blocksize) <= |extra|
    requires Region(extra, data - aligned + j, blocksize) == rs(LeadingShards(view, blocksize, data), parity, j)
    ensures ExtraShardIs(extra, view, blocksize, aligned, data, parity, rs, data + j)
  {
    assert data + j - aligned == data - aligned + j;
  }

  lemma PaddedFromPart(extra: seq<Byte>, view: seq<Byte>, blocksize: nat, aligned: nat, data: nat, parity: nat,
                       rs: ReedSolomon)
    requires data == aligned + 1 && Times(aligned, blocksize) <= |view| && Times(1, blocksize) <= |extra|
    requires Region(extra, 0, blocksize) == DataShard(view, blocksize, aligned)
    ensures ExtraShardIs(extra, view, blocksize, aligned, data, parity, rs, aligned)
  {
  }

  lemma ExtraFromParts(extra: seq<Byte>, view: seq<Byte>, blocksize: nat, aligned: nat, data: nat, parity: nat,
                       rs: ReedSolomon)
    requires Sized(|view|, blocksize, aligned, data) && Times(data - 1, blocksize) <= |view|
    requires |extra| == Times(data + parity - aligned, blocksize)
    requires aligned < data ==> Times(1, blocksize) <= |extra|
    requires aligned < data ==> Region(extra, 0, blocksize) == DataShard(view, blocksize, aligned)
    requires forall j: nat :: j < parity && Times(data - aligned + j + 1, blocksize) <= |extra| ==>
               Region(extra, data - aligned + j, blocksize) == rs(LeadingShards(view, blocksize, data), parity, j)
    ensures ExtraHolds(extra, view, blocksize, aligned, data, parity, rs)
  {
    forall x | aligned <= x < data + parity
      ensures ExtraShardIs(extra, view, blocksize, aligned, data, parity, rs, x)
    {
      TimesMono(x - aligned + 1, data + parity - aligned, blocksize);
      if x >= data {
        ParityFromPart(extra, view, blocksize, aligned, data, parity, rs, x - data);
      } else {
        PaddedFromPart(extra, view, blocksize, aligned, data, parity, rs);
      }
    }
  }

  method AddParity(payload: array<Byte>, lo: nat, hi: nat, blocksize: nat, aligned: nat, data: nat, parity: nat,
                   rs: ReedSolomon, shards: array<Byte>, shardsP: array<Ptr>)
    requires lo < hi <= payload.Length && Sized(hi - lo, blocksize, aligned, data) && payload != shards
    requires forall d, m, j :: |rs(d, m, j)| == blocksize
    requires shardsP.Length == data + parity && shards.Length == Times(data + parity - aligned, blocksize)
    requires forall x :: 0 <= x < data ==> shardsP[x] == ShardAt(payload, lo, shards, aligned, blocksize, x)
    requires aligned < data ==> Times(1, blocksize) <= shards.Length
    requires aligned < data ==> Region(shards[..], 0, blocksize) == DataShard(payload[lo..hi], blocksize, aligned)
    requires Times(data - 1, blocksize) <= hi - lo
    modifies shards, shardsP
    ensures forall x :: 0 <= x < shardsP.Length ==> shardsP[x] == ShardAt(payload, lo, shards, aligned, blocksize, x)
    ensures aligned < data ==> Region(shards[..], 0, blocksize) == DataShard(payload[lo..hi], blocksize, aligned)
    ensures forall j: nat :: j < parity && Times(data - aligned + j + 1, blocksize) <= shards.Length ==>
              Region(shards[..], data - aligned + j, blocksize)
                  == rs(LeadingShards(payload[lo..hi], blocksize, data), parity, j)
    ensures payload[..] == old(payload[..])
  {
    PointIntoParity(shards, aligned, data, parity, blocksize, shardsP);
    forall x | 0 <= x < data
      ensures ShardReady(shardsP[x], payload[lo..hi], blocksize, x)
    {
      DataReady(payload, lo, hi, blocksize, aligned, data, shards, x);
    }
    ReedSolomonEncode(rs, shardsP, data, parity, aligned, blocksize, shards, payload[lo..hi]);
  }

  method LayOut(payload: array<Byte>, lo: nat, hi: nat, blocksize: nat, aligned: nat, data: nat, parity: nat,
                withParity: bool, rs: ReedSolomon) returns (shards: array<Byte>, shardsP: array<Ptr>)
    requires lo < hi <= payload.Length && Sized(hi - lo, blocksize, aligned, data)
    requires forall d, m, j :: |rs(d, m, j)| == blocksize
    requires !withParity ==> parity == 0
    ensures fresh(shards) && fresh(shardsP) && shardsP.Length == data + parity
    ensures shards.Length == Times(data + parity - aligned, blocksize)
    ensures forall x :: 0 <= x < shardsP.Length ==> shardsP[x] == ShardAt(payload, lo, shards, aligned, blocksize, x)
    ensures Times(data - 1, blocksize) <= hi - lo
    ensures ExtraHolds(shards[..], payload[lo..hi], blocksize, aligned, data, parity, rs)
  {
    ghost var view := payload[lo..hi];
    var size := Multiply(data - aligned + parity, blocksize);
    shards := new Byte[size];
    shardsP := new Ptr[data + parity](_ => Null);
    TimesMono(data - aligned, data - aligned + parity, blocksize);
    PointToData(payload, lo, hi, blocksize, aligned, data, shards, shardsP);
    if withParity {
      AddParity(payload, lo, hi, blocksize, aligned, data, parity, rs, shards, shardsP);
    }
    ExtraFromParts(shards[..], view, blocksize, aligned, data, parity, rs);
  }

  /** What a finished block looks like, for the bytes `lo..hi` of the frame buffer. */
  ghost predicate Encoded(fec: Fec, payload: array<Byte>, lo: nat, hi: nat, aligned: nat, rs: ReedSolomon)
    reads fec.shards, fec.shardsP, payload
  {
    && lo < hi <= payload.Length && fec.dataShards <= fec.nrShards == fec.shardsP.Length
    && Sized(hi - lo, fec.blocksize, aligned, fec.dataShards)
    && fec.payloadBuffers == Buffers(payload, lo, fec.shards, aligned, fec.blocksize)
    && (forall x :: 0 <= x < fec.nrShards ==>
          fec.shardsP[x] == ShardAt(payload, lo, fec.shards, aligned, fec.blocksize, x))
    && ExtraHolds(fec.shards[..], payload[lo..hi], fec.blocksize, aligned, fec.dataShards,
       fec.nrShards - fec.dataShards, rs)
  }

  method Encode(payload: array<Byte>, lo: nat, hi: nat, blocksize: nat, fecPercentage: nat, minParityShards: nat,
                rs: ReedSolomon)
    returns (fec: Fec, ghost aligned: nat)
    requires lo < hi <= payload.Length && blocksize > 0
    requires forall d, m, j :: |rs(d, m, j)| == blocksize
    ensures fresh(fec.shards) && fresh(fec.shardsP) && fec.blocksize == blocksize
    ensures CeilDiv(hi - lo, blocksize) > 0
    ensures var plan := PlanShards(CeilDiv(hi - lo, blocksize), fecPercentage, minParityShards);
            fec.dataShards == plan.data && fec.nrShards == plan.data + plan.parity && fec.percentage == plan.percentage
    ensures aligned == (hi - lo) / blocksize && Encoded(fec, payload, lo, hi, aligned, rs)
  {
    var payloadSize := hi - lo;
    BlockCounts(payloadSize, blocksize);
    var pad := payloadSize % blocksize != 0;
    var alignedDataShards := payloadSize / blocksize;
    aligned := alignedDataShards;
    var dataShards := alignedDataShards + if pad then 1 else 0;
    var parityShards := (dataShards * fecPercentage + 99) / 100;
    var percentage := fecPercentage;
    if parityShards < minParityShards && percentage != 0 {
      parityShards := minParityShards;
      percentage := 100 * parityShards / dataShards;
      RaisedIsNonZero(dataShards, fecPercentage, minParityShards);
    }
    var shards, shardsP := LayOut(payload, lo, hi, blocksize, alignedDataShards, dataShards, parityShards,
        percentage != 0, rs);
    fec := Fec(dataShards, dataShards + parityShards, percentage, blocksize, shards, shardsP,
               Buffers(payload, lo, shards, alignedDataShards, blocksize));
  }

  /** A batched send finds every shard where its pointer leads. */
  lemma ShardsSendable(fec: Fec, payload: array<Byte>, lo: nat, hi: nat, aligned: nat, rs: ReedSolomon, x: nat)
    requires Encoded(fec, payload, lo, hi, aligned, rs) && x < fec.nrShards
    ensures var (p, room) := BufferForPayloadOffset(fec.payloadBuffers, Times(x, fec.blocksize));
            p == fec.shardsP[x] && room >= fec.blocksize
  {
    BatchedIsPerShard(payload, lo, fec.shards, aligned, fec.nrShards, fec.blocksize, x);
    assert fec.shardsP[x] == ShardAt(payload, lo, fec.shards, aligned, fec.blocksize, x);
  }

  /** Every shard, read through its pointer, is the intended content. */
  lemma ShardsReadable(fec: Fec, payload: array<Byte>, lo: nat, hi: nat, aligned: nat, rs: ReedSolomon, x: nat)
    requires Encoded(fec, payload, lo, hi, aligned, rs) && x < fec.nrShards
    ensures Holds(fec.shardsP[x], fec.blocksize,
                  ShardContent(payload[lo..hi], fec.blocksize, fec.dataShards, fec.nrShards - fec.dataShards, rs, x))
  {
    assert fec.shardsP[x] == ShardAt(payload, lo, fec.shards, aligned, fec.blocksize, x);
    ShardReadable(payload, lo, hi, fec.blocksize, aligned, fec.dataShards, fec.nrShards - fec.dataShards,
                  fec.shards, rs, x);
  }

  lemma ShardReadable(payload: array<Byte>, lo: nat, hi: nat, blocksize: nat, aligned: nat, data: nat, parity: nat,
                      shards: array<Byte>, rs: ReedSolomon, x: nat)
    requires lo < hi <= payload.Length && Sized(hi - lo, blocksize, aligned, data) && x < data + parity
    requires ExtraHolds(shards[..], payload[lo..hi], blocksize, aligned, data, parity, rs)
    ensures Holds(ShardAt(payload, lo, shards, aligned, blocksize, x), blocksize,
                  ShardContent(payload[lo..hi], blocksize, data, parity, rs, x))
  {
    var view := payload[lo..hi];
    if x < aligned {
      DataReadyAligned(payload, lo, hi, blocksize, aligned, x);
    } else {
      assert ExtraShardIs(shards[..], view, blocksize, aligned, data, parity, rs, x);
      ExtraReadable(shards, view, blocksize, aligned, data, parity, rs, x);
    }
  }

  lemma ExtraReadable(shards: array<Byte>, view: seq<Byte>, blocksize: nat, aligned: nat, data: nat, parity: nat,
                      rs: ReedSolomon, x: nat)
    requires aligned <= x && 0 < data && Times(data - 1, blocksize) <= |view|
    requires ExtraShardIs(shards[..], view, blocksize, aligned, data, parity, rs, x)
    ensures Holds(At(shards, Times(x - aligned, blocksize)), blocksize,
            ShardContent(view, blocksize, data, parity, rs, x))
  {
    var at := Times(x - aligned, blocksize);
    assert Times(x - aligned + 1, blocksize) == at + blocksize;
    assert shards[..][at..at + blocksize] == shards[at..at + blocksize];
  }

  ghost predicate Holds(p: Ptr, n: nat, content: seq<Byte>)
    reads if p.At? then {p.buf} else {}
  {
    p.At? && p.off + n <= p.buf.Length && BytesAt(p, n) == content
  }

  lemma DataReadyAligned(payload: array<Byte>, lo: nat, hi: nat, blocksize: nat, aligned: nat, x: nat)
    requires lo <= hi <= payload.Length && Times(aligned, blocksize) <= hi - lo && x < aligned
    ensures Times(x + 1, blocksize) <= hi - lo
    ensures BytesAt(At(payload, lo + Times(x, blocksize)), blocksize) == Region(payload[lo..hi], x, blocksize)
  {
    TimesMono(x, aligned, blocksize);
    SliceOfSlice(payload[..], lo, hi, Times(x, blocksize), Times(x + 1, blocksize));
    assert payload[..][lo..hi] == payload[lo..hi];
  }
}
