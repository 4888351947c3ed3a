/**
 Forward error correction planning: how many FEC blocks a frame is cut into, and where the cuts are.
 */
module FecPlan {
  import opened Arith

  const DATA_SHARDS_MAX: nat := 255
  const MAX_FEC_BLOCKS: nat := 4

  /** Bytes at the front of every shard that are taken by packet headers; any usable block is larger. */
  const PACKET_HEADERS: nat := 32

  datatype BlockPlan = BlockPlan(percentage: nat, blocks: nat, alignedSize: nat)

  function MaxDataShards(percentage: nat): nat {
    DATA_SHARDS_MAX * 100 / (100 + percentage)
  }

  lemma MaxShardsRange(percentage: nat)
    requires percentage <= 255
    ensures 71 <= MaxDataShards(percentage) <= 255
    ensures percentage >= 1 ==> MaxDataShards(percentage) <= 252
    ensures MaxDataShards(percentage) * (100 + percentage) <= 25500
  {
    var d, k := MaxDataShards(percentage), 100 + percentage;
    DivBounds(25500, k);
    MulMono(Min(d, 70), 70, k);
    MulMono(253, if d >= 253 then d else 253, k);
    MulMono(256, if d >= 256 then d else 256, k);
  }

  /** Bytes one FEC block may hold before it would need more than 255 shards. */
  function MaxDataPerBlock(percentage: nat, blocksize: nat): nat {
    Times(MaxDataShards(percentage), blocksize)
  }

  /** A block holds as many packets as leave room for their parity among 255 shards, and no more could. */
  lemma CapacityIsLargest(percentage: nat, blocksize: nat) returns (packets: nat)
    requires percentage <= 255 && blocksize > 0
    ensures MaxDataPerBlock(percentage, blocksize) == packets * blocksize
    ensures packets * (100 + percentage) <= 25500 < (packets + 1) * (100 + percentage)
  {
    packets := MaxDataShards(percentage);
    DivBounds(25500, 100 + percentage);
    TimesIsProduct(packets, blocksize);
    assert (packets + 1) * (100 + percentage) == packets * (100 + percentage) + (100 + percentage);
  }

  lemma MaxDataBounds(percentage: nat, blocksize: nat)
    requires percentage <= 255 && blocksize > 0
    ensures MaxDataPerBlock(percentage, blocksize) >= 71 * blocksize
  {
    MaxShardsRange(percentage);
    TimesIsProduct(71, blocksize);
    TimesMono(71, MaxDataShards(percentage), blocksize);
  }

  /** Size of all blocks but the last: an equal share, rounded up to whole packets. */
  function AlignedSize(total: nat, blocks: nat, blocksize: nat): nat
    requires blocks > 0 && blocksize > 0
  {
    Times(CeilDiv(total / blocks, blocksize), blocksize)
  }

  function PlanBlocks(total: nat, blocksize: nat, percentage: nat): BlockPlan
    requires total > 0 && blocksize > 0 && 1 <= percentage <= 255
  {
    MaxDataBounds(percentage, blocksize);
    var needed := CeilDiv(total, MaxDataPerBlock(percentage, blocksize));
    if needed > MAX_FEC_BLOCKS then
      BlockPlan(0, MAX_FEC_BLOCKS, AlignedSize(total, MAX_FEC_BLOCKS, blocksize))
    else
      BlockPlan(percentage, needed, AlignedSize(total, needed, blocksize))
  }

  /** The plan as the sender computes it. */
  method ComputePlan(total: nat, blocksize: nat, fecPercentage: nat) returns (p: BlockPlan)
    requires total > 0 && blocksize > 0 && 1 <= fecPercentage <= 255
    ensures p == PlanBlocks(total, blocksize, fecPercentage)
  {
    var percentage := fecPercentage;
    var maxDataShards := DATA_SHARDS_MAX * 100 / (100 + percentage);
    var maxData := Multiply(maxDataShards, blocksize);
    MaxDataBounds(percentage, blocksize);
    var needed := RoundUp(total, maxData);
    if needed > MAX_FEC_BLOCKS {
      percentage := 0;
      needed := MAX_FEC_BLOCKS;
    }
    var shards := RoundUp(total / needed, blocksize);
    var aligned := Multiply(shards, blocksize);
    p := BlockPlan(percentage, needed, aligned);
  }

  /** How much of the frame the plan's blocks may and must cover; FEC goes off exactly beyond four full blocks. */
  lemma {:induction false} PlanCapacity(total: nat, blocksize: nat, percentage: nat)
    requires total > 0 && blocksize > 0 && 1 <= percentage <= 255
    ensures var p, cap := PlanBlocks(total, blocksize, percentage), MaxDataPerBlock(percentage, blocksize);
            && 1 <= p.blocks <= MAX_FEC_BLOCKS
            && p.percentage == (if total > MAX_FEC_BLOCKS * cap then 0 else percentage)
            && (p.blocks - 1) * cap < total
            && (p.percentage != 0 ==> total <= p.blocks * cap)
  {
    var cap := MaxDataPerBlock(percentage, blocksize);
    MaxDataBounds(percentage, blocksize);
    var needed := CeilDiv(total, cap);
    CeilDivBounds(total, cap);
    FewTimes(cap);
    TimesMonoIf(needed, MAX_FEC_BLOCKS, cap);
    TimesMonoIf(MAX_FEC_BLOCKS, needed - 1, cap);
    assert needed > 4 || needed == 1 || needed == 2 || needed == 3 || needed == 4;
  }

  lemma FewTimes(k: nat)
    ensures Times(0, k) == 0 && Times(1, k) == k && Times(2, k) == 2 * k && Times(3, k) == 3 * k && Times(4, k) == 4 * k
  {
    assert Times(3, k) == Times(2, k) + k && Times(4, k) == Times(3, k) + k;
  }

  lemma AlignedBounds(total: nat, blocks: nat, blocksize: nat)
    requires 1 <= blocks <= MAX_FEC_BLOCKS && blocksize > 0
    ensures var u, a := total / blocks, AlignedSize(total, blocks, blocksize);
            u <= a < u + blocksize && u * blocks <= total < u * blocks + blocks
  {
    var u := total / blocks;
    CeilDivBounds(u, blocksize);
    DivBounds(total, blocks);
    if u > 0 {
      assert Times(CeilDiv(u, blocksize), blocksize) == Times(CeilDiv(u, blocksize) - 1, blocksize) + blocksize;
    }
  }

  ghost predicate CutsFit(total: nat, p: BlockPlan) {
    p.blocks > 0 && Times(p.blocks - 1, p.alignedSize) < total
  }

  /** Every cut lies inside the frame at a whole number of packets, so the last block is never empty. */
  lemma {:induction false} CutsInside(total: nat, blocksize: nat, percentage: nat)
    requires total > 0 && blocksize > 0 && 1 <= percentage <= 255
    ensures var p := PlanBlocks(total, blocksize, percentage);
            CutsFit(total, p) && p.alignedSize == Times(CeilDiv(total / p.blocks, blocksize), blocksize)
  {
    var p, cap := PlanBlocks(total, blocksize, percentage), MaxDataPerBlock(percentage, blocksize);
    PlanCapacity(total, blocksize, percentage);
    MaxDataBounds(percentage, blocksize);
    AlignedBounds(total, p.blocks, blocksize);
    FewTimes(p.alignedSize);
    assert p.blocks == 1 || p.blocks == 2 || p.blocks == 3 || p.blocks == 4;
  }

  /** Every block but the last is the same positive number of whole packets. */
  lemma PlanShape(total: nat, blocksize: nat, percentage: nat) returns (a: nat)
    requires total >= MAX_FEC_BLOCKS && blocksize > 0 && 1 <= percentage <= 255
    ensures var p := PlanBlocks(total, blocksize, percentage);
            CutsFit(total, p) && p.alignedSize == Times(a, blocksize) > 0
  {
    var p := PlanBlocks(total, blocksize, percentage);
    PlanCapacity(total, blocksize, percentage);
    CutsInside(total, blocksize, percentage);
    AlignedBounds(total, p.blocks, blocksize);
    a := CeilDiv(total / p.blocks, blocksize);
    assert p.blocks == 1 || p.blocks == 2 || p.blocks == 3 || p.blocks == 4;
  }

  /** Where block `x` starts; block `p.blocks` would start at the end of the frame. */
  function Cut(total: nat, p: BlockPlan, x: nat): nat
    requires x <= p.blocks
  {
    if x == p.blocks then total else Times(x, p.alignedSize)
  }

  lemma CutStep(total: nat, p: BlockPlan, x: nat)
    requires CutsFit(total, p) && x < p.blocks
    ensures Cut(total, p, x) == Times(x, p.alignedSize) <= Cut(total, p, x + 1) <= total
    ensures x < p.blocks - 1 ==> Cut(total, p, x + 1) == Cut(total, p, x) + p.alignedSize
  {
    TimesMono(x, p.blocks - 1, p.alignedSize);
  }

  /** The part of `frame` that block `x` covers. */
  function Block<T>(frame: seq<T>, p: BlockPlan, x: nat): seq<T>
    requires CutsFit(|frame|, p) && x < p.blocks
  {
    CutStep(|frame|, p, x);
    frame[Cut(|frame|, p, x)..Cut(|frame|, p, x + 1)]
  }

  /**
   While FEC is on, no block needs more data shards than the shard limit leaves room for; the last
   block, which takes the remainder of the division, is the interesting case.
   */
  lemma BlockShardsBound<T>(frame: seq<T>, blocksize: nat, percentage: nat, x: nat)
    requires |frame| > 0 && blocksize > PACKET_HEADERS && 1 <= percentage <= 255
    requires x < PlanBlocks(|frame|, blocksize, percentage).blocks
    requires PlanBlocks(|frame|, blocksize, percentage).percentage != 0
    ensures CutsFit(|frame|, PlanBlocks(|frame|, blocksize, percentage))
    ensures CeilDiv(|Block(frame, PlanBlocks(|frame|, blocksize, percentage), x)|, blocksize)
            <= MaxDataShards(percentage)
  {
    var p := PlanBlocks(|frame|, blocksize, percentage);
    AlignedFits(|frame|, blocksize, percentage);
    CutStep(|frame|, p, x);
    CeilDivAtMost(|Block(frame, p, x)|, blocksize, MaxDataShards(percentage));
  }

  lemma AlignedFits(total: nat, blocksize: nat, percentage: nat)
    requires total > 0 && blocksize > PACKET_HEADERS && 1 <= percentage <= 255
    requires PlanBlocks(total, blocksize, percentage).percentage != 0
    ensures var p, cap := PlanBlocks(total, blocksize, percentage), MaxDataPerBlock(percentage, blocksize);
            CutsFit(total, p) && p.alignedSize <= cap && total - Times(p.blocks - 1, p.alignedSize) <= cap
  {
    var p, cap := PlanBlocks(total, blocksize, percentage), MaxDataPerBlock(percentage, blocksize);
    PlanCapacity(total, blocksize, percentage);
    CutsInside(total, blocksize, percentage);
    AlignedBounds(total, p.blocks, blocksize);
    ShareFits(total, p.blocks, total / p.blocks, cap);
    CeilDivAtMost(total / p.blocks, blocksize, MaxDataShards(percentage));
    TimesMono(CeilDiv(total / p.blocks, blocksize), MaxDataShards(percentage), blocksize);
    RemainderFits(total, p.blocks, total / p.blocks, p.alignedSize, cap, blocksize);
  }

  lemma ShareFits(total: nat, n: nat, u: nat, cap: nat)
    requires 1 <= n <= MAX_FEC_BLOCKS && u * n <= total <= n * cap
    ensures u <= cap
  {
    assert n == 1 || n == 2 || n == 3 || n == 4;
  }

  /** Whole packets either fill a block or leave a packet's room in it, which is enough for the remainder. */
  lemma RemainderFits(total: nat, n: nat, u: nat, aligned: nat, cap: nat, blocksize: nat)
    requires 1 <= n <= MAX_FEC_BLOCKS <= blocksize && u * n <= total < u * n + n && total <= n * cap
    requires u <= aligned && (aligned == cap || aligned + blocksize <= cap)
    ensures total - Times(n - 1, aligned) <= cap
  {
    FewTimes(aligned);
    assert n == 1 || n == 2 || n == 3 || n == 4;
  }

  function Concat<T>(parts: seq<seq<T>>): seq<T> {
    if parts == [] then [] else Concat(parts[..|parts| - 1]) + parts[|parts| - 1]
  }

  lemma ConcatSnoc<T>(parts: seq<seq<T>>, next: seq<T>)
    ensures Concat(parts + [next]) == Concat(parts) + next
  {
    assert (parts + [next])[..|parts|] == parts;
  }

  /** The splitting loop: the blocks are the plan's blocks, and together they are the frame. */
  method SplitBlocks<T>(frame: seq<T>, blocksize: nat, percentage: nat) returns (p: BlockPlan, blocks: seq<seq<T>>)
    requires |frame| > 0 && blocksize > 0 && 1 <= percentage <= 255
    ensures p == PlanBlocks(|frame|, blocksize, percentage) && |blocks| == p.blocks
    ensures CutsFit(|frame|, p)
    ensures forall x :: 0 <= x < |blocks| ==> blocks[x] == Block(frame, p, x)
    ensures Concat(blocks) == frame
  {
    p := ComputePlan(|frame|, blocksize, percentage);
    CutsInside(|frame|, blocksize, percentage);
    blocks := CutAt(frame, p);
  }

  method CutAt<T>(frame: seq<T>, p: BlockPlan) returns (blocks: seq<seq<T>>)
    requires CutsFit(|frame|, p)
    ensures |blocks| == p.blocks
    ensures forall x :: 0 <= x < |blocks| ==> blocks[x] == Block(frame, p, x)
    ensures Concat(blocks) == frame
  {
    blocks := [];
    for x := 0 to p.blocks
      invariant |blocks| == x
      invariant forall y :: 0 <= y < x ==> blocks[y] == Block(frame, p, y)
      invariant 0 <= Cut(|frame|, p, x) <= |frame|
      invariant Concat(blocks) == frame[..Cut(|frame|, p, x)]
    {
      CutStep(|frame|, p, x);
      var offset := Multiply(x, p.alignedSize);
      var next := if x == p.blocks - 1 then frame[offset..] else frame[offset..offset + p.alignedSize];
      ConcatSnoc(blocks, next);
      assert next == Block(frame, p, x);
      blocks := blocks + [next];
    }
  }
}
