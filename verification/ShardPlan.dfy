/**
 How many parity shards a FEC block gets, and what the packet header tells the client about it.
 */
module ShardPlan {
  import opened Arith
  import opened FecPlan

  datatype ShardPlan = ShardPlan(data: nat, parity: nat, percentage: nat)

  function ParityFor(data: nat, percentage: nat): nat {
    (data * percentage + 99) / 100
  }

  function PlanShards(data: nat, percentage: nat, minParity: nat): ShardPlan
    requires data > 0
  {
    var parity := ParityFor(data, percentage);
    if parity < minParity && percentage != 0 then
      ShardPlan(data, minParity, 100 * minParity / data)
    else
      ShardPlan(data, parity, percentage)
  }

  predicate Raised(data: nat, percentage: nat, minParity: nat) {
    percentage != 0 && ParityFor(data, percentage) < minParity
  }

  /**
   The parity is the least number of shards that is at least the percentage's share, and the client's minimum
   when that is more.
   */
  lemma {:induction false} ParityIsShare(data: nat, percentage: nat, minParity: nat)
    requires data > 0
    ensures var plan := PlanShards(data, percentage, minParity);
            && plan.data == data
            && if percentage == 0 || data * percentage > 100 * (minParity - 1) then
                 plan.percentage == percentage && data * percentage <= 100 * plan.parity < data * percentage + 100
               else
                 plan.parity == minParity && 100 * plan.parity >= data * percentage + 100
  {
    var share := data * percentage;
    assert 100 * ((share + 99) / 100) <= share + 99 < 100 * ((share + 99) / 100) + 100;
  }

  /** Parity at the configured percentage always fits beside the data shards of a planned block. */
  lemma {:induction false} ParityFits(data: nat, percentage: nat)
    requires percentage <= 255 && data <= MaxDataShards(percentage)
    ensures data + ParityFor(data, percentage) <= DATA_SHARDS_MAX
  {
    MaxShardsRange(percentage);
    MulMono(data, MaxDataShards(percentage), 100 + percentage);
    assert data * (100 + percentage) == data * 100 + data * percentage;
    assert data * percentage <= (255 - data) * 100;
  }

  /**
   The 255-shard limit of the Reed-Solomon code: within a planned block it holds exactly when the
   requested minimum of parity shards fits beside the data shards.
   */
  lemma {:induction false} ShardLimit(data: nat, percentage: nat, minParity: nat)
    requires 1 <= percentage <= 255 && 0 < data <= MaxDataShards(percentage)
    ensures var s := PlanShards(data, percentage, minParity);
            s.data + s.parity <= DATA_SHARDS_MAX <==> data + minParity <= DATA_SHARDS_MAX
  {
    ParityFits(data, percentage);
  }

  /** The limit holds for every block the planner can produce exactly when it holds for the largest. */
  lemma {:induction false} ShardLimitForAllBlocks(percentage: nat, minParity: nat)
    requires 1 <= percentage <= 255
    ensures (forall data | 0 < data <= MaxDataShards(percentage) ::
               PlanShards(data, percentage, minParity).data
                   + PlanShards(data, percentage, minParity).parity <= DATA_SHARDS_MAX)
            <==> MaxDataShards(percentage) + minParity <= DATA_SHARDS_MAX
    ensures minParity <= 3 ==> MaxDataShards(percentage) + minParity <= DATA_SHARDS_MAX
  {
    MaxShardsRange(percentage);
    forall data | 0 < data <= MaxDataShards(percentage)
      ensures var s := PlanShards(data, percentage, minParity);
              s.data + s.parity <= DATA_SHARDS_MAX <==> data + minParity <= DATA_SHARDS_MAX
    {
      ShardLimit(data, percentage, minParity);
    }
    var largest := PlanShards(MaxDataShards(percentage), percentage, minParity);
  }

  /** A client that asks for four parity shards at one percent gets a block of 256 shards. */
  lemma ShardLimitBroken()
    ensures MaxDataShards(1) == 252
    ensures PlanShards(252, 1, 4) == ShardPlan(252, 4, 1)
  {
  }

  /** When FEC is switched off there is no parity, whatever minimum was asked for. */
  lemma NoParityWhenOff(data: nat, minParity: nat)
    requires data > 0
    ensures PlanShards(data, 0, minParity) == ShardPlan(data, 0, 0)
  {
  }

  /** A raised percentage never truncates to zero, so the parity shards are always generated. */
  lemma {:induction false} RaisedIsNonZero(data: nat, percentage: nat, minParity: nat)
    requires data > 0 && Raised(data, percentage, minParity)
    ensures data <= 100 * (minParity - 1)
    ensures PlanShards(data, percentage, minParity).percentage >= 1
  {
    MulMono(1, percentage, data);
    assert data <= data * percentage;
    QuotientBelow(100 * minParity, data, 1);
  }

  /**
   The client recomputes the parity count from the advertised percentage. It gets the right number
   exactly when the percentage was not raised, or raising it lost less than one percent per shard.
   */
  lemma {:induction false} AdvertisedParity(data: nat, percentage: nat, minParity: nat)
    requires data > 0
    ensures var s := PlanShards(data, percentage, minParity);
            ParityFor(data, s.percentage) == s.parity
            <==> (Raised(data, percentage, minParity) ==> 100 * minParity % data < 100)
  {
    if Raised(data, percentage, minParity) {
      var q, r := 100 * minParity / data, 100 * minParity % data;
      assert data * q == 100 * minParity - r;
    }
  }

  /** Up to a hundred data shards, and for any minimum up to two, the advertised percentage is faithful. */
  lemma {:induction false} AdvertisedParityFaithful(data: nat, percentage: nat, minParity: nat)
    requires data > 0 && (data <= 100 || minParity <= 2)
    ensures var s := PlanShards(data, percentage, minParity); ParityFor(data, s.percentage) == s.parity
  {
    AdvertisedParity(data, percentage, minParity);
    if Raised(data, percentage, minParity) {
      RaisedIsNonZero(data, percentage, minParity);
      assert 100 * minParity % data < data;
    }
  }

  lemma AdvertisedParityWrong()
    ensures PlanShards(180, 1, 3) == ShardPlan(180, 3, 1) && ParityFor(180, 1) == 2
  {
  }

  // The fecInfo word of the video packet header.

  function FecInfo(index: bv64, data: bv64, percentage: bv64): bv32 {
    (((index << 12) | (data << 22) | (percentage << 4)) & 0xFFFF_FFFF) as bv32
  }

  function InfoIndex(info: bv32): bv32 { (info >> 12) & 0x3FF }

  function InfoData(info: bv32): bv32 { (info >> 22) & 0x3FF }

  function InfoPercentage(info: bv32): bv32 { (info >> 4) & 0xFF }

  /** The three fields come back exactly when each fits its field: ten, ten and eight bits. */
  lemma FecInfoRoundTrip(index: bv64, data: bv64, percentage: bv64)
    ensures var info := FecInfo(index, data, percentage);
            (InfoIndex(info) as bv64 == index && InfoData(info) as bv64 == data
                && InfoPercentage(info) as bv64 == percentage)
            <==> (index < 1024 && data < 1024 && percentage < 256)
  {
  }

  /** The index starts at bit 12, the number of data shards at bit 22, the percentage at bit 4. */
  lemma FecInfoSpelled()
    ensures FecInfo(1, 0, 0) == 0x1000 && FecInfo(0, 1, 0) == 0x40_0000 && FecInfo(0, 0, 1) == 0x10
    ensures FecInfo(5, 180, 20) == 5 * 0x1000 + 180 * 0x40_0000 + 20 * 0x10
  {
  }

  predicate TenBits(n: int) { 0 <= n < 1024 }

  /** The three fields of every shard of a block fit the header word. */
  ghost predicate FieldsFit(s: ShardPlan) {
    TenBits(s.data) && s.percentage < 256 && forall index :: 0 <= index < s.data + s.parity ==> TenBits(index)
  }

  /**
   Which planned blocks have header fields that fit. With FEC off only the number of data shards counts;
   with FEC on only a raised block can fail, by its number of shards or by its percentage.
   */
  lemma {:induction false} PlannedFieldsFit(data: nat, percentage: nat, minParity: nat)
    requires data > 0 && percentage <= 255 && (percentage > 0 ==> data <= MaxDataShards(percentage))
    ensures FieldsFit(PlanShards(data, percentage, minParity))
            <==> if percentage == 0 then data < 1024
                 else Raised(data, percentage, minParity) ==> data + minParity <= 1024 && 100 * minParity < 256 * data
    ensures percentage > 0 && minParity <= 2 ==> FieldsFit(PlanShards(data, percentage, minParity))
  {
    var s := PlanShards(data, percentage, minParity);
    assert TenBits(s.data + s.parity - 1) <==> s.data + s.parity <= 1024;
    MaxShardsRange(percentage);
    if percentage > 0 {
      ParityFits(data, percentage);
      QuotientBelow(100 * minParity, data, 256);
    }
  }

  lemma QuotientBelow(a: nat, b: nat, limit: nat)
    requires b > 0
    ensures a / b < limit <==> a < limit * b
  {
    var q := a / b;
    DivBounds(a, b);
    assert (q + 1) * b == q * b + b;
    if q < limit {
      MulMono(q + 1, limit, b);
    } else {
      MulMono(limit, q, b);
    }
  }

  /** One data shard and a minimum of three parity shards advertise 300 percent, which reads back as 44. */
  lemma AdvertisedPercentageOverflows()
    ensures PlanShards(1, 20, 3) == ShardPlan(1, 3, 300)
    ensures InfoPercentage(FecInfo(0, 1, 300)) == 44 && InfoIndex(FecInfo(0, 1, 300)) == 1
  {
  }
}
