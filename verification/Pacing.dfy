/**
 Sending order and pacing of the video thread, which serves the frames of all sessions in turn: shards go out
 in batches, each packet numbered one up from the session's packet before, and batches wait for the clock so
 that the link is never flooded.
 Times are in nanoseconds. The clock is the environment's: it only promises not to run backwards, and a
 sleep lasts at least as long as asked for.
 */
module Pacing {
  import opened Arith

  const NS_PER_MS: nat := 1_000_000

  /** Packets that use about 80% of 1 Gbps for one millisecond. */
  function PacketsIn1ms(blocksize: nat): nat
    requires blocksize > 0
  {
    1_000_000_000 * 80 / 100 / 1000 / blocksize / 8
  }

  function SendBatchSize(blocksize: nat): nat
    requires blocksize > 0
  {
    Min(64, 64 * 1024 / blocksize)
  }

  /** It is the largest whole number of packets with at most 800000 bits: 80% of 1 Gbps, for one millisecond. */
  lemma RateInBits(blocksize: nat)
    requires blocksize > 0
    ensures 8 * blocksize * PacketsIn1ms(blocksize) <= 800_000 < 8 * blocksize * (PacketsIn1ms(blocksize) + 1)
  {
    DivBounds(800_000, blocksize);
    EightfoldDiv(800_000, blocksize, 800_000 / blocksize);
  }

  lemma EightfoldDiv(n: nat, k: nat, whole: nat)
    requires whole * k <= n < whole * k + k
    ensures 8 * k * (whole / 8) <= n < 8 * k * (whole / 8 + 1)
  {
    var q := whole / 8;
    MulMono(8 * q, whole, k);
    MulMono(whole + 1, 8 * (q + 1), k);
    assert (whole + 1) * k == whole * k + k;
    assert 8 * k * q == 8 * q * k && 8 * k * (q + 1) == 8 * (q + 1) * k;
  }

  /** A batch is the largest of at most 64 packets and at most 64 KiB. */
  lemma BatchInBytes(blocksize: nat)
    requires blocksize > 0
    ensures var n := SendBatchSize(blocksize);
            && n <= 64 && n * blocksize <= 65536
            && (n < 64 ==> (n + 1) * blocksize > 65536)
  {
    var n, fit := SendBatchSize(blocksize), 65536 / blocksize;
    DivBounds(65536, blocksize);
    MulMono(n, fit, blocksize);
    assert (fit + 1) * blocksize == fit * blocksize + blocksize;
  }

  /** The rate is usable exactly for blocks of up to 100000 bytes; beyond that the code would divide by zero. */
  lemma RatePositive(blocksize: nat)
    requires blocksize > 0
    ensures PacketsIn1ms(blocksize) > 0 <==> blocksize <= 100_000
  {
    RateInBits(blocksize);
    var packets := PacketsIn1ms(blocksize);
    if packets == 0 {
      assert 8 * blocksize * (packets + 1) == 8 * blocksize;
    } else {
      MulMono(1, packets, 8 * blocksize);
    }
  }

  /**
   One batch of `count` packets, handed to the socket in frame `frame` at `time`. `first` packets were sent
   before it, and `number` is the number of its first packet in its session.
   */
  datatype Batch = Batch(time: int, frame: nat, first: nat, count: nat, session: nat, number: nat)

  function End(b: Batch): nat { b.first + b.count }

  /** Packets handed over by time `t`. */
  function SentBy(log: seq<Batch>, t: int): nat {
    if log == [] then 0
    else SentBy(log[..|log| - 1], t) + if log[|log| - 1].time <= t then log[|log| - 1].count else 0
  }

  ghost predicate TimesInOrder(log: seq<Batch>) {
    forall i, j :: 0 <= i < j < |log| ==> log[i].time <= log[j].time
  }

  /** The batches count all packets of the thread: each starts where the one before it ends. */
  ghost predicate Contiguous(log: seq<Batch>, start: nat, end: nat) {
    if log == [] then start == end
    else
      var b := log[|log| - 1];
      b.count > 0 && b.first + b.count == end && Contiguous(log[..|log| - 1], start, b.first)
  }

  /** The packets of session `k` are numbered from `start` to `end`, without a gap. */
  ghost predicate Numbered(log: seq<Batch>, k: nat, start: nat, end: nat) {
    if log == [] then start == end
    else
      var rest, b := log[..|log| - 1], log[|log| - 1];
      if b.session == k then b.number + b.count == end && Numbered(rest, k, start, b.number)
      else Numbered(rest, k, start, end)
  }

  ghost predicate Full(log: seq<Batch>, most: nat) {
    forall i :: 0 <= i < |log| ==> log[i].count == most
  }

  ghost predicate FullButLast(log: seq<Batch>, most: nat) {
    forall i :: 0 <= i < |log| - 1 ==> log[i].count == most
  }

  ghost predicate OfSession(log: seq<Batch>, session: nat) {
    forall i :: 0 <= i < |log| ==> log[i].session == session
  }

  lemma {:induction false} NumberedJoin(log: seq<Batch>, sent: seq<Batch>, k: nat, start: nat, mid: nat, end: nat)
    requires Numbered(log, k, start, mid) && Numbered(sent, k, mid, end)
    ensures Numbered(log + sent, k, start, end)
  {
    if sent == [] {
      assert log + sent == log;
    } else {
      var rest, b := sent[..|sent| - 1], sent[|sent| - 1];
      assert (log + sent)[..|log + sent| - 1] == log + rest;
      NumberedJoin(log, rest, k, start, mid, if b.session == k then b.number else end);
    }
  }

  lemma {:induction false} OthersNumbered(sent: seq<Batch>, session: nat, k: nat, at: nat)
    requires OfSession(sent, session) && k != session
    ensures Numbered(sent, k, at, at)
  {
    if sent != [] {
      OthersNumbered(sent[..|sent| - 1], session, k, at);
    }
  }

  /** The number of the next packet of session `k`; a session starts at 0. */
  function NextOf(lowseqs: map<nat, nat>, k: nat): nat {
    if k in lowseqs then lowseqs[k] else 0
  }

  ghost predicate AllNumbered(log: seq<Batch>, lowseqs: map<nat, nat>) {
    forall k: nat :: Numbered(log, k, 0, NextOf(lowseqs, k))
  }

  lemma FrameNumbered(log: seq<Batch>, lowseqs: map<nat, nat>, sent: seq<Batch>, session: nat, end: nat)
    requires AllNumbered(log, lowseqs)
    requires OfSession(sent, session) && Numbered(sent, session, NextOf(lowseqs, session), end)
    ensures AllNumbered(log + sent, lowseqs[session := end])
  {
    var lowseqs' := lowseqs[session := end];
    forall k: nat
      ensures Numbered(log + sent, k, 0, NextOf(lowseqs', k))
    {
      var at := NextOf(lowseqs, k);
      assert Numbered(log, k, 0, at);
      if k != session {
        OthersNumbered(sent, session, k, at);
      }
      NumberedJoin(log, sent, k, 0, at, NextOf(lowseqs', k));
    }
  }

  /** What `ns` nanoseconds allow at `rate`, in millionths of a packet: the product, kept opaque to the solver. */
  function Share(rate: nat, ns: int): int
    decreases if ns < 0 then -ns else ns
  {
    if ns == 0 then 0 else if ns > 0 then Share(rate, ns - 1) + rate else Share(rate, ns + 1) - rate
  }

  lemma {:induction false} ShareIsProduct(rate: nat, ns: int)
    ensures Share(rate, ns) == rate * ns
    decreases if ns < 0 then -ns else ns
  {
    if ns > 0 {
      ShareIsProduct(rate, ns - 1);
      assert rate * ns == rate * (ns - 1) + rate;
    } else if ns < 0 {
      ShareIsProduct(rate, ns + 1);
      assert rate * ns == rate * (ns + 1) - rate;
    }
  }

  lemma ShareAdd(rate: nat, a: int, b: int)
    ensures Share(rate, a) + Share(rate, b) == Share(rate, a + b)
  {
    ShareIsProduct(rate, a);
    ShareIsProduct(rate, b);
    ShareIsProduct(rate, a + b);
    assert rate * (a + b) == rate * a + rate * b;
  }

  lemma ShareMono(rate: nat, a: int, b: int)
    requires a <= b
    ensures Share(rate, a) <= Share(rate, b)
  {
    ShareAdd(rate, a, b - a);
    ShareIsProduct(rate, b - a);
    assert rate * (b - a) >= 0;
  }

  /** When a frame started, and how many packets had been sent before it. */
  datatype Start = Start(time: int, first: nat)

  ghost predicate StartsInOrder(starts: seq<Start>) {
    forall i, j :: 0 <= i < j < |starts| ==> starts[i].time <= starts[j].time
  }

  /** Frames begun by time `t`. */
  function Begun(starts: seq<Start>, t: int): (n: nat)
    ensures n <= |starts|
  {
    if starts == [] then 0 else Begun(starts[..|starts| - 1], t) + if starts[|starts| - 1].time <= t then 1 else 0
  }

  lemma {:induction false} BegunIsPrefix(starts: seq<Start>, t: int)
    requires StartsInOrder(starts)
    ensures forall i :: 0 <= i < |starts| ==> (starts[i].time <= t <==> i < Begun(starts, t))
  {
    if starts != [] {
      BegunIsPrefix(starts[..|starts| - 1], t);
    }
  }

  /** A frame that ended let at most `rate` packets per millisecond go before the next could start. */
  ghost predicate FrameBound(starts: seq<Start>, f: nat, rate: nat)
    requires f + 1 < |starts|
  {
    && starts[f].first <= starts[f + 1].first
    && NS_PER_MS * (starts[f + 1].first - starts[f].first) <= Share(rate, starts[f + 1].time - starts[f].time + 1)
  }

  /** The packets a frame has out by the time of a batch are at most the rate's share plus one burst. */
  ghost predicate BatchBound(b: Batch, starts: seq<Start>, rate: nat, burst: nat)
  {
    && b.frame < |starts| && starts[b.frame].time <= b.time
    && NS_PER_MS * (End(b) - starts[b.frame].first) <= Share(rate, b.time - starts[b.frame].time + 1)
       + NS_PER_MS * burst
    && (b.frame + 1 < |starts| ==> End(b) <= starts[b.frame + 1].first)
  }

  ghost predicate Paced(log: seq<Batch>, starts: seq<Start>, rate: nat, burst: nat) {
    && TimesInOrder(log) && StartsInOrder(starts)
    && (forall f: nat :: f + 1 < |starts| ==> FrameBound(starts, f, rate))
    && (forall i :: 0 <= i < |log| ==> BatchBound(log[i], starts, rate, burst))
  }

  lemma {:induction false} FramesBound(starts: seq<Start>, f: nat, g: nat, rate: nat)
    requires f <= g < |starts| && forall h: nat :: h + 1 < |starts| ==> FrameBound(starts, h, rate)
    ensures starts[f].first <= starts[g].first
    ensures NS_PER_MS * (starts[g].first - starts[f].first) <= Share(rate, starts[g].time - starts[f].time + (g - f))
  {
    if f < g {
      FramesBound(starts, f, g - 1, rate);
      assert FrameBound(starts, g - 1, rate);
      ShareAdd(rate, starts[g - 1].time - starts[f].time + (g - 1 - f), starts[g].time - starts[g - 1].time + 1);
    }
  }

  /** With times in order, what was sent by `t` is a prefix of the log, and its end counts the packets. */
  lemma {:induction false} SentByIsPrefix(log: seq<Batch>, start: nat, end: nat, t: int) returns (m: nat)
    requires TimesInOrder(log) && Contiguous(log, start, end)
    ensures m <= |log| && (m > 0 ==> log[m - 1].time <= t)
    ensures start + SentBy(log, t) == if m == 0 then start else End(log[m - 1])
    ensures m == |log| ==> start + SentBy(log, t) == end
  {
    if log == [] {
      m := 0;
    } else {
      var last := |log| - 1;
      m := SentByIsPrefix(log[..last], start, log[last].first, t);
      if log[last].time <= t {
        AllSent(log[..last], start, log[last].first, t);
        m := |log|;
      }
    }
  }

  lemma {:induction false} AllSent(log: seq<Batch>, start: nat, end: nat, t: int)
    requires Contiguous(log, start, end) && forall i :: 0 <= i < |log| ==> log[i].time <= t
    ensures start + SentBy(log, t) == end
  {
    if log != [] {
      AllSent(log[..|log| - 1], start, log[|log| - 1].first, t);
    }
  }

  /**
   The rate bound. Taking the start of any frame `f` as origin, the packets handed over since then by
   any time `t` are at most `rate` per elapsed millisecond plus one burst; each frame begun by then, from
   `f` on, may add a nanosecond, because due times are rounded down to whole nanoseconds.
   */
  lemma {:induction false} RateBound(log: seq<Batch>, starts: seq<Start>, rate: nat, burst: nat, total: nat, f: nat,
                                     t: int)
    requires Paced(log, starts, rate, burst) && Contiguous(log, 0, total)
    requires f < |starts| && starts[f].time <= t
    ensures f < Begun(starts, t)
    ensures NS_PER_MS * (SentBy(log, t) - starts[f].first)
            <= Share(rate, t - starts[f].time + (Begun(starts, t) - f)) + NS_PER_MS * burst
  {
    var m := SentByIsPrefix(log, 0, total, t);
    var n := Begun(starts, t);
    BegunIsPrefix(starts, t);
    ShareMono(rate, 0, t - starts[f].time + (n - f));
    if m > 0 {
      var b := log[m - 1];
      assert BatchBound(b, starts, rate, burst);
      assert b.frame < n;
      if b.frame >= f {
        FramesBound(starts, f, b.frame, rate);
        ShareAdd(rate, starts[b.frame].time - starts[f].time + (b.frame - f), b.time - starts[b.frame].time + 1);
        ShareMono(rate, b.time - starts[f].time + (b.frame - f) + 1, t - starts[f].time + (n - f));
      } else {
        FramesBound(starts, b.frame + 1, f, rate);
      }
    }
  }

  /** From the start of any frame to any later time. */
  ghost predicate RateKept(log: seq<Batch>, starts: seq<Start>, rate: nat, burst: nat) {
    forall f: nat, t: int :: f < |starts| && starts[f].time <= t ==>
      NS_PER_MS * (SentBy(log, t) - starts[f].first)
      <= rate * (t - starts[f].time + (Begun(starts, t) - f)) + NS_PER_MS * burst
  }

  /** The same in bits: 0.8 per nanosecond, and the bits of one burst on top. */
  ghost predicate LinkKept(log: seq<Batch>, starts: seq<Start>, blocksize: nat) {
    forall f: nat, t: int :: f < |starts| && starts[f].time <= t ==>
      10 * (8 * blocksize * (SentBy(log, t) - starts[f].first))
      <= 8 * (t - starts[f].time + (Begun(starts, t) - f)) + 10 * (800_000 + 8 * 65_536)
  }

  /** Packets at this rate, in bursts of this size, are bits at that one. */
  lemma InBits(blocksize: nat, packets: int, ns: int, burst: nat)
    requires blocksize > 0 && ns >= 0 && burst == PacketsIn1ms(blocksize) + Max1(SendBatchSize(blocksize)) - 1
    requires NS_PER_MS * packets <= PacketsIn1ms(blocksize) * ns + NS_PER_MS * burst
    ensures 10 * (8 * blocksize * packets) <= 8 * ns + 10 * (800_000 + 8 * 65_536)
  {
    var bits, rate := 8 * blocksize, PacketsIn1ms(blocksize);
    RateInBits(blocksize);
    BurstInBits(blocksize, burst);
    Scale(bits, NS_PER_MS * packets, rate * ns + NS_PER_MS * burst);
    assert bits * (NS_PER_MS * packets) == NS_PER_MS * (bits * packets);
    assert bits * (rate * ns + NS_PER_MS * burst) == bits * rate * ns + NS_PER_MS * (bits * burst);
    MulMono(bits * rate, 800_000, ns);
  }

  lemma Scale(k: nat, a: int, b: int)
    requires a <= b
    ensures k * a <= k * b
  {
    MulMono(a, b, k);
  }

  lemma BurstInBits(blocksize: nat, burst: nat)
    requires blocksize > 0 && burst == PacketsIn1ms(blocksize) + Max1(SendBatchSize(blocksize)) - 1
    ensures 8 * blocksize * burst <= 800_000 + 8 * 65_536
  {
    RateInBits(blocksize);
    BatchInBytes(blocksize);
    var rate, more := PacketsIn1ms(blocksize), Max1(SendBatchSize(blocksize)) - 1;
    assert 8 * blocksize * (rate + more) == 8 * blocksize * rate + 8 * (more * blocksize);
    MulMono(more, SendBatchSize(blocksize), blocksize);
  }

  lemma RateKeptInBits(log: seq<Batch>, starts: seq<Start>, blocksize: nat)
    requires blocksize > 0 && Paced(log, starts, PacketsIn1ms(blocksize), Burst1(blocksize))
    requires RateKept(log, starts, PacketsIn1ms(blocksize), Burst1(blocksize))
    ensures LinkKept(log, starts, blocksize)
  {
    forall f: nat, t: int | f < |starts| && starts[f].time <= t
      ensures 10 * (8 * blocksize * (SentBy(log, t) - starts[f].first))
              <= 8 * (t - starts[f].time + (Begun(starts, t) - f)) + 10 * (800_000 + 8 * 65_536)
    {
      BegunIsPrefix(starts, t);
      InBits(blocksize, SentBy(log, t) - starts[f].first, t - starts[f].time + (Begun(starts, t) - f),
             Burst1(blocksize));
    }
  }

  /** One group and one batch, less a packet. */
  function Burst1(blocksize: nat): nat
    requires blocksize > 0
  {
    PacketsIn1ms(blocksize) + Max1(SendBatchSize(blocksize)) - 1
  }

  /** When the packets counted so far have used up their share of the link. */
  function Due(frameStart: int, packets: nat, rate: nat): int
    requires rate > 0
  {
    frameStart + NS_PER_MS * packets / rate
  }

  /** The exact due time, rounded down to a nanosecond: neither early by a whole one nor late. */
  lemma DueExact(frameStart: int, packets: nat, rate: nat)
    requires rate > 0
    ensures var ns := Due(frameStart, packets, rate) - frameStart;
            rate * ns <= NS_PER_MS * packets < rate * (ns + 1)
  {
    var q := NS_PER_MS * packets / rate;
    assert rate * (q + 1) == rate * q + rate;
  }

  lemma DueReached(frameStart: int, packets: nat, rate: nat, now: int)
    requires rate > 0 && now >= Due(frameStart, packets, rate)
    ensures NS_PER_MS * packets <= Share(rate, now - frameStart + 1)
  {
    var q := NS_PER_MS * packets / rate;
    assert NS_PER_MS * packets < rate * q + rate;
    ShareIsProduct(rate, q + 1);
    ShareMono(rate, q + 1, now - frameStart + 1);
  }

  /** Sending a batch keeps the log paced, if the batch is in the current frame, in time and within the bound. */
  lemma PacedSnoc(log: seq<Batch>, starts: seq<Start>, rate: nat, burst: nat, b: Batch)
    requires Paced(log, starts, rate, burst) && BatchBound(b, starts, rate, burst)
    requires forall i :: 0 <= i < |log| ==> log[i].time <= b.time
    ensures Paced(log + [b], starts, rate, burst)
  {
  }

  /** A batch of the current frame is within the bound when the packets before its group are covered by the time. */
  lemma BatchFits(b: Batch, starts: seq<Start>, rate: nat, burst: nat, frameSent: nat, groupSent: nat)
    requires |starts| > 0 && b.frame == |starts| - 1 && starts[b.frame].time <= b.time
    requires b.first == starts[b.frame].first + frameSent && groupSent <= frameSent && groupSent + b.count <= burst
    requires NS_PER_MS * (frameSent - groupSent) <= Share(rate, b.time - starts[b.frame].time + 1)
    ensures BatchBound(b, starts, rate, burst)
  {
  }

  /** A frame that starts no earlier than its predecessor's share was used up. */
  lemma NextFrameFits(last: Start, due: int, next: Start, rate: nat)
    requires last.first <= next.first && last.time <= due <= next.time
    requires NS_PER_MS * (next.first - last.first) <= Share(rate, due - last.time + 1)
    ensures FrameBound([last, next], 0, rate)
  {
    ShareMono(rate, due - last.time + 1, next.time - last.time + 1);
  }

  /** Starting a frame keeps the log paced, if the frame before has used up its share by then. */
  lemma PacedFrame(log: seq<Batch>, starts: seq<Start>, rate: nat, burst: nat, s: Start)
    requires Paced(log, starts, rate, burst)
    requires forall i :: 0 <= i < |log| ==> End(log[i]) <= s.first
    requires |starts| > 0 ==> FrameBound([starts[|starts| - 1], s], 0, rate) && starts[|starts| - 1].time <= s.time
    ensures Paced(log, starts + [s], rate, burst)
  {
    var starts' := starts + [s];
    assert forall i :: 0 <= i < |starts| ==> starts'[i] == starts[i] && starts[i].time <= s.time;
    forall f: nat | f + 1 < |starts'|
      ensures FrameBound(starts', f, rate)
    {
      if f + 1 < |starts| {
        assert FrameBound(starts, f, rate);
      }
    }
  }

  function Total(log: seq<Batch>): nat { if log == [] then 0 else End(log[|log| - 1]) }

  /** What holds of everything sent by now. */
  ghost predicate Logged(log: seq<Batch>, starts: seq<Start>, rate: nat, burst: nat, most: nat, now: int) {
    && Paced(log, starts, rate, burst) && Contiguous(log, 0, Total(log))
    && (forall i :: 0 <= i < |log| ==> log[i].time <= now && log[i].count <= most && End(log[i]) <= Total(log))
    && (|starts| > 0 ==> starts[|starts| - 1].first <= Total(log))
  }

  lemma LoggedSnoc(log: seq<Batch>, starts: seq<Start>, rate: nat, burst: nat, most: nat, now: int, b: Batch)
    requires Logged(log, starts, rate, burst, most, now) && BatchBound(b, starts, rate, burst)
    requires b.first == Total(log) && 0 < b.count <= most && b.time == now
    ensures Logged(log + [b], starts, rate, burst, most, now) && Total(log + [b]) == Total(log) + b.count
  {
    PacedSnoc(log, starts, rate, burst, b);
    assert (log + [b])[..|log|] == log;
  }

  /** A frame to send: its session, and how many shards each of its FEC blocks has. */
  datatype Frame = Frame(session: nat, blocks: seq<nat>)

  /** The state of videoBroadcastThread that outlives a batch, and the log of what it sent. */
  class VideoSender {
    const rate: nat
    const batchSize: nat
    var clock: int
    var nextFrameStart: int
    var frameStart: int
    var frameSent: nat
    var groupSent: nat
    var lowseq: nat                  // of the session whose frame is being sent
    var lowseqs: map<nat, nat>       // session->video.lowseq, of each session
    ghost var sleptTo: int           // the time that the last sleep was to end at
    ghost var log: seq<Batch>
    ghost var starts: seq<Start>

    ghost function Burst(): nat { rate + MaxBatch() - 1 }

    function MaxBatch(): nat { Max1(batchSize) }

    /** How many packets have been sent. */
    ghost function Sent(): nat
      reads this
    {
      Total(log)
    }

    ghost predicate Valid()
      reads this
    {
      rate > 0 && Logged(log, starts, rate, Burst(), MaxBatch(), clock)
    }

    /** Inside a frame: what the counters say about the packets sent since it started. */
    ghost predicate InFrame()
      reads this
      requires rate > 0
    {
      && |starts| > 0 && starts[|starts| - 1].time == frameStart
      && Sent() == starts[|starts| - 1].first + frameSent
      && groupSent <= frameSent && groupSent <= Burst()
      && (frameSent > 0 ==>
           frameStart <= clock && NS_PER_MS * (frameSent - groupSent) <= Share(rate, clock - frameStart + 1))
    }

    /** Between frames: the next frame waits until this one has used up its share. */
    ghost predicate Settled()
      reads this
      requires rate > 0
    {
      (|starts| > 0 ==>
           && starts[|starts| - 1].time <= nextFrameStart
           && NS_PER_MS * (Sent() - starts[|starts| - 1].first)
              <= Share(rate, nextFrameStart - starts[|starts| - 1].time + 1))
    }

    constructor (blocksize: nat, now: int)
      requires 0 < blocksize <= 100_000
      ensures Valid() && Settled() && log == [] && starts == [] && lowseqs == map[]
      ensures rate == PacketsIn1ms(blocksize) && batchSize == SendBatchSize(blocksize)
    {
      RatePositive(blocksize);
      rate, batchSize := PacketsIn1ms(blocksize), SendBatchSize(blocksize);
      clock, nextFrameStart, frameStart, frameSent, groupSent := now, now, now, 0, 0;
      lowseq, lowseqs := 0, map[];
      log, starts := [], [];
    }

    /** steady_clock::now() */
    method Now() returns (t: int)
      modifies `clock
      ensures t == clock >= old(clock)
    {
      var d: int :| d >= 0;
      clock := clock + d;
      t := clock;
    }

    method SleepFor(d: nat)
      modifies `clock, `sleptTo
      ensures clock >= old(clock) + d == sleptTo
    {
      sleptTo := clock + d;
      var more: int :| more >= 0;
      clock := clock + d + more;
    }

    method BeginFrame(session: nat)
      requires Valid() && Settled()
      modifies `clock, `frameStart, `frameSent, `groupSent, `lowseq, `starts
      ensures Valid() && InFrame() && frameSent == 0 && lowseq == NextOf(lowseqs, session)
      ensures frameStart >= nextFrameStart && frameStart >= old(clock)
      ensures frameStart == nextFrameStart || frameStart <= clock
      ensures starts == old(starts) + [Start(frameStart, Sent())]
    {
      lowseq := NextOf(lowseqs, session);
      var now := Now();
      frameStart := if nextFrameStart >= now then nextFrameStart else now;
      frameSent, groupSent := 0, 0;
      if |starts| > 0 {
        NextFrameFits(starts[|starts| - 1], nextFrameStart, Start(frameStart, Sent()), rate);
      }
      RecordStart(Start(frameStart, Sent()));
    }

    ghost method RecordStart(s: Start)
      requires Valid() && s.first == Sent()
      requires |starts| > 0 ==> FrameBound([starts[|starts| - 1], s], 0, rate) && starts[|starts| - 1].time <= s.time
      modifies `starts
      ensures Valid() && starts == old(starts) + [s]
    {
      PacedFrame(log, starts, rate, Burst(), s);
      starts := starts + [s];
    }

    /** Pacing within the frame, and for the last packets of the frame before. */
    method Gate()
      requires Valid() && InFrame()
      modifies `clock, `groupSent, `sleptTo
      ensures sleptTo == old(sleptTo) || rate * (sleptTo - frameStart) <= NS_PER_MS * frameSent
      ensures clock >= old(clock) && groupSent < rate && groupSent <= frameSent
      ensures NS_PER_MS * (frameSent - groupSent) <= Share(rate, clock - frameStart + 1)
      ensures clock >= frameStart
    {
      if groupSent >= rate || frameSent == 0 {
        var due := frameStart + NS_PER_MS * frameSent / rate;
        var now := Now();
        DueExact(frameStart, frameSent, rate);
        if now < due {
          SleepFor(due - now);
        }
        DueReached(frameStart, frameSent, rate, clock);
        groupSent := 0;
      }
    }

    /** Through the gate, and on to the moment of sending. */
    method Pace()
      requires Valid() && InFrame()
      modifies `clock, `groupSent, `sleptTo
      ensures Valid() && frameStart <= clock && groupSent < rate && groupSent <= frameSent
      ensures NS_PER_MS * (frameSent - groupSent) <= Share(rate, clock - frameStart + 1)
    {
      Gate();
      ghost var at := clock;
      var now := Now();
      ShareMono(rate, at - frameStart + 1, now - frameStart + 1);
    }

    /** Pace, then hand over the next `count` packets, numbered from `number` on. */
    method SendBatch(count: nat, ghost session: nat, ghost number: nat) returns (ghost b: Batch)
      requires Valid() && InFrame() && 0 < count <= MaxBatch()
      modifies `clock, `frameSent, `groupSent, `sleptTo, `log
      ensures Valid() && InFrame()
      ensures frameSent == old(frameSent) + count && Sent() == old(Sent()) + count
      ensures b == Batch(clock, |starts| - 1, old(Sent()), count, session, number) && log == old(log) + [b]
    {
      Pace();
      b := Batch(clock, |starts| - 1, Sent(), count, session, number);
      BatchFits(b, starts, rate, Burst(), frameSent, groupSent);
      Record(b);
      groupSent := groupSent + count;
      frameSent := frameSent + count;
    }

    /** The same, behind what this block has sent already. */
    method SendMore(count: nat, ghost session: nat, ghost number: nat, ghost before: seq<Batch>,
                    ghost sent: seq<Batch>, ghost first: nat)
      returns (ghost sent': seq<Batch>)
      requires Valid() && InFrame() && 0 < count <= MaxBatch() && log == before + sent
      requires Contiguous(sent, Total(before), Sent()) && OfSession(sent, session)
      requires Numbered(sent, session, first, number)
      modifies `clock, `frameSent, `groupSent, `sleptTo, `log
      ensures Valid() && InFrame() && Sent() == old(Sent()) + count && log == before + sent'
      ensures Contiguous(sent', Total(before), Sent()) && OfSession(sent', session)
      ensures Numbered(sent', session, first, number + count)
      ensures Full(sent, MaxBatch()) ==> FullButLast(sent', MaxBatch())
      ensures Full(sent, MaxBatch()) && count == MaxBatch() ==> Full(sent', MaxBatch())
    {
      ghost var b := SendBatch(count, session, number);
      sent' := Snoc(sent, Total(before), first, b);
    }

    ghost method Record(b: Batch)
      requires Valid() && b.first == Sent() && 0 < b.count <= MaxBatch() && b.time == clock
      requires |starts| > 0 && b.frame == |starts| - 1 && BatchBound(b, starts, rate, Burst())
      modifies `log
      ensures Valid() && log == old(log) + [b] && Sent() == old(Sent()) + b.count
    {
      LoggedSnoc(log, starts, rate, Burst(), MaxBatch(), clock, b);
      log := log + [b];
    }

    /** The send loop over the shards of one FEC block. */
    method SendShards(nrShards: nat, ghost session: nat) returns (ghost sent: seq<Batch>)
      requires Valid() && InFrame()
      modifies `clock, `frameSent, `groupSent, `sleptTo, `log
      ensures Valid() && InFrame() && Sent() == old(Sent()) + nrShards
      ensures log == old(log) + sent && Contiguous(sent, old(Sent()), Sent())
      ensures OfSession(sent, session) && Numbered(sent, session, lowseq, lowseq + nrShards)
      ensures FullButLast(sent, MaxBatch())
    {
      var nextShardToSend := 0;
      sent := [];
      for x := 0 to nrShards
        invariant Valid() && InFrame()
        invariant nextShardToSend <= x && x - nextShardToSend < MaxBatch() && (x == nrShards ==> nextShardToSend == x)
        invariant Sent() == old(Sent()) + nextShardToSend
        invariant log == old(log) + sent && Contiguous(sent, old(Sent()), Sent())
        invariant OfSession(sent, session) && Numbered(sent, session, lowseq, lowseq + nextShardToSend)
        invariant FullButLast(sent, MaxBatch()) && (x < nrShards ==> Full(sent, MaxBatch()))
      {
        if x - nextShardToSend + 1 >= batchSize || x + 1 == nrShards {
          sent := SendMore(x - nextShardToSend + 1, session, lowseq + nextShardToSend, old(log), sent, lowseq);
          nextShardToSend := x + 1;
        }
      }
    }

    method SendBlock(nrShards: nat, ghost session: nat) returns (ghost sent: seq<Batch>)
      requires Valid() && InFrame()
      modifies `clock, `frameSent, `groupSent, `sleptTo, `log, `nextFrameStart, `lowseq
      ensures Valid() && InFrame() && Settled()
      ensures lowseq == old(lowseq) + nrShards && Sent() == old(Sent()) + nrShards
      ensures log == old(log) + sent && OfSession(sent, session) && Numbered(sent, session, old(lowseq), lowseq)
    {
      sent := SendShards(nrShards, session);
      EndBlock(nrShards);
    }

    method EndBlock(nrShards: nat)
      requires Valid() && InFrame()
      modifies `nextFrameStart, `lowseq
      ensures Settled() && nextFrameStart == Due(frameStart, frameSent, rate) && lowseq == old(lowseq) + nrShards
      ensures rate * (nextFrameStart - frameStart) <= NS_PER_MS * frameSent
    {
      nextFrameStart := frameStart + NS_PER_MS * frameSent / rate;
      DueReached(frameStart, frameSent, rate, nextFrameStart);
      DueExact(frameStart, frameSent, rate);
      lowseq := lowseq + nrShards;
    }

    lemma WithinRate(f: nat, t: int)
      requires Valid() && f < |starts| && starts[f].time <= t
      ensures NS_PER_MS * (SentBy(log, t) - starts[f].first)
              <= rate * (t - starts[f].time + (Begun(starts, t) - f)) + NS_PER_MS * Burst()
    {
      RateBound(log, starts, rate, Burst(), Sent(), f, t);
      ShareIsProduct(rate, t - starts[f].time + (Begun(starts, t) - f));
    }

    /** The loop over the FEC blocks of a frame. */
    method SendBlocks(blocks: seq<nat>, ghost session: nat) returns (ghost sent: seq<Batch>)
      requires Valid() && InFrame() && blocks != []
      modifies `clock, `frameSent, `groupSent, `sleptTo, `log, `nextFrameStart, `lowseq
      ensures Valid() && Settled() && Sent() == old(Sent()) + Sum(blocks) && lowseq == old(lowseq) + Sum(blocks)
      ensures log == old(log) + sent && OfSession(sent, session) && Numbered(sent, session, old(lowseq), lowseq)
    {
      sent := [];
      for b := 0 to |blocks|
        invariant Valid() && InFrame() && (b > 0 ==> Settled())
        invariant lowseq == old(lowseq) + Sum(blocks[..b]) && Sent() == old(Sent()) + Sum(blocks[..b])
        invariant log == old(log) + sent && OfSession(sent, session) && Numbered(sent, session, old(lowseq), lowseq)
      {
        sent := SendBlockAfter(blocks[b], session, old(log), sent, old(lowseq));
        SumSnoc(blocks, b);
      }
      assert blocks[..|blocks|] == blocks;
    }

    /** A block behind those of its frame that went before. */
    method SendBlockAfter(nrShards: nat, ghost session: nat, ghost before: seq<Batch>, ghost sent: seq<Batch>,
                          ghost first: nat)
      returns (ghost all: seq<Batch>)
      requires Valid() && InFrame() && log == before + sent
      requires OfSession(sent, session) && Numbered(sent, session, first, lowseq)
      modifies `clock, `frameSent, `groupSent, `sleptTo, `log, `nextFrameStart, `lowseq
      ensures Valid() && InFrame() && Settled()
      ensures lowseq == old(lowseq) + nrShards && Sent() == old(Sent()) + nrShards
      ensures log == before + all && OfSession(all, session) && Numbered(all, session, first, lowseq)
    {
      ghost var at := lowseq;
      ghost var more := SendBlock(nrShards, session);
      all := JoinBlock(before, sent, more, session, first, at, lowseq);
    }

    lemma AllWithinRate()
      requires Valid()
      ensures RateKept(log, starts, rate, Burst())
    {
      forall f: nat, t: int | f < |starts| && starts[f].time <= t
        ensures NS_PER_MS * (SentBy(log, t) - starts[f].first)
                <= rate * (t - starts[f].time + (Begun(starts, t) - f)) + NS_PER_MS * Burst()
      {
        WithinRate(f, t);
      }
    }

    /** A frame, of any session: its packets follow that session's last, and the rate is that of all sessions. */
    method SendFrame(frame: Frame) returns (ghost sent: seq<Batch>)
      requires Valid() && Settled() && frame.blocks != []
      modifies this
      ensures Valid() && Settled() && Sent() == old(Sent()) + Sum(frame.blocks)
      ensures lowseqs == old(lowseqs)[frame.session := NextOf(old(lowseqs), frame.session) + Sum(frame.blocks)]
      ensures |starts| == |old(starts)| + 1 && starts[..|old(starts)|] == old(starts)
      ensures starts[|old(starts)|].first == old(Sent()) && starts[|old(starts)|].time >= old(nextFrameStart)
      ensures log == old(log) + sent && OfSession(sent, frame.session)
      ensures Numbered(sent, frame.session, NextOf(old(lowseqs), frame.session), NextOf(lowseqs, frame.session))
    {
      BeginFrame(frame.session);
      sent := SendAndStore(frame.blocks, frame.session);
    }

    /** The loop over the blocks, and the session's next number behind it. */
    method SendAndStore(blocks: seq<nat>, session: nat) returns (ghost sent: seq<Batch>)
      requires Valid() && InFrame() && blocks != [] && lowseq == NextOf(lowseqs, session)
      modifies `clock, `frameSent, `groupSent, `sleptTo, `log, `nextFrameStart, `lowseq, `lowseqs
      ensures Valid() && Settled() && Sent() == old(Sent()) + Sum(blocks)
      ensures lowseqs == old(lowseqs)[session := NextOf(old(lowseqs), session) + Sum(blocks)]
      ensures log == old(log) + sent && OfSession(sent, session)
      ensures Numbered(sent, session, NextOf(old(lowseqs), session), NextOf(lowseqs, session))
    {
      sent := SendBlocks(blocks, session);
      StoreLowseq(session);
    }

    method StoreLowseq(session: nat)
      requires Valid() && Settled()
      modifies `lowseqs
      ensures Valid() && Settled() && lowseqs == old(lowseqs)[session := lowseq]
    {
      lowseqs := lowseqs[session := lowseq];
    }

    ghost predicate Served(frames: seq<Frame>)
      reads this
    {
      ServedBy(frames, log, starts, lowseqs)
    }

    method ServeFrame(frame: Frame, ghost before: seq<Frame>)
      requires Valid() && Settled() && Served(before) && frame.blocks != []
      modifies this
      ensures Valid() && Settled() && Served(before + [frame])
    {
      ghost var sent := SendFrame(frame);
      FrameServed(before, frame, old(log), old(starts), old(lowseqs), sent, starts, lowseqs);
    }

    /** The thread's loop over the frames it is given. */
    method ServeFrames(frames: seq<Frame>)
      requires Valid() && Settled() && Served([]) && forall f :: 0 <= f < |frames| ==> frames[f].blocks != []
      modifies this
      ensures Valid() && Served(frames)
    {
      for f := 0 to |frames|
        invariant Valid() && Settled() && Served(frames[..f])
      {
        ServeFrame(frames[f], frames[..f]);
        assert frames[..f + 1] == frames[..f] + [frames[f]];
      }
      assert frames[..|frames|] == frames;
    }
  }

  /** What serving these frames leads to. */
  ghost predicate ServedBy(frames: seq<Frame>, log: seq<Batch>, starts: seq<Start>, lowseqs: map<nat, nat>) {
    && StartsOf(starts, frames) && Total(log) == Packets(frames)
    && AllNumbered(log, lowseqs) && Counted(lowseqs, frames)
  }

  /** Each frame starts when the packets of all frames before it have gone. */
  ghost predicate StartsOf(starts: seq<Start>, frames: seq<Frame>) {
    |starts| == |frames| &&
    (frames == [] ||
     (var n := |frames| - 1; StartsOf(starts[..n], frames[..n]) && starts[n].first == Packets(frames[..n])))
  }

  ghost predicate Counted(lowseqs: map<nat, nat>, frames: seq<Frame>) {
    forall k: nat :: NextOf(lowseqs, k) == PacketsOf(frames, k)
  }

  lemma FrameServed(before: seq<Frame>, frame: Frame, log: seq<Batch>, starts: seq<Start>, lowseqs: map<nat, nat>,
                    sent: seq<Batch>, starts': seq<Start>, lowseqs': map<nat, nat>)
    requires ServedBy(before, log, starts, lowseqs)
    requires OfSession(sent, frame.session) && Total(log + sent) == Total(log) + Sum(frame.blocks)
    requires lowseqs' == lowseqs[frame.session := NextOf(lowseqs, frame.session) + Sum(frame.blocks)]
    requires Numbered(sent, frame.session, NextOf(lowseqs, frame.session), NextOf(lowseqs', frame.session))
    requires |starts'| == |starts| + 1 && starts'[..|starts|] == starts && starts'[|starts|].first == Total(log)
    ensures ServedBy(before + [frame], log + sent, starts', lowseqs')
  {
    FrameNumbered(log, lowseqs, sent, frame.session, NextOf(lowseqs', frame.session));
    assert (before + [frame])[..|before|] == before;
  }

  lemma {:induction false} StartsAt(starts: seq<Start>, frames: seq<Frame>, f: nat)
    requires StartsOf(starts, frames) && f < |frames|
    ensures starts[f].first == Packets(frames[..f])
  {
    var n := |frames| - 1;
    if f < n {
      StartsAt(starts[..n], frames[..n], f);
      assert frames[..n][..f] == frames[..f];
    }
  }

  lemma SumSnoc(s: seq<nat>, i: nat)
    requires i < |s|
    ensures Sum(s[..i + 1]) == Sum(s[..i]) + s[i]
  {
    assert s[..i + 1][..i] == s[..i];
  }

  function Sum(s: seq<nat>): nat {
    if s == [] then 0 else Sum(s[..|s| - 1]) + s[|s| - 1]
  }

  lemma Snoc(log: seq<Batch>, start: nat, number: nat, b: Batch) returns (log': seq<Batch>)
    requires b.count > 0 && Contiguous(log, start, b.first)
    requires OfSession(log, b.session) && Numbered(log, b.session, number, b.number)
    ensures log' == log + [b] && Contiguous(log', start, End(b))
    ensures OfSession(log', b.session) && Numbered(log', b.session, number, b.number + b.count)
  {
    log' := log + [b];
    assert log'[..|log|] == log;
  }

  lemma JoinBlock(before: seq<Batch>, sent: seq<Batch>, more: seq<Batch>, session: nat, first: nat, at: nat, end: nat)
    returns (all: seq<Batch>)
    requires OfSession(sent, session) && OfSession(more, session)
    requires Numbered(sent, session, first, at) && Numbered(more, session, at, end)
    ensures all == sent + more && (before + sent) + more == before + all
    ensures OfSession(all, session) && Numbered(all, session, first, end)
  {
    all := sent + more;
    NumberedJoin(sent, more, session, first, at, end);
  }

  /** RTP sequence numbers of session `k`'s packets, in the order they were sent. */
  function RtpNumbers(log: seq<Batch>, k: nat): seq<nat> {
    if log == [] then []
    else
      var rest, b := RtpNumbers(log[..|log| - 1], k), log[|log| - 1];
      if b.session == k then rest + seq(b.count, i requires 0 <= i => (b.number + i) % 0x1_0000) else rest
  }

  /** They count up by one, modulo 2^16, through batches, blocks and frames alike, whatever other sessions send. */
  lemma {:induction false} RtpConsecutive(log: seq<Batch>, k: nat, start: nat, end: nat)
    requires Numbered(log, k, start, end)
    ensures start <= end
    ensures RtpNumbers(log, k) == seq(end - start, i requires 0 <= i => (start + i) % 0x1_0000)
  {
    if log != [] {
      var b := log[|log| - 1];
      RtpConsecutive(log[..|log| - 1], k, start, if b.session == k then b.number else end);
    }
  }

  function Packets(frames: seq<Frame>): nat {
    if frames == [] then 0 else Packets(frames[..|frames| - 1]) + Sum(frames[|frames| - 1].blocks)
  }

  function PacketsOf(frames: seq<Frame>, k: nat): nat {
    if frames == [] then 0
    else
      var frame := frames[|frames| - 1];
      PacketsOf(frames[..|frames| - 1], k) + if frame.session == k then Sum(frame.blocks) else 0
  }

  /**
   A run of the video thread over any frames of any sessions with one packet size, with any clock: the packets
   handed over since the start of any frame stay within the rate, all sessions together, and no packet of a
   session is skipped or repeated.
   */
  method Broadcast(blocksize: nat, now: int, frames: seq<Frame>) returns (sender: VideoSender)
    requires 0 < blocksize <= 100_000 && forall f :: 0 <= f < |frames| ==> frames[f].blocks != []
    ensures fresh(sender) && |sender.starts| == |frames| && Total(sender.log) == Packets(frames)
    ensures forall k: nat :: Numbered(sender.log, k, 0, PacketsOf(frames, k))
    ensures forall f :: 0 <= f < |frames| ==> sender.starts[f].first == Packets(frames[..f])
    ensures RateKept(sender.log, sender.starts, PacketsIn1ms(blocksize), Burst1(blocksize))
    ensures LinkKept(sender.log, sender.starts, blocksize)
    ensures forall i :: 0 <= i < |sender.log| ==>
              sender.log[i].count <= 64 && (sender.log[i].count > 1 ==> sender.log[i].count * blocksize <= 65536)
  {
    sender := new VideoSender(blocksize, now);
    sender.ServeFrames(frames);
    forall k: nat
      ensures Numbered(sender.log, k, 0, PacketsOf(frames, k))
    {
      assert Numbered(sender.log, k, 0, NextOf(sender.lowseqs, k));
    }
    forall f: nat | f < |frames|
      ensures sender.starts[f].first == Packets(frames[..f])
    {
      StartsAt(sender.starts, frames, f);
    }
    sender.AllWithinRate();
    RateKeptInBits(sender.log, sender.starts, blocksize);
    forall i | 0 <= i < |sender.log|
      ensures sender.log[i].count <= 64
      ensures sender.log[i].count > 1 ==> sender.log[i].count * blocksize <= 65536
    {
      BatchInBytes(blocksize);
      MulMono(sender.log[i].count, Max1(SendBatchSize(blocksize)), blocksize);
    }
  }

  function Max1(n: nat): nat { if n > 1 then n else 1 }
}
