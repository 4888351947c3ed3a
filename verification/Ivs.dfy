/**
 AES-GCM initialisation vectors under the key of one launch session. Video, control and RTSP messages share
 the key; each IV is built from a message counter (the invocation field) and channel letters (the fixed
 field), following NIST SP 800-38D section 8.2.1. Each stream announced with the launch session counts its
 video and control messages from zero, so the IVs are unique only while one stream uses the key.
 */
module Ivs {
  import opened Arith
  import opened Interleave

  datatype Channel = Video | Control | Rtsp

  const V: Byte := 86
  const H: Byte := 72
  const C: Byte := 67
  const R: Byte := 82

  function Pow256(k: nat): (p: nat)
    ensures p > 0
  {
    if k == 0 then 1 else 256 * Pow256(k - 1)
  }

  /** The low `k` bytes of `n`, little-endian. */
  function LittleEndian(n: nat, k: nat): (b: seq<Byte>)
    ensures |b| == k
    decreases n, k
  {
    if k == 0 then [] else [n % 256] + LittleEndian(n / 256, k - 1)
  }

  lemma {:induction false} LittleEndianInjective(a: nat, b: nat, k: nat)
    requires a < Pow256(k) && b < Pow256(k) && LittleEndian(a, k) == LittleEndian(b, k)
    ensures a == b
  {
    if k > 0 {
      var x, y := LittleEndian(a, k), LittleEndian(b, k);
      assert x[0] == y[0] && x[1..] == y[1..];
      assert x[1..] == LittleEndian(a / 256, k - 1) && y[1..] == LittleEndian(b / 256, k - 1);
      LittleEndianInjective(a / 256, b / 256, k - 1);
    }
  }

  /** Byte `i` is the `i`-th digit in base 256, the lowest first. */
  lemma {:induction false} LittleEndianByte(n: nat, k: nat, i: nat)
    requires i < k
    ensures LittleEndian(n, k)[i] == n / Pow256(i) % 256
    decreases k
  {
    if i > 0 {
      LittleEndianByte(n / 256, k - 1, i - 1);
      DivDiv(n, Pow256(i - 1));
    }
  }

  lemma DivDiv(n: nat, p: nat)
    requires p > 0
    ensures n / 256 / p == n / (256 * p)
  {
    var a, q := n / 256, n / 256 / p;
    DivBounds(n, 256);
    DivBounds(a, p);
    MulMono(q * p, a, 256);
    MulMono(a + 1, q * p + p, 256);
    assert q * p * 256 == q * (256 * p) && (q * p + p) * 256 == q * (256 * p) + 256 * p;
    DivUnique(n, 256 * p, q, n - q * (256 * p));
  }

  /** Width of the invocation field in bytes. */
  function Width(c: Channel): nat { if c.Video? then 8 else 4 }

  /** How many messages a channel may send before its counter wraps. */
  function Limit(c: Channel): nat { Pow256(Width(c)) }

  function Iv(c: Channel, counter: nat): (iv: seq<Byte>)
    ensures |iv| == 12
  {
    match c
    case Video => LittleEndian(counter, 8) + [0, 0, 0, V]
    case Control => LittleEndian(counter, 4) + [0, 0, 0, 0, 0, 0, H, C]
    case Rtsp => LittleEndian(counter, 4) + [0, 0, 0, 0, 0, 0, H, R]
  }

  /** Twelve bytes: the counter's 8 or 4, the lowest first, zeros, and the letters 'V', 'HC' or 'HR'. */
  lemma {:induction false} IvSpelled(n: nat, i: nat)
    ensures |Iv(Video, n)| == |Iv(Control, n)| == |Iv(Rtsp, n)| == 12
    ensures i < 8 ==> Iv(Video, n)[i] == n / Pow256(i) % 256
    ensures i < 4 ==> Iv(Control, n)[i] == Iv(Rtsp, n)[i] == n / Pow256(i) % 256
    ensures Iv(Video, n)[8..] == [0, 0, 0, 0x56]
    ensures Iv(Control, n)[4..] == [0, 0, 0, 0, 0, 0, 0x48, 0x43]
    ensures Iv(Rtsp, n)[4..] == [0, 0, 0, 0, 0, 0, 0x48, 0x52]
    ensures Pow256(0) == 1 && forall k: nat :: Pow256(k + 1) == 256 * Pow256(k)
  {
    if i < 8 {
      LittleEndianByte(n, 8, i);
    }
    if i < 4 {
      LittleEndianByte(n, 4, i);
    }
  }

  lemma IvInjective(c: Channel, m: nat, d: Channel, n: nat)
    requires m < Limit(c) && n < Limit(d) && Iv(c, m) == Iv(d, n)
    ensures c == d && m == n
  {
    assert Iv(c, m)[11] == Iv(d, n)[11];
    assert Iv(c, m)[..Width(c)] == Iv(d, n)[..Width(c)];
    assert LittleEndian(m, Width(c)) == Iv(c, m)[..Width(c)] && LittleEndian(n, Width(d)) == Iv(d, n)[..Width(d)];
    LittleEndianInjective(m, n, Width(c));
  }

  /**
   What happens under one launch session's key. Every ANNOUNCE starts a stream, numbered in order, with a video
   and a control counter of its own; the RTSP counter belongs to the launch session.
   */
  datatype Event = Announce | Send(channel: Channel, stream: nat)

  function Announced(run: seq<Event>): nat {
    if run == [] then 0 else Announced(run[..|run| - 1]) + if run[|run| - 1].Announce? then 1 else 0
  }

  /** Streams send once they are announced. */
  predicate Possible(run: seq<Event>) {
    run == [] ||
    (var before, e := run[..|run| - 1], run[|run| - 1];
     Possible(before) && (e.Send? && !e.channel.Rtsp? ==> e.stream < Announced(before)))
  }

  /** The message is counted by stream `s`'s counter of channel `c`. */
  predicate On(e: Event, c: Channel, s: nat) {
    e.Send? && e.channel == c && (c.Rtsp? || e.stream == s)
  }

  function Count(run: seq<Event>, c: Channel, s: nat): nat {
    if run == [] then 0 else Count(run[..|run| - 1], c, s) + if On(run[|run| - 1], c, s) then 1 else 0
  }

  /** `n` modulo `limit`, by repeated subtraction. */
  function Wrap(n: nat, limit: nat): (r: nat)
    requires limit > 0
    ensures r < limit
  {
    if n < limit then n else Wrap(n - limit, limit)
  }

  lemma {:induction false} WrapIsMod(n: nat, limit: nat)
    requires limit > 0
    ensures Wrap(n, limit) == n % limit
    decreases n
  {
    if n < limit {
      DivUnique(n, limit, 0, n);
    } else {
      WrapIsMod(n - limit, limit);
      var q := (n - limit) / limit;
      assert (q + 1) * limit == q * limit + limit;
      DivUnique(n, limit, q + 1, (n - limit) % limit);
    }
  }

  lemma {:induction false} WrapSucc(n: nat, limit: nat)
    requires limit > 1
    ensures Wrap(n + 1, limit) == (Wrap(n, limit) + 1) % limit
    decreases n
  {
    if n >= limit {
      WrapSucc(n - limit, limit);
    } else {
      WrapIsMod(n + 1, limit);
    }
  }

  /** Counter used for the message that follows `before`: RTSP counts before it sends, the others after. */
  function Counter(before: seq<Event>, c: Channel, s: nat): nat {
    Wrap(Count(before, c, s) + if c.Rtsp? then 1 else 0, Limit(c))
  }

  /** The vector of the message at position `i`. */
  function IvAt(run: seq<Event>, i: nat): seq<Byte>
    requires i < |run| && run[i].Send?
  {
    Iv(run[i].channel, Counter(run[..i], run[i].channel, run[i].stream))
  }

  lemma {:induction false} CountMono(run: seq<Event>, i: nat, c: Channel, s: nat)
    requires i <= |run|
    ensures Count(run[..i], c, s) <= Count(run, c, s)
    ensures i < |run| && On(run[i], c, s) ==> Count(run[..i], c, s) < Count(run, c, s)
  {
    if i < |run| {
      var before := run[..|run| - 1];
      CountMono(before, i, c, s);
      assert before[..i] == run[..i];
    } else {
      assert run[..i] == run;
    }
  }

  lemma {:induction false} NthMessage(run: seq<Event>, c: Channel, s: nat, n: nat) returns (i: nat)
    requires n < Count(run, c, s)
    ensures i < |run| && On(run[i], c, s) && Count(run[..i], c, s) == n
  {
    var before := run[..|run| - 1];
    if n < Count(before, c, s) {
      i := NthMessage(before, c, s, n);
      assert before[..i] == run[..i];
    } else {
      i := |run| - 1;
    }
  }

  /** Messages of one counter are counted alike, whichever stream they name. */
  lemma {:induction false} SameCount(run: seq<Event>, c: Channel, s: nat, t: nat)
    requires c.Rtsp? || s == t
    ensures Count(run, c, s) == Count(run, c, t)
  {
    if run != [] {
      SameCount(run[..|run| - 1], c, s, t);
    }
  }

  ghost predicate NoRepeats(run: seq<Event>) {
    forall i, j :: 0 <= i < j < |run| && run[i].Send? && run[j].Send? ==> IvAt(run, i) != IvAt(run, j)
  }

  ghost predicate WithinLimits(run: seq<Event>) {
    forall c: Channel, s: nat :: Count(run, c, s) <= Limit(c)
  }

  /** At most one stream has sent video, and at most one on the control channel. */
  ghost predicate OneSender(run: seq<Event>) {
    forall c: Channel, s: nat, t: nat :: !c.Rtsp? && Count(run, c, s) > 0 && Count(run, c, t) > 0 ==> s == t
  }

  /** No vector is used twice under the key exactly as long as one stream has the key and no counter has wrapped. */
  lemma {:induction false} IvUniqueness(run: seq<Event>)
    ensures NoRepeats(run) <==> OneSender(run) && WithinLimits(run)
  {
    if !WithinLimits(run) {
      var c: Channel, s: nat :| Count(run, c, s) > Limit(c);
      RepeatsBeyondLimit(run, c, s);
    } else if !OneSender(run) {
      var c: Channel, s: nat, t: nat :| !c.Rtsp? && Count(run, c, s) > 0 && Count(run, c, t) > 0 && s != t;
      SendersRepeat(run, c, s, t);
    } else {
      forall i, j | 0 <= i < j < |run| && run[i].Send? && run[j].Send?
        ensures IvAt(run, i) != IvAt(run, j)
      {
        UniqueWithinLimits(run, i, j);
      }
    }
  }

  lemma UniqueWithinLimits(run: seq<Event>, i: nat, j: nat)
    requires OneSender(run) && WithinLimits(run) && i < j < |run| && run[i].Send? && run[j].Send?
    ensures IvAt(run, i) != IvAt(run, j)
  {
    var c, s, d, t := run[i].channel, run[i].stream, run[j].channel, run[j].stream;
    CountMono(run, i, c, s);
    CountMono(run, j, d, t);
    if c == d {
      SameCount(run[..i], c, s, t);
      CountersDiffer(run, i, j, c, t);
    }
    IvDistinct(c, Counter(run[..i], c, s), d, Counter(run[..j], d, t));
  }

  lemma CountersDiffer(run: seq<Event>, i: nat, j: nat, c: Channel, s: nat)
    requires i < j < |run| && On(run[i], c, s) && On(run[j], c, s) && Count(run, c, s) <= Limit(c)
    ensures Counter(run[..i], c, s) != Counter(run[..j], c, s)
  {
    CountMono(run, j, c, s);
    assert run[..j][..i] == run[..i];
    CountMono(run[..j], i, c, s);
    SameCounter(Count(run[..i], c, s), Count(run[..j], c, s), if c.Rtsp? then 1 else 0, Limit(c));
  }

  lemma IvDistinct(c: Channel, m: nat, d: Channel, n: nat)
    requires m < Limit(c) && n < Limit(d) && (c != d || m != n)
    ensures Iv(c, m) != Iv(d, n)
  {
    if Iv(c, m) == Iv(d, n) {
      IvInjective(c, m, d, n);
    }
  }

  lemma SameCounter(m: nat, n: nat, offset: nat, limit: nat)
    requires offset <= 1 && m < n < limit
    ensures Wrap(m + offset, limit) != Wrap(n + offset, limit)
  {
  }

  /** The first messages of two streams on one channel have the same vector. */
  lemma SendersRepeat(run: seq<Event>, c: Channel, s: nat, t: nat)
    requires !c.Rtsp? && s != t && Count(run, c, s) > 0 && Count(run, c, t) > 0
    ensures !NoRepeats(run)
  {
    var i := NthMessage(run, c, s, 0);
    var j := NthMessage(run, c, t, 0);
    assert IvAt(run, i) == Iv(c, Wrap(0, Limit(c))) == IvAt(run, j);
    assert i < j || j < i;
  }

  lemma RepeatsBeyondLimit(run: seq<Event>, c: Channel, s: nat)
    requires Count(run, c, s) > Limit(c)
    ensures !NoRepeats(run)
  {
    var i := NthMessage(run, c, s, 0);
    var j := NthMessage(run, c, s, Limit(c));
    SameCount(run[..i], c, s, run[i].stream);
    SameCount(run[..j], c, s, run[j].stream);
    CountMonoIf(run, j, i, c, s);
    WrapsAround(if c.Rtsp? then 1 else 0, c);
    assert i < j && Counter(run[..i], c, run[i].stream) == Counter(run[..j], c, run[j].stream);
    assert IvAt(run, i) == IvAt(run, j);
  }

  lemma CountMonoIf(run: seq<Event>, j: nat, i: nat, c: Channel, s: nat)
    requires i <= |run| && j <= |run|
    ensures j <= i ==> Count(run[..j], c, s) <= Count(run[..i], c, s)
  {
    if j <= i {
      CountMono(run[..i], j, c, s);
      assert run[..i][..j] == run[..j];
    }
  }

  lemma WrapsAround(offset: nat, c: Channel)
    requires offset <= 1
    ensures Wrap(0 + offset, Limit(c)) == Wrap(Limit(c) + offset, Limit(c))
  {
  }

  /** Announcing twice and sending one packet on each stream, within all limits: both packets have the same vector. */
  lemma SecondStreamRepeats(c: Channel)
    requires !c.Rtsp?
    ensures var run := [Announce, Announce, Send(c, 0), Send(c, 1)];
            Possible(run) && WithinLimits(run) && IvAt(run, 2) == IvAt(run, 3) == Iv(c, 0)
  {
    var run := [Announce, Announce, Send(c, 0), Send(c, 1)];
    Step([], Announce);
    Step([Announce], Announce);
    assert [Announce] + [Announce] == run[..2] && run[..2] + [run[2]] == run[..3] && run[..3] + [run[3]] == run;
    Step(run[..2], run[2]);
    Step(run[..3], run[3]);
    NotYetAnnounced(run[..2], 2);
    assert run[..2][..1] == [Announce];
    CountAtMost(run);
    Limits();
  }

  lemma {:induction false} CountAtMost(run: seq<Event>)
    ensures forall c: Channel, s: nat :: Count(run, c, s) <= |run|
  {
    if run != [] {
      CountAtMost(run[..|run| - 1]);
    }
  }

  method WriteVideoIv(counter: nat, iv: array<Byte>)
    requires iv.Length == 12 && iv[8..11] == [0, 0, 0]
    modifies iv
    ensures iv[..] == Iv(Video, counter) && iv[8..11] == [0, 0, 0]
  {
    ghost var zeros := iv[8..11];
    CopyInto(LittleEndian(counter, 8), iv, 0);
    assert iv[8..11] == zeros;
    iv[11] := V;
    assert iv[..] == LittleEndian(counter, 8) + iv[8..11] + [iv[11]];
  }

  /** Control and RTSP IVs differ in the last letter only. */
  method WriteHostIv(c: Channel, counter: nat, iv: array<Byte>)
    requires !c.Video? && iv.Length == 12 && iv[4..10] == Zeros(6)
    modifies iv
    ensures iv[..] == Iv(c, counter) && iv[4..10] == Zeros(6)
  {
    ghost var zeros := iv[4..10];
    CopyInto(LittleEndian(counter, 4), iv, 0);
    assert iv[4..10] == zeros;
    iv[10] := H;
    iv[11] := if c.Control? then C else R;
    assert iv[..] == LittleEndian(counter, 4) + iv[4..10] + [iv[10], iv[11]];
  }

  method NewRtspIv(counter: nat) returns (iv: array<Byte>)
    ensures fresh(iv) && iv[..] == Iv(Rtsp, counter)
  {
    iv := new Byte[12](_ => 0);
    assert iv[4..10] == Zeros(6);
    WriteHostIv(Rtsp, counter, iv);
  }

  method Increment64(n: nat) returns (r: nat)
    ensures r == (n + 1) % Limit(Video)
  {
    Limits();
    r := (n + 1) % 0x1_0000_0000_0000_0000;
  }

  method Increment32(n: nat, ghost c: Channel) returns (r: nat)
    requires !c.Video?
    ensures r == (n + 1) % Limit(c)
  {
    Limits();
    r := (n + 1) % 0x1_0000_0000;
  }

  /** The counters of one stream, and the buffer that its control vectors are built in. */
  class StreamIvs {
    var gcmIvCounter: nat        // video, 64 bits
    var controlSeq: nat          // control stream, 32 bits
    const outgoingIv: array<Byte>

    constructor ()
      ensures gcmIvCounter == 0 == controlSeq && fresh(outgoingIv)
      ensures outgoingIv.Length == 12 && outgoingIv[4..10] == Zeros(6)
    {
      gcmIvCounter, controlSeq := 0, 0;
      outgoingIv := new Byte[12](_ => 0);
    }
  }

  /** A launch session's counter, the streams announced with it, and the buffer reused for every video packet. */
  class SessionIvs {
    var rtspIvCounter: nat       // RTSP, 32 bits
    var streams: seq<StreamIvs>
    const videoIv: array<Byte>
    ghost var run: seq<Event>

    ghost predicate Separate()
      reads this
    {
      && (forall s, t :: 0 <= s < t < |streams| ==>
            streams[s] != streams[t] && streams[s].outgoingIv != streams[t].outgoingIv)
      && (forall s :: 0 <= s < |streams| ==> streams[s].outgoingIv != videoIv)
    }

    ghost predicate Valid()
      reads this, videoIv, streams, set s <- streams :: s.outgoingIv
    {
      && Separate() && Possible(run) && |streams| == Announced(run)
      && rtspIvCounter == Wrap(Count(run, Rtsp, 0), Limit(Rtsp))
      && videoIv.Length == 12 && videoIv[8..11] == [0, 0, 0]
      && (forall s :: 0 <= s < |streams| ==> StreamOk(streams[s], s, run))
    }

    constructor ()
      ensures Valid() && run == [] && fresh(videoIv)
    {
      rtspIvCounter, streams, run := 0, [], [];
      videoIv := new Byte[12](_ => 0);
    }

    /** session::alloc, for an ANNOUNCE: both counters of the new stream start at zero, the key is the old one. */
    method Announce()
      requires Valid()
      modifies `streams, `run
      ensures Valid() && run == old(run) + [Event.Announce]
      ensures |streams| == |old(streams)| + 1 && streams[..|old(streams)|] == old(streams)
      ensures fresh(streams[|old(streams)|]) && fresh(streams[|old(streams)|].outgoingIv)
    {
      var stream := new StreamIvs();
      Step(run, Event.Announce);
      NewStreamOk(stream, run);
      forall s | 0 <= s < |streams|
        ensures StreamOk(streams[s], s, run + [Event.Announce])
      {
        assert StreamOk(streams[s], s, run);
      }
      streams := streams + [stream];
      run := run + [Event.Announce];
    }

    /** Per encrypted video shard. */
    method NextVideoIv(s: nat)
      requires Valid() && s < |streams|
      modifies streams[s], `run, videoIv
      ensures Valid() && run == old(run) + [Send(Video, s)]
      ensures videoIv[..] == IvAt(run, |old(run)|)
    {
      WriteVideoIv(streams[s].gcmIvCounter, videoIv);
      streams[s].gcmIvCounter := Increment64(streams[s].gcmIvCounter);
      Step(run, Send(Video, s));
      MessageStep(run, Video, s);
      forall t | 0 <= t < |streams|
        ensures StreamOk(streams[t], t, run + [Send(Video, s)])
      {
        assert old(StreamOk(streams[t], t, run));
        assert streams[t].outgoingIv[..] == old(streams[t].outgoingIv[..]);
      }
      run := run + [Send(Video, s)];
    }

    /** encode_control with SS_ENC_CONTROL_V2. */
    method NextControlIv(s: nat)
      requires Valid() && s < |streams|
      modifies streams[s], `run, streams[s].outgoingIv
      ensures Valid() && run == old(run) + [Send(Control, s)]
      ensures streams[s].outgoingIv[..] == IvAt(run, |old(run)|)
    {
      var seqNumber := streams[s].controlSeq;
      streams[s].controlSeq := Increment32(seqNumber, Control);
      WriteHostIv(Control, seqNumber, streams[s].outgoingIv);
      Step(run, Send(Control, s));
      MessageStep(run, Control, s);
      forall t | 0 <= t < |streams|
        ensures StreamOk(streams[t], t, run + [Send(Control, s)])
      {
        assert old(StreamOk(streams[t], t, run));
        assert t != s ==> streams[t].outgoingIv[..] == old(streams[t].outgoingIv[..]);
      }
      run := run + [Send(Control, s)];
    }

    /** respond over encrypted RTSP: the counter is advanced first, and the buffer is a new one. */
    method NextRtspIv() returns (iv: array<Byte>)
      requires Valid()
      modifies `rtspIvCounter, `run
      ensures Valid() && run == old(run) + [Send(Rtsp, 0)]
      ensures fresh(iv) && iv[..] == IvAt(run, |old(run)|)
    {
      rtspIvCounter := Increment32(rtspIvCounter, Rtsp);
      iv := NewRtspIv(rtspIvCounter);
      Step(run, Send(Rtsp, 0));
      MessageStep(run, Rtsp, 0);
      forall t | 0 <= t < |streams|
        ensures StreamOk(streams[t], t, run + [Send(Rtsp, 0)])
      {
        assert old(StreamOk(streams[t], t, run));
        assert streams[t].outgoingIv[..] == old(streams[t].outgoingIv[..]);
      }
      run := run + [Send(Rtsp, 0)];
    }
  }

  ghost predicate StreamOk(stream: StreamIvs, s: nat, run: seq<Event>)
    reads stream, stream.outgoingIv
  {
    && stream.gcmIvCounter == Wrap(Count(run, Video, s), Limit(Video))
    && stream.controlSeq == Wrap(Count(run, Control, s), Limit(Control))
    && stream.outgoingIv.Length == 12 && stream.outgoingIv[4..10] == Zeros(6)
  }

  lemma NewStreamOk(stream: StreamIvs, run: seq<Event>)
    requires Possible(run) && stream.gcmIvCounter == 0 == stream.controlSeq
    requires stream.outgoingIv.Length == 12 && stream.outgoingIv[4..10] == Zeros(6)
    ensures StreamOk(stream, Announced(run), run + [Announce])
  {
    Step(run, Announce);
    NotYetAnnounced(run, Announced(run));
  }

  lemma {:induction false} NotYetAnnounced(run: seq<Event>, s: nat)
    requires Possible(run) && Announced(run) <= s
    ensures Count(run, Video, s) == 0 == Count(run, Control, s)
  {
    if run != [] {
      NotYetAnnounced(run[..|run| - 1], s);
    }
  }

  /** One more event: only the counter it is on moves. */
  lemma Step(run: seq<Event>, e: Event)
    ensures Announced(run + [e]) == Announced(run) + if e.Announce? then 1 else 0
    ensures Possible(run) && (e.Send? && !e.channel.Rtsp? ==> e.stream < Announced(run)) ==> Possible(run + [e])
    ensures forall c: Channel, s: nat ::
              Count(run + [e], c, s) == Count(run, c, s) + if On(e, c, s) then 1 else 0
  {
    assert (run + [e])[..|run|] == run;
  }

  /** A message takes its counter's value, RTSP's the one after it, and moves the counter on. */
  lemma MessageStep(run: seq<Event>, c: Channel, s: nat)
    ensures IvAt(run + [Send(c, s)], |run|) == Iv(c, Counter(run, c, s))
    ensures Wrap(Count(run + [Send(c, s)], c, s), Limit(c)) == (Wrap(Count(run, c, s), Limit(c)) + 1) % Limit(c)
    ensures Counter(run, c, s)
            == if c.Rtsp? then (Wrap(Count(run, c, s), Limit(c)) + 1) % Limit(c) else Wrap(Count(run, c, s), Limit(c))
  {
    LastIv(run, Send(c, s));
    CounterMoves(run, c, s, Limit(c));
  }

  lemma CounterMoves(run: seq<Event>, c: Channel, s: nat, limit: nat)
    requires limit == Limit(c)
    ensures Wrap(Count(run + [Send(c, s)], c, s), limit) == (Wrap(Count(run, c, s), limit) + 1) % limit
    ensures Counter(run, c, s)
            == if c.Rtsp? then (Wrap(Count(run, c, s), limit) + 1) % limit else Wrap(Count(run, c, s), limit)
  {
    Step(run, Send(c, s));
    AboveOne(c);
    WrapStep(Count(run, c, s), limit, c.Rtsp?);
  }

  lemma AboveOne(c: Channel)
    ensures Limit(c) > 1
  {
    Limits();
  }

  lemma LastIv(run: seq<Event>, e: Event)
    requires e.Send?
    ensures IvAt(run + [e], |run|) == Iv(e.channel, Counter(run, e.channel, e.stream))
  {
    assert (run + [e])[..|run|] == run;
  }

  lemma WrapStep(n: nat, limit: nat, first: bool)
    requires limit > 1
    ensures Wrap(n + 1, limit) == (Wrap(n, limit) + 1) % limit
    ensures Wrap(n + if first then 1 else 0, limit)
            == if first then (Wrap(n, limit) + 1) % limit else Wrap(n, limit)
  {
    WrapSucc(n, limit);
  }

  lemma Limits()
    ensures Limit(Video) == 0x1_0000_0000_0000_0000 && Limit(Control) == Limit(Rtsp) == 0x1_0000_0000
  {
    assert Pow256(1) == 256 * Pow256(0);
    assert Pow256(2) == 0x1_0000;
    assert Pow256(4) == 256 * (256 * Pow256(2)) == 0x1_0000_0000;
    assert Pow256(6) == 256 * (256 * Pow256(4));
    assert Pow256(8) == 256 * (256 * Pow256(6));
  }
}
