/**
 The byte layout of an encoded frame: `concat_and_insert` cuts the concatenation of two buffers
 into slices and leaves a gap of zero bytes in front of every slice, where the packet headers
 are written later.
 */
module Interleave {
  import opened Arith
  import opened Slices

  type Byte = x: int | 0 <= x < 256

  function Zeros(n: nat): (z: seq<Byte>)
    ensures |z| == n && forall i :: 0 <= i < n ==> z[i] == 0
  {
    seq(n, _ => 0)
  }

  /** Every slice of `data`, each behind a gap of `gap` zero bytes; only the last slice may be short. */
  function Interleaved(gap: nat, slice: nat, data: seq<Byte>): seq<Byte>
    requires slice > 0
    decreases |data|
  {
    if data == [] then []
    else
      var n := Min(slice, |data|);
      Zeros(gap) + data[..n] + Interleaved(gap, slice, data[n..])
  }

  /** What a receiver does: drop the first `gap` bytes of every block of `gap + slice` bytes. */
  function Stripped(gap: nat, slice: nat, stream: seq<Byte>): seq<Byte>
    requires slice > 0
    decreases |stream|
  {
    if |stream| <= gap then []
    else
      var n := Min(gap + slice, |stream|);
      stream[gap..n] + Stripped(gap, slice, stream[n..])
  }

  lemma {:induction false} StripUndoesInterleave(gap: nat, slice: nat, data: seq<Byte>)
    requires slice > 0
    ensures Stripped(gap, slice, Interleaved(gap, slice, data)) == data
    decreases |data|
  {
    if data != [] {
      var n := Min(slice, |data|);
      var rest := Interleaved(gap, slice, data[n..]);
      var stream := Interleaved(gap, slice, data);
      assert stream == Zeros(gap) + data[..n] + rest;
      StripUndoesInterleave(gap, slice, data[n..]);
      if n < slice {
        assert data[n..] == [];
      }
      assert stream[gap..gap + n] == data[..n];
      assert stream[gap + n..] == rest;
      assert data == data[..n] + data[n..];
    }
  }

  lemma {:induction false} InterleavedLength(gap: nat, slice: nat, data: seq<Byte>)
    requires slice > 0
    ensures |Interleaved(gap, slice, data)| == Times(CeilDiv(|data|, slice), gap) + |data|
    decreases |data|
  {
    if data != [] {
      var n := Min(slice, |data|);
      InterleavedLength(gap, slice, data[n..]);
      assert CeilDiv(|data|, slice) == CeilDiv(|data[n..]|, slice) + 1;
    }
  }

  lemma StrippedFirst(gap: nat, slice: nat, a: seq<Byte>)
    requires slice > 0 && |a| >= gap + slice
    ensures Stripped(gap, slice, a) == a[gap..gap + slice] + Stripped(gap, slice, a[gap + slice..])
  {
  }

  /** Dropping headers block by block distributes over a cut at a whole number of blocks. */
  lemma {:induction false} StrippedAppend(gap: nat, slice: nat, a: seq<Byte>, b: seq<Byte>, n: nat)
    requires slice > 0 && |a| == Times(n, gap + slice)
    ensures Stripped(gap, slice, a + b) == Stripped(gap, slice, a) + Stripped(gap, slice, b)
    decreases n
  {
    if n == 0 {
      assert a + b == b;
    } else {
      var k := gap + slice;
      assert |a| == Times(n - 1, k) + k;
      var head, tail := a[gap..k], a[k..];
      StrippedAppend(gap, slice, tail, b, n - 1);
      StrippedCons(gap, slice, a, [], head, tail);
      StrippedCons(gap, slice, a, b, head, tail);
      Assoc(head, Stripped(gap, slice, tail), Stripped(gap, slice, b));
    }
  }

  lemma StrippedCons(gap: nat, slice: nat, a: seq<Byte>, b: seq<Byte>, head: seq<Byte>, tail: seq<Byte>)
    requires slice > 0 && |a| >= gap + slice && head == a[gap..gap + slice] && tail == a[gap + slice..]
    ensures Stripped(gap, slice, a + b) == head + Stripped(gap, slice, tail + b)
    ensures a + [] == a && tail + [] == tail
  {
    assert (a + b)[gap..gap + slice] == head;
    assert (a + b)[gap + slice..] == tail + b;
    StrippedFirst(gap, slice, a + b);
  }

  lemma StrippedHead(gap: nat, slice: nat, block: seq<Byte>, b: seq<Byte>, head: seq<Byte>)
    requires slice > 0 && |block| == gap + slice && head == block[gap..]
    ensures Stripped(gap, slice, block + b) == head + Stripped(gap, slice, b)
  {
    assert (block + b)[gap..gap + slice] == head;
    assert (block + b)[gap + slice..] == b;
    StrippedFirst(gap, slice, block + b);
  }

  /** Padding the last block with zeros appends them to the payload. */
  lemma {:induction false} StripPadded(gap: nat, slice: nat, data: seq<Byte>, pad: nat, n: nat)
    requires slice > 0 && data != [] && pad < gap + slice
    requires |Interleaved(gap, slice, data)| + pad == Times(n, gap + slice)
    ensures pad < slice && |data| + pad == Times(n, slice)
    ensures Stripped(gap, slice, Interleaved(gap, slice, data) + Zeros(pad)) == data + Zeros(pad)
    decreases |data|
  {
    var k, n0 := gap + slice, Min(slice, |data|);
    var head, rest := data[..n0], Interleaved(gap, slice, data[n0..]);
    assert Interleaved(gap, slice, data) + Zeros(pad) == (Zeros(gap) + head) + (rest + Zeros(pad));
    assert n >= 1 && Times(n, k) == Times(n - 1, k) + k && Times(n, slice) == Times(n - 1, slice) + slice;
    if |data| > slice {
      StripPadded(gap, slice, data[slice..], pad, n - 1);
      StrippedHead(gap, slice, Zeros(gap) + head, rest + Zeros(pad), head);
      assert data == head + data[slice..];
      Assoc(head, data[slice..], Zeros(pad));
    } else {
      assert rest == [] && head == data;
      assert Interleaved(gap, slice, data) + Zeros(pad) == (Zeros(gap) + data) + Zeros(pad);
      StripPaddedBlock(gap, slice, data, pad);
    }
  }

  lemma StripPaddedBlock(gap: nat, slice: nat, data: seq<Byte>, pad: nat)
    requires slice > 0 && |data| + pad == slice
    ensures Stripped(gap, slice, (Zeros(gap) + data) + Zeros(pad)) == data + Zeros(pad)
  {
    assert ((Zeros(gap) + data) + Zeros(pad))[gap..] == data + Zeros(pad);
    LastBlock(gap, slice, (Zeros(gap) + data) + Zeros(pad));
  }

  lemma LastBlock(gap: nat, slice: nat, block: seq<Byte>)
    requires slice > 0 && |block| == gap + slice
    ensures Stripped(gap, slice, block) == block[gap..]
  {
    assert block[gap + slice..] == [];
  }

  lemma SplitEqual<T>(a1: seq<T>, a2: seq<T>, b1: seq<T>, b2: seq<T>)
    requires |a1| == |b1| && a1 + a2 == b1 + b2
    ensures a1 == b1 && a2 == b2
  {
    assert a1 == (a1 + a2)[..|a1|] && b1 == (b1 + b2)[..|b1|];
    assert a2 == (a1 + a2)[|a1|..] && b2 == (b1 + b2)[|b1|..];
  }

  /** Two streams that differ at most in their headers still do so after padding. */
  lemma {:induction false} StrippedSamePadded(gap: nat, slice: nat, a: seq<Byte>, b: seq<Byte>, z: seq<Byte>)
    requires slice > 0 && |a| == |b| && Stripped(gap, slice, a) == Stripped(gap, slice, b)
    ensures Stripped(gap, slice, a + z) == Stripped(gap, slice, b + z)
    decreases |a|
  {
    var k := gap + slice;
    if |a| >= k {
      StrippedCons(gap, slice, a, [], a[gap..k], a[k..]);
      StrippedCons(gap, slice, b, [], b[gap..k], b[k..]);
      SplitEqual(a[gap..k], Stripped(gap, slice, a[k..]), b[gap..k], Stripped(gap, slice, b[k..]));
      StrippedSamePadded(gap, slice, a[k..], b[k..], z);
      StrippedCons(gap, slice, a, z, a[gap..k], a[k..]);
      StrippedCons(gap, slice, b, z, b[gap..k], b[k..]);
    } else if |a + z| > gap {
      var n := Min(k, |a + z|);
      if |a| > gap {
        assert Stripped(gap, slice, a) == a[gap..] && Stripped(gap, slice, b) == b[gap..];
        assert forall i :: gap <= i < |a| ==> a[i] == a[gap..][i - gap] && b[i] == b[gap..][i - gap];
      }
      assert (a + z)[gap..n] == (b + z)[gap..n];
      assert (a + z)[n..] == (b + z)[n..];
    }
  }

  /** std::copy into a buffer at a given offset. */
  method CopyInto(src: seq<Byte>, dst: array<Byte>, at: nat)
    requires at + |src| <= dst.Length
    modifies dst
    ensures dst[..] == old(dst[..at]) + src + old(dst[at + |src|..])
  {
    for i := 0 to |src|
      invariant dst[..] == old(dst[..at]) + src[..i] + old(dst[at + i..])
    {
      dst[at + i] := src[i];
      assert src[..i + 1] == src[..i] + [src[i]];
    }
    assert src[..|src|] == src;
  }

  /**
   The copying half of one loop iteration: `n` bytes from the cursor to `result[at..]`. The cursor
   points into `data1` while `first` holds and into `data2` afterwards, and moves on at most once.
   */
  method CopySlice(data1: seq<Byte>, data2: seq<Byte>, first: bool, next: nat, n: nat, result: array<Byte>, at: nat)
    returns (first': bool, next': nat, ghost p: nat)
    requires if first then next <= |data1| else next <= |data2|
    requires (if first then next else |data1| + next) + n <= |data1| + |data2|
    requires at + n <= result.Length
    modifies result
    ensures p == if first then next else |data1| + next
    ensures if first' then next' == p + n <= |data1| else |data1| + next' == p + n
    ensures result[..] == old(result[..at]) + (data1 + data2)[p..p + n] + old(result[at + n..])
  {
    p := if first then next else |data1| + next;
    var end := if first then |data1| else |data2|;
    if next + n > end {
      var copyLen := end - next;
      CopyInto(data1[next..], result, at);
      CopyInto(data2[..n - copyLen], result, at + copyLen);
      first', next' := false, n - copyLen;
      SliceAcross(data1, data2, p, n);
    } else {
      var src := if first then data1 else data2;
      CopyInto(src[next..next + n], result, at);
      first', next' := first, next + n;
      SliceOfConcat(data1, data2, p, n);
    }
  }

  /** One step of the layout: a slice moves from the part still to do to the part done. */
  lemma LayoutStep(gap: nat, slice: nat, data: seq<Byte>, done: seq<Byte>, p: nat, n: nat)
    requires slice > 0 && p < |data| && n == Min(slice, |data| - p)
    requires done + Interleaved(gap, slice, data[p..]) == Interleaved(gap, slice, data)
    ensures done + (Zeros(gap) + data[p..p + n]) + Interleaved(gap, slice, data[p + n..])
            == Interleaved(gap, slice, data)
  {
    assert data[p..][..n] == data[p..p + n];
    assert data[p..][n..] == data[p + n..];
  }

  /** Writing a slice `gap` bytes behind the part done leaves a zero gap and keeps the zero tail. */
  lemma Spliced(done: seq<Byte>, rest: nat, gap: nat, body: seq<Byte>, before: seq<Byte>, after: seq<Byte>)
    requires before == done + Zeros(rest) && gap + |body| <= rest
    requires after == before[..|done| + gap] + body + before[|done| + gap + |body|..]
    ensures after == done + (Zeros(gap) + body) + Zeros(rest - gap - |body|)
  {
  }

  /** Where iteration `x` of the copy loop finds itself in the input. */
  lemma SlicePosition(x: nat, elements: nat, slice: nat, size: nat)
    requires slice > 0 && x < elements == CeilDiv(size, slice)
    ensures Times(x, slice) < size
    ensures x == elements - 1 ==> size <= Times(x, slice) + slice
    ensures x < elements - 1 ==> Times(x, slice) + slice < size
  {
    CeilDivBounds(size, slice);
    TimesMono(x, elements - 1, slice);
  }

  /** `done` is the part of the layout already written: the layout of the first `p` bytes, and zeros behind it. */
  ghost predicate Written(gap: nat, slice: nat, data: seq<Byte>, done: seq<Byte>, p: nat, buffer: seq<Byte>)
    requires slice > 0
  {
    && p <= |data|
    && done + Interleaved(gap, slice, data[p..]) == Interleaved(gap, slice, data)
    && |done| <= |buffer| == |Interleaved(gap, slice, data)|
    && buffer == done + Zeros(|buffer| - |done|)
  }

  lemma WrittenStep(gap: nat, slice: nat, data: seq<Byte>, done: seq<Byte>, p: nat, n: nat, before: seq<Byte>,
                    after: seq<Byte>)
    requires slice > 0 && p < |data| && n == Min(slice, |data| - p)
    requires Written(gap, slice, data, done, p, before)
    requires |done| + gap + n <= |before|
    requires after == before[..|done| + gap] + data[p..p + n] + before[|done| + gap + n..]
    ensures Written(gap, slice, data, done + (Zeros(gap) + data[p..p + n]), p + n, after)
  {
    LayoutStep(gap, slice, data, done, p, n);
    Spliced(done, |before| - |done|, gap, data[p..p + n], before, after);
  }

  /** There is room for the next slice. */
  lemma RoomForSlice(gap: nat, slice: nat, data: seq<Byte>, done: seq<Byte>, p: nat, n: nat, buffer: seq<Byte>)
    requires slice > 0 && p < |data| && n == Min(slice, |data| - p)
    requires Written(gap, slice, data, done, p, buffer)
    ensures |done| + gap + n <= |buffer|
  {
    LayoutStep(gap, slice, data, done, p, n);
    assert |done + (Zeros(gap) + data[p..p + n])| <= |buffer|;
  }

  /** One iteration of the copy loop, for a slice of `n` bytes. */
  method CopyElement(gap: nat, slice: nat, data1: seq<Byte>, data2: seq<Byte>, first: bool, next: nat, n: nat,
                     result: array<Byte>, ghost done: seq<Byte>, at: nat)
    returns (first': bool, next': nat, ghost p': nat, ghost done': seq<Byte>)
    requires slice > 0
    requires if first then next <= |data1| else next <= |data2|
    requires Consumed(first, next, data1) < |data1| + |data2|
    requires n == Min(slice, |data1| + |data2| - Consumed(first, next, data1))
    requires Written(gap, slice, data1 + data2, done, Consumed(first, next, data1), result[..])
    requires at == |done|
    modifies result
    ensures p' == Consumed(first', next', data1) == Consumed(first, next, data1) + n
    ensures if first' then next' <= |data1| else next' <= |data2|
    ensures Written(gap, slice, data1 + data2, done', p', result[..])
    ensures |done'| == |done| + gap + n
  {
    ghost var data, before, p := data1 + data2, result[..], Consumed(first, next, data1);
    RoomForSlice(gap, slice, data, done, p, n, before);
    p', done' := p + n, done + (Zeros(gap) + data[p..p + n]);
    ghost var q;
    first', next', q := CopySlice(data1, data2, first, next, n, result, at + gap);
    assert result[..] == before[..|done| + gap] + data[p..p + n] + before[|done| + gap + n..];
    WrittenStep(gap, slice, data, done, p, n, before, result[..]);
  }

  ghost function Consumed(first: bool, next: nat, data1: seq<Byte>): nat {
    if first then next else |data1| + next
  }

  method ConcatAndInsert(insertSize: nat, sliceSize: nat, data1: seq<Byte>, data2: seq<Byte>)
    returns (result: array<Byte>)
    requires sliceSize > 0
    ensures fresh(result)
    ensures result[..] == Interleaved(insertSize, sliceSize, data1 + data2)
  {
    var dataSize := |data1| + |data2|;
    var pad := dataSize % sliceSize != 0;
    var elements := dataSize / sliceSize + if pad then 1 else 0;
    CeilDivByRemainder(dataSize, sliceSize);
    InterleavedLength(insertSize, sliceSize, data1 + data2);
    var gaps := Multiply(elements, insertSize);
    result := new Byte[gaps + dataSize](_ => 0);
    FillElements(insertSize, sliceSize, data1, data2, elements, result);
  }

  method FillElements(insertSize: nat, sliceSize: nat, data1: seq<Byte>, data2: seq<Byte>, elements: nat,
                      result: array<Byte>)
    requires sliceSize > 0 && elements == CeilDiv(|data1| + |data2|, sliceSize)
    requires result[..] == Zeros(|Interleaved(insertSize, sliceSize, data1 + data2)|)
    modifies result
    ensures result[..] == Interleaved(insertSize, sliceSize, data1 + data2)
  {
    var dataSize := |data1| + |data2|;
    var first, next: nat := true, 0;
    ghost var p: nat, done := 0, [];
    var x := 0;
    while x < elements
      invariant 0 <= x <= elements
      invariant x < elements ==> p == Times(x, sliceSize) && |done| == Times(x, insertSize + sliceSize)
      invariant x == elements ==> p == dataSize
      invariant p == Consumed(first, next, data1) && if first then next <= |data1| else next <= |data2|
      invariant Written(insertSize, sliceSize, data1 + data2, done, p, result[..])
    {
      SlicePosition(x, elements, sliceSize, dataSize);
      var at := Multiply(x, insertSize + sliceSize);
      var consumed := Multiply(x, sliceSize);
      var n := if x == elements - 1 then dataSize - consumed else sliceSize;
      first, next, p, done := CopyElement(insertSize, sliceSize, data1, data2, first, next, n, result, done, at);
      x := x + 1;
    }
    assert (data1 + data2)[p..] == [];
  }
}
