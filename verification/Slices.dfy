/** Facts about slices of sequences, stated once so that proofs about buffers need not rediscover them. */
module Slices {

  lemma SliceOfSlice<T>(s: seq<T>, a: nat, b: nat, c: nat, d: nat)
    requires a <= b <= |s| && c <= d <= b - a
    ensures s[a..b][c..d] == s[a + c..a + d]
  {
    var t := s[a..b];
    forall i | 0 <= i < d - c
      ensures t[c..d][i] == s[a + c..a + d][i]
    {
      assert t[c..d][i] == t[c + i] == s[a + (c + i)];
    }
  }

  lemma SliceOfDrop<T>(s: seq<T>, a: nat, c: nat, d: nat)
    requires a <= |s| && c <= d <= |s| - a
    ensures s[a..][c..d] == s[a + c..a + d]
    ensures s[a..][c..] == s[a + c..]
  {
    assert s[a..] == s[a..|s|];
    SliceOfSlice(s, a, |s|, c, d);
    SliceOfSlice(s, a, |s|, c, |s| - a);
  }

  lemma SplicedAt<T>(before: seq<T>, p: nat, body: seq<T>, after: seq<T>)
    requires p + |body| <= |before| && after == before[..p] + body + before[p + |body|..]
    ensures |after| == |before|
    ensures forall i :: 0 <= i < |after| ==>
              after[i] == if p <= i < p + |body| then body[i - p] else before[i]
  {
  }

  /** Replacing `body` at `at` inside the window `lo..hi`. */
  lemma SpliceWindow<T>(before: seq<T>, lo: nat, hi: nat, at: nat, body: seq<T>, after: seq<T>)
    requires lo <= hi <= |before| && at + |body| <= hi - lo
    requires after == before[..lo + at] + body + before[lo + at + |body|..]
    ensures after[lo..hi] == before[lo..hi][..at] + body + before[lo..hi][at + |body|..]
    ensures after[..lo] == before[..lo] && after[hi..] == before[hi..]
  {
    SplicedAt(before, lo + at, body, after);
    var window := before[lo..hi];
    var spliced := window[..at] + body + window[at + |body|..];
    SplicedAt(window, at, body, spliced);
    forall i | 0 <= i < hi - lo
      ensures after[lo..hi][i] == spliced[i]
    {
      assert window[i] == before[lo + i] && after[lo..hi][i] == after[lo + i];
    }
  }

  lemma Assoc<T>(a: seq<T>, b: seq<T>, c: seq<T>)
    ensures (a + b) + c == a + (b + c)
  {
  }

  lemma TakeExtend<T>(s: seq<T>, a: nat, b: nat)
    requires a <= b <= |s|
    ensures s[..b] == s[..a] + s[a..b]
    ensures s[a..] == s[a..b] + s[b..]
  {
  }

  /** A slice that lies in front of position `n`, or behind it, is the same in sequences that agree there. */
  lemma SliceAgree<T>(s: seq<T>, t: seq<T>, n: nat, c: nat, d: nat)
    requires n <= |s| == |t| && c <= d <= |s|
    ensures s[..n] == t[..n] && d <= n ==> s[c..d] == t[c..d]
    ensures s[n..] == t[n..] && n <= c ==> s[c..d] == t[c..d] && s[c..] == t[c..]
  {
    if s[..n] == t[..n] && d <= n {
      SliceOfSlice(s, 0, n, c, d);
      SliceOfSlice(t, 0, n, c, d);
      assert s[0..n] == s[..n] && t[0..n] == t[..n];
    }
    if s[n..] == t[n..] && n <= c {
      SliceOfDrop(s, n, c - n, d - n);
      SliceOfDrop(t, n, c - n, d - n);
    }
  }

  /** Copying the tail of one sequence and the head of another is copying out of their concatenation. */
  lemma SliceAcross<T>(a: seq<T>, b: seq<T>, p: nat, n: nat)
    requires p <= |a| <= p + n <= |a| + |b|
    ensures (a + b)[p..p + n] == a[p..] + b[..p + n - |a|]
  {
  }

  lemma SliceOfConcat<T>(a: seq<T>, b: seq<T>, p: nat, n: nat)
    requires p + n <= |a| + |b|
    ensures p + n <= |a| ==> (a + b)[p..p + n] == a[p..p + n]
    ensures |a| <= p ==> (a + b)[p..p + n] == b[p - |a|..p - |a| + n]
  {
  }
}
