/**
 What the merging of input messages leaves in place: a message moves only among messages of its own kind,
 never past a state change of its device, a button, a key press, or any message of another kind.
 */
module InputOrder {

  import opened Wrappers
  import opened InputBatch

  // One scan.

  /** The scan looks at a stretch of messages of the first one's kind; everything behind that stretch stays as it is. */
  lemma {:induction false} ScanStretch(dest: Msg, queue: seq<Msg>) returns (n: nat, kept: seq<Msg>)
    ensures n <= |queue| && Scan(dest, queue).1 == kept + queue[n..]
    ensures forall l :: 0 <= l < n ==> SameLane(LaneOf(dest), LaneOf(queue[l]))
    ensures LaneOf(Scan(dest, queue).0) == LaneOf(dest) && forall m :: m in kept ==> m in queue[..n]
    decreases |queue|
  {
    if queue == [] || Batch(dest, queue[0]).Terminate? {
      n, kept := 0, [];
      assert kept + queue[0..] == queue;
    } else {
      var m, tail := queue[0], queue[1..];
      BatchFacts(dest, m);
      var next := if Batch(dest, m).Batched? then Batch(dest, m).dest else dest;
      n, kept := ScanStretch(next, tail);
      assert tail[n..] == queue[n + 1..] && queue[..n + 1] == [m] + tail[..n];
      if Batch(dest, m).NotBatchable? {
        assert [m] + (kept + tail[n..]) == ([m] + kept) + tail[n..];
        kept := [m] + kept;
      }
      n := n + 1;
    }
  }

  // What one device's messages may not pass.

  /**
   Seen from one key: its own messages, single messages it may not pass, controller reports with another set of
   active controllers, and the kinds of all others.
   */
  datatype Mark = Own(m: Msg) | Wall(m: Msg) | Active(mask: int) | Kind(lane: Lane)

  function LaneOfKey(k: Key): Lane
    requires k != KNone
  {
    match k
    case KAbsMouse => LAbs
    case KController(_) => LController
    case KTouch(_) => LTouch
    case KPen => LPen
    case KControllerTouch(_, _) => LControllerTouch
    case KMotion(_, _) => LMotion
  }

  /** A controller's reports are seen for one set of active controllers at a time. */
  predicate Mine(k: Key, mask: int, m: Msg) {
    KeyOf(m) == k && (m.Controller? ==> m.mask == mask)
  }

  /**
   Other devices' and pointers' messages of the key's kind are left out, unless they change the controller's
   state or the set of active controllers.
   */
  function MarkFor(k: Key, mask: int, m: Msg): Option<Mark>
    requires k != KNone
  {
    if Mine(k, mask, m) then Some(Own(m))
    else if LaneOf(m).LBarrier? then Some(Wall(m))
    else if LaneOf(m) != LaneOfKey(k) then Some(Kind(LaneOf(m)))
    else if m.ControllerTouch? && m.event.Change? && m.number == k.number then Some(Wall(m))
    else if m.Controller? && m.mask != mask then Some(Active(m.mask))
    else None
  }

  function One<T>(o: Option<T>): seq<T> {
    if o.Some? then [o.value] else []
  }

  function View(k: Key, mask: int, q: seq<Msg>): seq<Mark>
    requires k != KNone
  {
    if q == [] then [] else One(MarkFor(k, mask, q[0])) + View(k, mask, q[1..])
  }

  /**
   Own messages may give way to one that says the same again; of other kinds and other sets of controllers only
   the repetition may go; walls stay.
   */
  predicate SameMark(a: Mark, b: Mark) {
    match (a, b)
    case (Own(m), Own(m')) => Superseded(m, m')
    case (Active(n), Active(n')) => n == n'
    case (Kind(l), Kind(l')) => l == l'
    case (_, _) => false
  }

  lemma MarksEquate()
    ensures Equating(SameMark)
  {
  }

  lemma ViewCons(k: Key, mask: int, m: Msg, q: seq<Msg>)
    requires k != KNone
    ensures View(k, mask, [m] + q) == One(MarkFor(k, mask, m)) + View(k, mask, q)
  {
    assert ([m] + q)[1..] == q;
  }

  lemma {:induction false} ViewAppend(k: Key, mask: int, a: seq<Msg>, b: seq<Msg>)
    requires k != KNone
    ensures View(k, mask, a + b) == View(k, mask, a) + View(k, mask, b)
  {
    if a == [] {
      assert a + b == b;
    } else {
      ViewAppend(k, mask, a[1..], b);
      assert a + b == [a[0]] + (a[1..] + b);
      ViewCons(k, mask, a[0], a[1..] + b);
      Regroup(One(MarkFor(k, mask, a[0])), View(k, mask, a[1..]), View(k, mask, b));
    }
  }

  /** Two marks that a view cannot tell apart, or that are both missing. */
  predicate Alike(a: Option<Mark>, b: Option<Mark>) {
    a == b && (a.Some? ==> a.value.Kind? || a.value.Active?)
  }

  lemma MergeMarks(k: Key, mask: int, dest: Msg, m: Msg)
    requires k != KNone && Batch(dest, m).Batched?
    ensures var merged := Batch(dest, m).dest;
            if Mine(k, mask, dest) then
              && MarkFor(k, mask, dest) == Some(Own(dest)) && MarkFor(k, mask, m) == Some(Own(m))
              && merged == m && Superseded(dest, m)
            else
              && Alike(MarkFor(k, mask, dest), MarkFor(k, mask, m))
              && MarkFor(k, mask, merged) == MarkFor(k, mask, dest)
  {
    BatchFacts(dest, m);
  }

  lemma PassMarks(k: Key, mask: int, dest: Msg, m: Msg)
    requires k != KNone && Batch(dest, m).NotBatchable?
    ensures var d, s := MarkFor(k, mask, dest), MarkFor(k, mask, m);
            d.None? || s.None? || Alike(d, s)
  {
  }

  /** The scan's result is marked as the message it started from. */
  lemma {:induction false} ResultMark(k: Key, mask: int, dest: Msg, queue: seq<Msg>)
    requires k != KNone
    ensures var r := Scan(dest, queue).0;
            (Mine(k, mask, r) <==> Mine(k, mask, dest))
            && (!Mine(k, mask, dest) ==> MarkFor(k, mask, r) == MarkFor(k, mask, dest))
    decreases |queue|
  {
    if queue != [] && !Batch(dest, queue[0]).Terminate? {
      BatchFacts(dest, queue[0]);
      if Batch(dest, queue[0]).Batched? {
        MergeMarks(k, mask, dest, queue[0]);
        ResultMark(k, mask, Batch(dest, queue[0]).dest, queue[1..]);
      } else {
        ResultMark(k, mask, dest, queue[1..]);
      }
    }
  }

  /** A drain keeps every key's messages between the walls and kinds they stood between. */
  lemma {:induction false} ScanKeepsView(k: Key, mask: int, dest: Msg, queue: seq<Msg>)
    requires k != KNone
    ensures var (r, rest) := Scan(dest, queue);
            Thinned(SameMark, View(k, mask, [dest] + queue), View(k, mask, [r] + rest))
    decreases |queue|
  {
    var (r, rest) := Scan(dest, queue);
    if queue == [] || Batch(dest, queue[0]).Terminate? {
      ThinnedRefl(SameMark, View(k, mask, [dest] + queue));
    } else {
      var m, tail := queue[0], queue[1..];
      assert queue == [m] + tail;
      ViewCons(k, mask, dest, queue);
      ViewCons(k, mask, m, tail);
      if Batch(dest, m).Batched? {
        var merged := Batch(dest, m).dest;
        ScanKeepsView(k, mask, merged, tail);
        ViewCons(k, mask, merged, tail);
        MergeMarks(k, mask, dest, m);
        MergedView(MarkFor(k, mask, dest), MarkFor(k, mask, m), MarkFor(k, mask, merged), View(k, mask, tail),
                   View(k, mask, [r] + rest));
      } else {
        var (r', rest') := Scan(dest, tail);
        ScanKeepsView(k, mask, dest, tail);
        ViewCons(k, mask, dest, tail);
        ViewCons(k, mask, r, rest');
        ViewCons(k, mask, m, rest');
        ViewCons(k, mask, r, [m] + rest');
        ResultMark(k, mask, dest, tail);
        PassMarks(k, mask, dest, m);
        PassedView(MarkFor(k, mask, dest), MarkFor(k, mask, r), MarkFor(k, mask, m), View(k, mask, tail),
                   View(k, mask, rest'));
      }
    }
  }

  lemma MergedView(d: Option<Mark>, m: Option<Mark>, merged: Option<Mark>, tail: seq<Mark>, result: seq<Mark>)
    requires Thinned(SameMark, One(merged) + tail, result)
    requires (d.Some? && m.Some? && SameMark(d.value, m.value) && merged == m) || (Alike(d, m) && merged == d)
    ensures Thinned(SameMark, One(d) + (One(m) + tail), result)
  {
    if d.Some? {
      Drop(SameMark, d.value, m.value, tail, result);
    } else {
      assert One(d) + (One(m) + tail) == One(merged) + tail;
    }
  }

  lemma PassedView(d: Option<Mark>, r: Option<Mark>, m: Option<Mark>, tail: seq<Mark>, result: seq<Mark>)
    requires Thinned(SameMark, One(d) + tail, One(r) + result)
    requires d.None? <==> r.None?
    requires d.None? || m.None? || (Alike(d, m) && r == d)
    ensures Thinned(SameMark, One(d) + (One(m) + tail), One(r) + (One(m) + result))
  {
    if m.None? {
      assert One(m) + tail == tail && One(m) + result == result;
    } else {
      if d.None? {
        assert One(d) + tail == tail && One(r) + result == result;
        assert One(d) + (One(m) + tail) == One(m) + tail && One(r) + (One(m) + result) == One(m) + result;
        Keep(SameMark, m.value, tail, result);
      } else {
        Keep(SameMark, m.value, One(d) + tail, One(r) + result);
      }
    }
  }

  // Relative motion between other messages.

  /** A stretch of relative messages with its displacement modulo 2^16, or a stretch of another kind. */
  datatype Leg = Moved(dist: nat) | Passed(lane: Lane)

  function AxisLane(axis: Axis): Lane {
    match axis
    case MouseX => LRel
    case MouseY => LRel
    case Vertical => LScroll
    case Horizontal => LHScroll
  }

  function Mod16(n: int): nat { n % 0x1_0000 }

  function LegOf(axis: Axis, m: Msg): Leg {
    if LaneOf(m) == AxisLane(axis) then Moved(Mod16(Along(axis, m))) else Passed(LaneOf(m))
  }

  /** Two legs that make one stretch. */
  predicate Merges(a: Leg, b: Leg) {
    (a.Moved? && b.Moved?) || (a.Passed? && a == b && !a.lane.LBarrier?)
  }

  function Merged(a: Leg, b: Leg): Leg
    requires Merges(a, b)
  {
    if a.Moved? then Moved(Mod16(a.dist + b.dist)) else a
  }

  function Push(a: Leg, rest: seq<Leg>): seq<Leg> {
    if rest != [] && Merges(a, rest[0]) then [Merged(a, rest[0])] + rest[1..] else [a] + rest
  }

  function Join(axis: Axis, m: Msg, rest: seq<Leg>): seq<Leg> {
    Push(LegOf(axis, m), rest)
  }

  /** The motion along an axis, stretch by stretch, and what stands between the stretches. */
  function Course(axis: Axis, q: seq<Msg>): seq<Leg> {
    if q == [] then [] else Join(axis, q[0], Course(axis, q[1..]))
  }

  lemma CourseCons(axis: Axis, m: Msg, q: seq<Msg>)
    ensures Course(axis, [m] + q) == Join(axis, m, Course(axis, q))
  {
    assert ([m] + q)[1..] == q;
  }

  lemma Mod16Add(a: int, b: int)
    ensures Mod16(a + Mod16(b)) == Mod16(a + b)
  {
  }

  lemma Mod16Congruent(a: int, b: int, c: int)
    requires Congruent(a, b)
    ensures Mod16(a + c) == Mod16(b + c)
  {
    var k :| Shifted(b, k) == a;
    assert a + c == b + c + 0x1_0000 * k;
  }

  lemma MergedTwice(a: Leg, b: Leg, c: Leg)
    requires Merges(a, b) && Merges(b, c)
    ensures Merges(Merged(a, b), c) && Merges(a, Merged(b, c)) && Merged(Merged(a, b), c) == Merged(a, Merged(b, c))
  {
    if a.Moved? {
      Mod16Add(a.dist, b.dist + c.dist);
      Mod16Add(c.dist, a.dist + b.dist);
    }
  }

  lemma PushTwice(a: Leg, b: Leg, rest: seq<Leg>)
    requires Merges(a, b) && (b.Moved? || Merged(a, b) == b)
    ensures Push(a, Push(b, rest)) == Push(Merged(a, b), rest)
  {
    if rest != [] && Merges(b, rest[0]) {
      MergedTwice(a, b, rest[0]);
    }
  }

  lemma MergedLeg(axis: Axis, dest: Msg, m: Msg)
    requires Batch(dest, m).Batched?
    ensures var a, b := LegOf(axis, dest), LegOf(axis, m);
            Merges(a, b) && LegOf(axis, Batch(dest, m).dest) == Merged(a, b)
  {
    BatchFacts(dest, m);
    if LaneOf(dest) == AxisLane(axis) {
      BatchMotion(axis, dest, m);
      MotionAdds(Along(axis, dest), Along(axis, m), Along(axis, Batch(dest, m).dest));
    }
  }

  lemma MotionAdds(a: int, b: int, sum: int)
    requires Congruent(a + b, sum)
    ensures Mod16(sum) == Mod16(Mod16(a) + Mod16(b))
  {
    Mod16Congruent(a + b, sum, 0);
    Mod16Add(b, a);
    Mod16Add(Mod16(a), b);
  }

  lemma JoinMerged(axis: Axis, dest: Msg, m: Msg, rest: seq<Leg>)
    requires Batch(dest, m).Batched?
    ensures Join(axis, dest, Join(axis, m, rest)) == Join(axis, Batch(dest, m).dest, rest)
  {
    MergedLeg(axis, dest, m);
    PushTwice(LegOf(axis, dest), LegOf(axis, m), rest);
  }

  /** Beside messages of its own kind that are no relative motion, a message adds nothing. */
  lemma JoinPassed(axis: Axis, dest: Msg, m: Msg, r: Msg, tail: seq<Leg>, rest: seq<Leg>)
    requires Batch(dest, m).NotBatchable? && LaneOf(r) == LaneOf(dest)
    requires Join(axis, dest, tail) == Join(axis, r, rest)
    ensures Join(axis, dest, Join(axis, m, tail)) == Join(axis, r, Join(axis, m, rest))
  {
    BatchFacts(dest, m);
  }

  /** A drain keeps the motion in every stretch between other messages, modulo 2^16. */
  lemma {:induction false} ScanKeepsCourse(axis: Axis, dest: Msg, queue: seq<Msg>)
    ensures var (r, rest) := Scan(dest, queue);
            LaneOf(r) == LaneOf(dest) && Course(axis, [dest] + queue) == Course(axis, [r] + rest)
    decreases |queue|
  {
    var (r, rest) := Scan(dest, queue);
    if queue != [] && !Batch(dest, queue[0]).Terminate? {
      var m, tail := queue[0], queue[1..];
      BatchFacts(dest, m);
      CourseCons(axis, dest, queue);
      if Batch(dest, m).Batched? {
        var merged := Batch(dest, m).dest;
        ScanKeepsCourse(axis, merged, tail);
        CourseCons(axis, merged, tail);
        JoinMerged(axis, dest, m, Course(axis, tail));
      } else {
        var (r', rest') := Scan(dest, tail);
        ScanKeepsCourse(axis, dest, tail);
        CourseCons(axis, dest, tail);
        CourseCons(axis, r, rest');
        CourseCons(axis, m, rest');
        CourseCons(axis, r, [m] + rest');
        JoinPassed(axis, dest, m, r, Course(axis, tail), Course(axis, rest'));
      }
    }
  }

  lemma {:induction false} CoursePrefix(axis: Axis, p: seq<Msg>, a: seq<Msg>, b: seq<Msg>)
    requires Course(axis, a) == Course(axis, b)
    ensures Course(axis, p + a) == Course(axis, p + b)
  {
    if p == [] {
      assert p + a == a && p + b == b;
    } else {
      CoursePrefix(axis, p[1..], a, b);
      assert (p + a)[1..] == p[1..] + a && (p + b)[1..] == p[1..] + b;
    }
  }

  /** A leg added at the end. */
  function Extended(c: seq<Leg>, z: Leg): seq<Leg> {
    if c == [] then [z]
    else if |c| == 1 then if Merges(c[0], z) then [Merged(c[0], z)] else [c[0], z]
    else [c[0]] + Extended(c[1..], z)
  }

  /** Adding in front and adding behind do not disturb each other. */
  lemma PushExtended(a: Leg, c: seq<Leg>, z: Leg)
    ensures Push(a, Extended(c, z)) == Extended(Push(a, c), z)
  {
    var j, e := Push(a, c), Extended(c, z);
    if |c| == 1 {
      PushExtendedOne(a, c[0], z);
      assert c == [c[0]];
    } else if |c| > 1 {
      assert e[0] == c[0] && e[1..] == Extended(c[1..], z);
      if Merges(a, c[0]) {
        assert j[1..] == c[1..];
      } else {
        assert j[1..] == c;
      }
    }
  }

  lemma PushExtendedOne(a: Leg, b: Leg, z: Leg)
    ensures Push(a, Extended([b], z)) == Extended(Push(a, [b]), z)
  {
    if Merges(a, b) {
      assert Push(a, [b]) == [Merged(a, b)];
      if Merges(b, z) {
        MergedTwice(a, b, z);
      }
    } else {
      assert Push(a, [b])[1..] == [b];
    }
  }

  lemma {:induction false} CourseSnoc(axis: Axis, q: seq<Msg>, m: Msg)
    ensures Course(axis, q + [m]) == Extended(Course(axis, q), LegOf(axis, m))
  {
    if q == [] {
      assert q + [m] == [m];
      CourseCons(axis, m, []);
      assert [m] + [] == [m];
    } else {
      assert (q + [m])[1..] == q[1..] + [m];
      CourseSnoc(axis, q[1..], m);
      PushExtended(LegOf(axis, q[0]), Course(axis, q[1..]), LegOf(axis, m));
    }
  }

  // State changes of a controller's touchpad: the code compares controllers before it looks for state changes.

  predicate StateChange(m: Msg) {
    LaneOf(m).LBarrier? || (m.ControllerTouch? && m.event.Change?)
  }

  /** Everything from position `i` on is still in the queue, as it was. */
  predicate Behind(rest: seq<Msg>, queue: seq<Msg>, i: nat)
    requires i <= |queue|
  {
    |queue| - i <= |rest| && rest[|rest| - (|queue| - i)..] == queue[i..]
  }

  /** A touch move or hover does not stop the search at these. */
  predicate Passable(dest: Msg, m: Msg)
    requires dest.ControllerTouch?
  {
    && m.ControllerTouch?
    && (m.number != dest.number || (!m.event.Change? && (m.pointer != dest.pointer || m.event == dest.event)))
  }

  predicate Roams(dest: Msg) { dest.ControllerTouch? && !dest.event.Change? }

  predicate TakenAt(dest: Msg, queue: seq<Msg>, j: nat)
    requires dest.ControllerTouch? && j < |queue|
  {
    KeyOf(queue[j]) == KeyOf(dest) && forall l :: 0 <= l <= j ==> Passable(dest, queue[l])
  }

  /**
   The first message is a move or hover on a touchpad whose next report stands behind position `i`, with nothing
   to stop the search.
   */
  ghost predicate TakenPast(dest: Msg, queue: seq<Msg>, i: nat) {
    Roams(dest) && exists j :: i < j < |queue| && TakenAt(dest, queue, j)
  }

  function Others(k: Key, q: seq<Msg>): seq<Msg> {
    if q == [] then [] else (if KeyOf(q[0]) == k then [] else [q[0]]) + Others(k, q[1..])
  }

  lemma {:induction false} OthersAppend(k: Key, a: seq<Msg>, b: seq<Msg>)
    ensures Others(k, a + b) == Others(k, a) + Others(k, b)
  {
    if a == [] {
      assert a + b == b;
    } else {
      OthersAppend(k, a[1..], b);
      assert (a + b)[1..] == a[1..] + b;
      Regroup(if KeyOf(a[0]) == k then [] else [a[0]], Others(k, a[1..]), Others(k, b));
    }
  }

  function LastOf(m: Msg, q: seq<Msg>): Msg {
    if q == [] then m else q[|q| - 1]
  }

  /** The search from `dest` has to end at `m`: it neither says the same again nor may be passed. */
  predicate EndsSearch(dest: Msg, m: Msg) {
    !Superseded(dest, m) && !Passes(dest, m)
  }

  /**
   A drain takes all it can: up to the first message that ends the search, every message of the key is gone, the
   last of them is the one sent, and the others stay as they are.
   */
  lemma {:induction false} DrainTakesAll(dest: Msg, queue: seq<Msg>) returns (n: nat)
    requires KeyOf(dest) != KNone
    ensures n <= |queue| && (n < |queue| ==> EndsSearch(dest, queue[n]))
    ensures forall i :: 0 <= i < n ==> !EndsSearch(dest, queue[i])
    ensures Scan(dest, queue).0 == LastOf(dest, ForKey(KeyOf(dest), queue[..n]))
    ensures Scan(dest, queue).1 == Others(KeyOf(dest), queue[..n]) + queue[n..]
    decreases |queue|
  {
    if queue == [] || EndsSearch(dest, queue[0]) {
      n := 0;
      NothingTaken(dest, queue);
    } else if Superseded(dest, queue[0]) {
      SameSearch(dest, queue[0]);
      n := DrainTakesAll(queue[0], queue[1..]);
      OneMoreTaken(dest, queue, n);
      n := n + 1;
    } else {
      n := DrainTakesAll(dest, queue[1..]);
      OneMorePassed(dest, queue, n);
      n := n + 1;
    }
  }

  lemma NothingTaken(dest: Msg, queue: seq<Msg>)
    requires KeyOf(dest) != KNone && (queue == [] || EndsSearch(dest, queue[0]))
    ensures Scan(dest, queue) == (dest, queue)
    ensures Others(KeyOf(dest), queue[..0]) + queue[0..] == queue && ForKey(KeyOf(dest), queue[..0]) == []
  {
    if queue != [] {
      MergesIff(dest, queue[0]);
    }
  }

  lemma SameSearch(dest: Msg, m: Msg)
    requires Superseded(dest, m)
    ensures KeyOf(dest) == KeyOf(m) != KNone && forall x :: EndsSearch(m, x) <==> EndsSearch(dest, x)
  {
  }

  lemma OneMoreTaken(dest: Msg, queue: seq<Msg>, n: nat)
    requires KeyOf(dest) != KNone && queue != [] && n < |queue| && Superseded(dest, queue[0])
    ensures var k, m, tail := KeyOf(dest), queue[0], queue[1..];
            && Scan(dest, queue) == Scan(m, tail)
            && LastOf(dest, ForKey(k, queue[..n + 1])) == LastOf(m, ForKey(k, tail[..n]))
            && Others(k, queue[..n + 1]) + queue[n + 1..] == Others(k, tail[..n]) + tail[n..]
  {
    var k, m, tail := KeyOf(dest), queue[0], queue[1..];
    MergesIff(dest, m);
    BatchFacts(dest, m);
    assert queue[..n + 1] == [m] + tail[..n] && queue[n + 1..] == tail[n..];
    ForKeyCons(k, m, tail[..n]);
    assert ([m] + tail[..n])[1..] == tail[..n];
    assert [] + Others(k, tail[..n]) == Others(k, tail[..n]);
  }

  lemma OneMorePassed(dest: Msg, queue: seq<Msg>, n: nat)
    requires KeyOf(dest) != KNone && queue != [] && n < |queue| && Passes(dest, queue[0])
    ensures var k, m, tail := KeyOf(dest), queue[0], queue[1..];
            && Scan(dest, queue).0 == Scan(dest, tail).0 && Scan(dest, queue).1 == [m] + Scan(dest, tail).1
            && ForKey(k, queue[..n + 1]) == ForKey(k, tail[..n])
            && Others(k, queue[..n + 1]) + queue[n + 1..] == [m] + (Others(k, tail[..n]) + tail[n..])
  {
    var k, m, tail := KeyOf(dest), queue[0], queue[1..];
    MergesIff(dest, m);
    assert queue[..n + 1] == [m] + tail[..n] && queue[n + 1..] == tail[n..];
    ForKeyCons(k, m, tail[..n]);
    assert ([m] + tail[..n])[1..] == tail[..n];
    Regroup([m], Others(k, tail[..n]), tail[n..]);
  }

  lemma {:induction false} OthersOfNone(k: Key, q: seq<Msg>)
    requires forall m :: m in q ==> KeyOf(m) != k
    ensures Others(k, q) == q
  {
    if q != [] {
      OthersOfNone(k, q[1..]);
      assert q == [q[0]] + q[1..];
    }
  }

  lemma {:induction false} OthersHaveNone(k: Key, q: seq<Msg>)
    ensures ForKey(k, Others(k, q)) == []
  {
    if q != [] {
      OthersHaveNone(k, q[1..]);
      ForKeyCons(k, q[0], Others(k, q[1..]));
      assert KeyOf(q[0]) == k ==> [] + Others(k, q[1..]) == Others(k, q[1..]);
    }
  }

  ghost predicate Stretch(dest: Msg, queue: seq<Msg>, n: nat)
    requires Roams(dest)
  {
    && n <= |queue| && (forall l :: 0 <= l < n ==> Passable(dest, queue[l]))
    && (n < |queue| ==> !Passable(dest, queue[n]))
    && Scan(dest, queue).1 == Others(KeyOf(dest), queue[..n]) + queue[n..]
  }

  lemma PassableFacts(dest: Msg, m: Msg)
    requires Roams(dest)
    ensures Passable(dest, m) <==> !Batch(dest, m).Terminate?
    ensures Batch(dest, m).Batched? <==> Passable(dest, m) && KeyOf(m) == KeyOf(dest)
    ensures Batch(dest, m).Batched? ==> Batch(dest, m).dest == m && Roams(m)
    ensures Batch(dest, m).Batched? ==> forall x :: Passable(m, x) <==> Passable(dest, x)
  {
  }

  /** A search from a touch move takes all its touchpad's reports from the longest passable stretch. */
  lemma {:induction false} RoamingScan(dest: Msg, queue: seq<Msg>) returns (n: nat)
    requires Roams(dest)
    ensures Stretch(dest, queue, n)
    decreases |queue|
  {
    if queue == [] || !Passable(dest, queue[0]) {
      n := 0;
      if queue != [] {
        PassableFacts(dest, queue[0]);
      }
      assert queue[..0] == [] && [] + queue[0..] == queue;
    } else {
      var m, tail := queue[0], queue[1..];
      PassableFacts(dest, m);
      var next := if Batch(dest, m).Batched? then m else dest;
      n := RoamingScan(next, tail);
      assert tail[n..] == queue[n + 1..];
      assert queue[..n + 1][0] == m && queue[..n + 1][1..] == tail[..n];
      assert forall l :: 0 < l < n + 1 ==> queue[l] == tail[l - 1];
      Regroup(if KeyOf(m) == KeyOf(dest) then [] else [m], Others(KeyOf(dest), tail[..n]), tail[n..]);
      n := n + 1;
    }
  }

  lemma BehindCons(m: Msg, rest: seq<Msg>, tail: seq<Msg>, i: nat)
    requires i <= |tail| && Behind(rest, tail, i)
    ensures Behind([m] + rest, [m] + tail, i + 1) && Behind(rest, [m] + tail, i + 1)
  {
    assert ([m] + tail)[i + 1..] == tail[i..];
    var n := |tail| - i;
    assert ([m] + rest)[|rest| + 1 - n..] == rest[|rest| - n..];
  }

  lemma SettledStep(dest: Msg, m: Msg)
    requires !Roams(dest) && !Batch(dest, m).Terminate?
    ensures !StateChange(m) && (Batch(dest, m).Batched? ==> !Roams(Batch(dest, m).dest))
  {
    BatchFacts(dest, m);
  }

  /** Any other message stops at the first state change it meets. */
  lemma {:induction false} SettledScan(dest: Msg, queue: seq<Msg>, i: nat)
    requires !Roams(dest) && i < |queue| && StateChange(queue[i])
    ensures Behind(Scan(dest, queue).1, queue, i)
    decreases |queue|
  {
    if !Batch(dest, queue[0]).Terminate? {
      var m, tail := queue[0], queue[1..];
      var next := if Batch(dest, m).Batched? then Batch(dest, m).dest else dest;
      SettledStep(dest, m);
      assert queue == [m] + tail;
      SettledScan(next, tail, i - 1);
      BehindCons(m, Scan(next, tail).1, tail, i - 1);
    }
  }

  /**
   Nothing from behind a state change is merged into a message in front of it, if and only if the scan does
   not start from a touch move on one controller with a report of the same touchpad behind that change, and
   only passable messages up to there.
   */
  lemma {:induction false} BehindKeptIff(dest: Msg, queue: seq<Msg>, i: nat)
    requires i < |queue| && StateChange(queue[i])
    ensures Behind(Scan(dest, queue).1, queue, i) <==> !TakenPast(dest, queue, i)
  {
    if !Roams(dest) {
      SettledScan(dest, queue, i);
    } else {
      var n := RoamingScan(dest, queue);
      if i >= n {
        assert queue[n..][i - n..] == queue[i..];
      } else {
        TakenFromStretch(dest, queue, i, n);
      }
    }
  }

  lemma TakenFromStretch(dest: Msg, queue: seq<Msg>, i: nat, n: nat)
    requires Roams(dest) && i < n && Stretch(dest, queue, n) && StateChange(queue[i])
    ensures Behind(Scan(dest, queue).1, queue, i) <==> !TakenPast(dest, queue, i)
  {
    var k, rest, stretch := KeyOf(dest), Scan(dest, queue).1, queue[i..n];
    assert queue[i..] == stretch + queue[n..];
    if TakenPast(dest, queue, i) {
      var j :| i < j < |queue| && TakenAt(dest, queue, j);
      assert j < n && stretch[j - i] == queue[j];
      FewerOwn(k, queue[..n], stretch, j - i, queue[n..]);
      OwnBehind(k, rest, queue, i);
    } else {
      NoneTaken(dest, queue, i, n);
      assert queue[..n] == queue[..i] + stretch;
      OthersAppend(k, queue[..i], stretch);
      OthersOfNone(k, stretch);
      assert rest == Others(k, queue[..i]) + queue[i..];
    }
  }

  lemma OwnBehind(k: Key, rest: seq<Msg>, queue: seq<Msg>, i: nat)
    requires i <= |queue|
    ensures Behind(rest, queue, i) ==> |ForKey(k, rest)| >= |ForKey(k, queue[i..])|
  {
    if Behind(rest, queue, i) {
      var before := rest[..|rest| - (|queue| - i)];
      assert rest == before + queue[i..];
      ForKeyAppend(k, before, queue[i..]);
    }
  }

  lemma NoneTaken(dest: Msg, queue: seq<Msg>, i: nat, n: nat)
    requires Roams(dest) && i < n && Stretch(dest, queue, n) && StateChange(queue[i]) && !TakenPast(dest, queue, i)
    ensures forall m :: m in queue[i..n] ==> KeyOf(m) != KeyOf(dest)
  {
    var stretch := queue[i..n];
    forall m | m in stretch
      ensures KeyOf(m) != KeyOf(dest)
    {
      var l :| 0 <= l < |stretch| && stretch[l] == m;
      assert queue[i + l] == m && Passable(dest, queue[i]);
      assert l > 0 ==> !TakenAt(dest, queue, i + l);
    }
  }

  /** With a report taken from the stretch, fewer are left than stood from there on. */
  lemma FewerOwn(k: Key, whole: seq<Msg>, stretch: seq<Msg>, j: nat, tail: seq<Msg>)
    requires j < |stretch| && KeyOf(stretch[j]) == k
    ensures |ForKey(k, Others(k, whole) + tail)| < |ForKey(k, stretch + tail)|
  {
    OthersHaveNone(k, whole);
    ForKeyAppend(k, Others(k, whole), tail);
    ForKeyAppend(k, stretch, tail);
    OwnOne(k, stretch, j);
  }

  lemma {:induction false} OwnOne(k: Key, q: seq<Msg>, j: nat)
    requires j < |q| && KeyOf(q[j]) == k
    ensures |ForKey(k, q)| > 0
  {
    if j > 0 {
      OwnOne(k, q[1..], j - 1);
    }
  }

  /** A report on one controller is merged past a finger put down on another. */
  lemma ChangeOvertaken(a: int, b: int, c: int)
    ensures var dest := ControllerTouch(Move, 0, 1, a);
            var queue := [ControllerTouch(Change(1), 1, 2, b), ControllerTouch(Move, 0, 1, c)];
            && Scan(dest, queue) == (ControllerTouch(Move, 0, 1, c), [ControllerTouch(Change(1), 1, 2, b)])
            && StateChange(queue[0]) && !Behind(Scan(dest, queue).1, queue, 0)
  {
    var dest, last := ControllerTouch(Move, 0, 1, a), ControllerTouch(Move, 0, 1, c);
    var change := ControllerTouch(Change(1), 1, 2, b);
    assert [change, last][1..] == [last] && [last][1..] == [];
    assert Scan(dest, [last]) == Scan(last, []);
    assert [change] + [] == [change];
    assert Scan(dest, [change, last]) == (last, [change]);
    assert |Scan(dest, [change, last]).1| < |[change, last]| - 0;
  }
}
