/**
 The input queue. Messages from the client wait in a queue; a drain task takes the first one, merges
 later ones into it where that loses nothing, and passes the result to the operating system.
 */
module InputBatch {

  type Int16 = x: int | -0x8000 <= x < 0x8000

  /** Touch and pen events: moves and hovers report a position, all others change the pointer's state. */
  datatype TouchEvent = Move | Hover | Change(code: nat)

  /** The fields that decide about merging; `data` stands for the rest of the packet. */
  datatype Msg =
    | RelMouse(dx: Int16, dy: Int16)
    | AbsMouse(width: int, height: int, data: int)
    | Scroll(amount: Int16)
    | HScroll(amount: Int16)
    | Controller(number: int, mask: int, buttons: int, buttons2: int, data: int)
    | Touch(event: TouchEvent, pointer: int, data: int)
    | Pen(event: TouchEvent, tool: int, buttons: int, data: int)
    | ControllerTouch(event: TouchEvent, number: int, pointer: int, data: int)
    | ControllerMotion(number: int, sensor: int, data: int)
    | Other(magic: nat, data: int)

  datatype BatchResult = Batched(dest: Msg) | NotBatchable | Terminate

  predicate Fits16(n: int) { -0x8000 <= n < 0x8000 }

  /** The 16-bit result of an addition, whether or not it overflowed. */
  function Wrap16(n: int): Int16 {
    (n + 0x8000) % 0x1_0000 - 0x8000
  }

  /** The guard of relative moves and scrolls stops unless the addition overflows. */
  function BatchRel(dest: Msg, src: Msg): BatchResult
    requires dest.RelMouse? && src.RelMouse?
  {
    if Fits16(dest.dx + src.dx) || Fits16(dest.dy + src.dy) then Terminate
    else Batched(RelMouse(Wrap16(dest.dx + src.dx), Wrap16(dest.dy + src.dy)))
  }

  function BatchController(dest: Msg, src: Msg): BatchResult
    requires dest.Controller? && src.Controller?
  {
    if dest.mask != src.mask then Terminate
    else if dest.number != src.number then NotBatchable
    else if dest.buttons != src.buttons || dest.buttons2 != src.buttons2 then Terminate
    else Batched(src)
  }

  function BatchTouch(dest: Msg, src: Msg): BatchResult
    requires dest.Touch? && src.Touch?
  {
    if dest.event.Change? then Terminate
    else if src.event.Change? then Terminate
    else if dest.pointer != src.pointer then NotBatchable
    else if dest.event != src.event then Terminate
    else Batched(src)
  }

  function BatchPen(dest: Msg, src: Msg): BatchResult
    requires dest.Pen? && src.Pen?
  {
    if dest.event.Change? then Terminate
    else if dest.event != src.event then Terminate
    else if dest.buttons != src.buttons then Terminate
    else if dest.tool != src.tool then Terminate
    else Batched(src)
  }

  function BatchControllerTouch(dest: Msg, src: Msg): BatchResult
    requires dest.ControllerTouch? && src.ControllerTouch?
  {
    if dest.event.Change? then Terminate
    else if dest.number != src.number then NotBatchable
    else if src.event.Change? then Terminate
    else if dest.pointer != src.pointer then NotBatchable
    else if dest.event != src.event then Terminate
    else Batched(src)
  }

  function Batch(dest: Msg, src: Msg): BatchResult {
    match (dest, src)
    case (RelMouse(_, _), RelMouse(_, _)) => BatchRel(dest, src)
    case (AbsMouse(w, h, _), AbsMouse(w', h', _)) => if w != w' || h != h' then Terminate else Batched(src)
    case (Scroll(a), Scroll(b)) => if Fits16(a + b) then Terminate else Batched(Scroll(Wrap16(a + b)))
    case (HScroll(a), HScroll(b)) => if Fits16(a + b) then Terminate else Batched(HScroll(Wrap16(a + b)))
    case (Controller(_, _, _, _, _), Controller(_, _, _, _, _)) => BatchController(dest, src)
    case (Touch(_, _, _), Touch(_, _, _)) => BatchTouch(dest, src)
    case (Pen(_, _, _, _), Pen(_, _, _, _)) => BatchPen(dest, src)
    case (ControllerTouch(_, _, _, _), ControllerTouch(_, _, _, _)) => BatchControllerTouch(dest, src)
    case (ControllerMotion(n, s, _), ControllerMotion(n', s', _)) =>
      if n != n' || s != s' then NotBatchable else Batched(src)
    case (_, _) => Terminate
  }

  /** Merging into `dest` from a queue: the merged message, and what stays in the queue. */
  function Scan(dest: Msg, queue: seq<Msg>): (Msg, seq<Msg>)
    decreases |queue|
  {
    if queue == [] then (dest, [])
    else
      match Batch(dest, queue[0])
      case Terminate => (dest, queue)
      case Batched(merged) => Scan(merged, queue[1..])
      case NotBatchable =>
        var (r, rest) := Scan(dest, queue[1..]);
        (r, [queue[0]] + rest)
  }

  // What the client means: for each device or pointer, the latest state counts.

  datatype Key = KAbsMouse | KController(number: int) | KTouch(pointer: int) | KPen
               | KControllerTouch(number: int, pointer: int) | KMotion(number: int, sensor: int) | KNone

  function KeyOf(m: Msg): Key {
    match m
    case AbsMouse(_, _, _) => KAbsMouse
    case Controller(n, _, _, _, _) => KController(n)
    case Touch(_, p, _) => KTouch(p)
    case Pen(_, _, _, _) => KPen
    case ControllerTouch(_, n, p, _) => KControllerTouch(n, p)
    case ControllerMotion(n, s, _) => KMotion(n, s)
    case _ => KNone
  }

  /** `a` says nothing that a following `b` does not say again: same key, and same mode, buttons or event. */
  predicate Superseded(a: Msg, b: Msg) {
    match (a, b)
    case (AbsMouse(w, h, _), AbsMouse(w', h', _)) => w == w' && h == h'
    case (Controller(n, m, x, y, _), Controller(n', m', x', y', _)) => n == n' && m == m' && x == x' && y == y'
    case (Touch(e, p, _), Touch(e', p', _)) => p == p' && e == e' && !e.Change?
    case (Pen(e, t, b, _), Pen(e', t', b', _)) => e == e' && t == t' && b == b' && !e.Change?
    case (ControllerTouch(e, n, p, _), ControllerTouch(e', n', p', _)) => n == n' && p == p' && e == e' && !e.Change?
    case (ControllerMotion(n, s, _), ControllerMotion(n', s', _)) => n == n' && s == s'
    case (_, _) => false
  }

  /** `b` is `a` without some elements, each of which stood right before one that says the same again. */
  predicate Thinned<T(==)>(same: (T, T) -> bool, a: seq<T>, b: seq<T>) {
    if a == [] then b == []
    else
      (b != [] && b[0] == a[0] && Thinned(same, a[1..], b[1..]))
      || (|a| > 1 && same(a[0], a[1]) && Thinned(same, a[1..], b))
  }

  function ForKey(k: Key, q: seq<Msg>): seq<Msg> {
    if q == [] then [] else (if KeyOf(q[0]) == k then [q[0]] else []) + ForKey(k, q[1..])
  }

  /** Kinds of messages; a barrier stands for one message that is never merged and that no message passes. */
  datatype Lane = LRel | LAbs | LScroll | LHScroll | LController | LTouch | LPen | LControllerTouch | LMotion
      | LBarrier(m: Msg)

  function LaneOf(m: Msg): Lane {
    match m
    case RelMouse(_, _) => LRel
    case AbsMouse(_, _, _) => LAbs
    case Scroll(_) => LScroll
    case HScroll(_) => LHScroll
    case Controller(_, _, _, _, _) => LController
    case Touch(e, _, _) => if e.Change? then LBarrier(m) else LTouch
    case Pen(e, _, _, _) => if e.Change? then LBarrier(m) else LPen
    case ControllerTouch(_, _, _, _) => LControllerTouch
    case ControllerMotion(_, _, _) => LMotion
    case Other(_, _) => LBarrier(m)
  }

  predicate SameLane(a: Lane, b: Lane) {
    a == b && !a.LBarrier?
  }

  /** A message that a search for reports like `a` goes past: another pointer or device of the kind, nothing changed. */
  predicate Passes(a: Msg, b: Msg) {
    && SameLane(LaneOf(a), LaneOf(b)) && KeyOf(a) != KeyOf(b)
    && (a.Controller? && b.Controller? ==> a.mask == b.mask)
    && (a.ControllerTouch? && b.ControllerTouch? ==>
          !a.event.Change? && (a.number == b.number ==> !b.event.Change?))
  }

  /** Keyed messages merge exactly when the second says the same again, and are passed exactly as said above. */
  lemma MergesIff(a: Msg, b: Msg)
    requires KeyOf(a) != KNone
    ensures Batch(a, b).Batched? <==> Superseded(a, b)
    ensures Batch(a, b).NotBatchable? <==> Passes(a, b)
  {
  }

  /** Of two reports that differ only in what they report, the second replaces the first. */
  lemma LatestWins(a: int, b: int, x: int, y: int, n: int, m: int)
    ensures Batch(AbsMouse(x, y, a), AbsMouse(x, y, b)) == Batched(AbsMouse(x, y, b))
    ensures Batch(Controller(n, m, x, y, a), Controller(n, m, x, y, b)) == Batched(Controller(n, m, x, y, b))
    ensures Batch(Touch(Move, n, a), Touch(Move, n, b)) == Batched(Touch(Move, n, b))
    ensures Batch(Touch(Hover, n, a), Touch(Hover, n, b)) == Batched(Touch(Hover, n, b))
    ensures Batch(Pen(Move, n, x, a), Pen(Move, n, x, b)) == Batched(Pen(Move, n, x, b))
    ensures Batch(Pen(Hover, n, x, a), Pen(Hover, n, x, b)) == Batched(Pen(Hover, n, x, b))
    ensures Batch(ControllerTouch(Move, n, m, a), ControllerTouch(Move, n, m, b))
            == Batched(ControllerTouch(Move, n, m, b))
    ensures Batch(ControllerTouch(Hover, n, m, a), ControllerTouch(Hover, n, m, b))
            == Batched(ControllerTouch(Hover, n, m, b))
    ensures Batch(ControllerMotion(n, x, a), ControllerMotion(n, x, b)) == Batched(ControllerMotion(n, x, b))
  {
  }

  /** Scrolls merge exactly when the sum overflows, and nothing is passed in search of one. */
  lemma ScrollsMergeIff(a: Int16, b: Int16)
    ensures Batch(Scroll(a), Scroll(b)).Batched? <==> !(-32768 <= a + b <= 32767)
    ensures Batch(HScroll(a), HScroll(b)).Batched? <==> !(-32768 <= a + b <= 32767)
    ensures !Batch(Scroll(a), Scroll(b)).NotBatchable? && !Batch(HScroll(a), HScroll(b)).NotBatchable?
  {
  }

  /** What merging two messages relies on. */
  lemma BatchFacts(dest: Msg, src: Msg)
    ensures Batch(dest, src) != Terminate ==> SameLane(LaneOf(dest), LaneOf(src))
    ensures Batch(dest, src).NotBatchable? ==> KeyOf(dest) != KeyOf(src) && KeyOf(dest) != KNone && KeyOf(src) != KNone
    ensures Batch(dest, src).Batched? ==>
              var merged := Batch(dest, src).dest;
              LaneOf(merged) == LaneOf(dest) && KeyOf(merged) == KeyOf(dest) == KeyOf(src)
              && (KeyOf(dest) != KNone ==> merged == src && Superseded(dest, src))
  {
  }

  // Thinning.

  lemma {:induction false} ThinnedRefl<T>(same: (T, T) -> bool, a: seq<T>)
    ensures Thinned(same, a, a)
  {
    if a != [] {
      ThinnedRefl(same, a[1..]);
    }
  }

  lemma {:induction false} ThinnedPrefix<T>(same: (T, T) -> bool, p: seq<T>, a: seq<T>, b: seq<T>)
    requires Thinned(same, a, b)
    ensures Thinned(same, p + a, p + b)
  {
    if p == [] {
      assert p + a == a && p + b == b;
    } else {
      ThinnedPrefix(same, p[1..], a, b);
      assert (p + a)[1..] == p[1..] + a && (p + b)[1..] == p[1..] + b;
    }
  }

  lemma {:induction false} ThinnedSuffix<T>(same: (T, T) -> bool, a: seq<T>, b: seq<T>, x: T)
    requires Thinned(same, a, b)
    ensures Thinned(same, a + [x], b + [x])
  {
    if a == [] {
      ThinnedRefl(same, [x]);
      assert a + [x] == [x] == b + [x];
    } else {
      assert (a + [x])[1..] == a[1..] + [x];
      if b != [] && b[0] == a[0] && Thinned(same, a[1..], b[1..]) {
        ThinnedSuffix(same, a[1..], b[1..], x);
        assert (b + [x])[1..] == b[1..] + [x];
      } else {
        ThinnedSuffix(same, a[1..], b, x);
      }
    }
  }

  /** The first element of a thinned sequence stands at the end of a chain of elements that say the same. */
  lemma {:induction false} ThinnedTrans<T(!new)>(same: (T, T) -> bool, a: seq<T>, b: seq<T>, c: seq<T>)
    requires Equating(same)
    requires Thinned(same, a, b) && Thinned(same, b, c)
    ensures Thinned(same, a, c)
    decreases |a|
  {
    if a != [] {
      if b != [] && b[0] == a[0] && Thinned(same, a[1..], b[1..]) {
        if c != [] && c[0] == b[0] && Thinned(same, b[1..], c[1..]) {
          ThinnedTrans(same, a[1..], b[1..], c[1..]);
        } else {
          ThinnedTrans(same, a[1..], b[1..], c);
          SameAsNext(same, a[0], a[1..], b[1..]);
        }
      } else {
        ThinnedTrans(same, a[1..], b, c);
      }
    }
  }

  /** Where it holds at all, the relation behaves like an equality. */
  ghost predicate Equating<T(!new)>(same: (T, T) -> bool) {
    forall x, y, z :: same(x, z) && same(y, z) ==> same(x, y)
  }

  lemma {:induction false} SameAsNext<T(!new)>(same: (T, T) -> bool, x: T, a: seq<T>, b: seq<T>)
    requires Equating(same)
    requires Thinned(same, a, b) && b != [] && same(x, b[0])
    ensures a != [] && same(x, a[0])
    decreases |a|
  {
    if !(b[0] == a[0] && Thinned(same, a[1..], b[1..])) {
      SameAsNext(same, x, a[1..], b);
      assert same(x, a[1]) && same(a[0], a[1]);
    }
  }

  lemma RelationEquates()
    ensures Equating(Superseded)
  {
  }

  /**
   Every element of the original is followed, through elements that say the same again, by one that was kept;
   the last is kept.
   */
  lemma {:induction false} ThinnedAnswers<T>(same: (T, T) -> bool, a: seq<T>, b: seq<T>, i: nat)
    returns (j: nat, n: nat)
    requires Thinned(same, a, b) && i < |a|
    ensures i <= j < |a| && n < |b| && b[n] == a[j]
    ensures forall l :: i <= l < j ==> same(a[l], a[l + 1])
    ensures b != [] && b[|b| - 1] == a[|a| - 1]
    decreases |a|
  {
    var kept := b != [] && b[0] == a[0] && Thinned(same, a[1..], b[1..]);
    if |a| == 1 {
      j, n := 0, 0;
      assert a[1..] == [];
    } else {
      var rest := if kept then b[1..] else b;
      var j', n' := ThinnedAnswers(same, a[1..], rest, if i == 0 then 0 else i - 1);
      assert a[1..][|a[1..]| - 1] == a[|a| - 1] && rest[|rest| - 1] == b[|b| - 1];
      if kept && i == 0 {
        j, n := 0, 0;
      } else {
        j, n := j' + 1, if kept then n' + 1 else n';
        forall l | i <= l < j
          ensures same(a[l], a[l + 1])
        {
          if l > 0 {
            assert a[1..][l - 1] == a[l] && a[1..][l] == a[l + 1];
          }
        }
      }
    }
  }

  // One drain.

  lemma ForKeyCons(k: Key, m: Msg, q: seq<Msg>)
    ensures ForKey(k, [m] + q) == if KeyOf(m) == k then [m] + ForKey(k, q) else ForKey(k, q)
  {
    assert ([m] + q)[1..] == q;
  }

  lemma Regroup<T>(a: seq<T>, b: seq<T>, c: seq<T>)
    ensures a + (b + c) == (a + b) + c && [] + b == b
  {
  }

  lemma {:induction false} ForKeyAppend(k: Key, a: seq<Msg>, b: seq<Msg>)
    ensures ForKey(k, a + b) == ForKey(k, a) + ForKey(k, b)
  {
    if a == [] {
      assert a + b == b;
    } else {
      ForKeyAppend(k, a[1..], b);
      assert a + b == [a[0]] + (a[1..] + b);
      ForKeyCons(k, a[0], a[1..] + b);
      Regroup(if KeyOf(a[0]) == k then [a[0]] else [], ForKey(k, a[1..]), ForKey(k, b));
    }
  }

  lemma Drop<T>(same: (T, T) -> bool, x: T, y: T, a: seq<T>, b: seq<T>)
    requires same(x, y) && Thinned(same, [y] + a, b)
    ensures Thinned(same, [x] + ([y] + a), b)
  {
    assert ([x] + ([y] + a))[1..] == [y] + a;
  }

  lemma Keep<T>(same: (T, T) -> bool, x: T, a: seq<T>, b: seq<T>)
    requires Thinned(same, a, b)
    ensures Thinned(same, [x] + a, [x] + b)
  {
    ThinnedPrefix(same, [x], a, b);
  }

  lemma {:induction false} ScanKeepsKey(k: Key, dest: Msg, queue: seq<Msg>)
    requires k != KNone
    ensures var (r, rest) := Scan(dest, queue);
            KeyOf(r) == KeyOf(dest) && Thinned(Superseded, ForKey(k, [dest] + queue), ForKey(k, [r] + rest))
    decreases |queue|
  {
    var (r, rest) := Scan(dest, queue);
    if queue == [] || Batch(dest, queue[0]).Terminate? {
      ThinnedRefl(Superseded, ForKey(k, [dest] + queue));
    } else {
      var m, tail := queue[0], queue[1..];
      assert queue == [m] + tail;
      BatchFacts(dest, m);
      ForKeyCons(k, dest, queue);
      ForKeyCons(k, m, tail);
      if Batch(dest, m).Batched? {
        ScanKeepsKey(k, Batch(dest, m).dest, tail);
        ForKeyCons(k, Batch(dest, m).dest, tail);
        if KeyOf(dest) == k {
          Drop(Superseded, dest, m, ForKey(k, tail), ForKey(k, [r] + rest));
        }
      } else {
        var (r', rest') := Scan(dest, tail);
        ScanKeepsKey(k, dest, tail);
        ForKeyCons(k, dest, tail);
        ForKeyCons(k, r, rest');
        ForKeyCons(k, m, rest');
        ForKeyCons(k, r, [m] + rest');
        if KeyOf(m) == k {
          Keep(Superseded, m, ForKey(k, tail), ForKey(k, rest'));
        }
      }
    }
  }

  // Relative motion: merged only when the sum overflows, and then wrapped.

  /** A merge of relative moves always changes the total displacement, by 65536 on either axis. */
  lemma RelativeMergeLosesMotion(a: Msg, b: Msg)
    requires a.RelMouse? && b.RelMouse?
    ensures Batch(a, b).Batched? <==> !Fits16(a.dx + b.dx) && !Fits16(a.dy + b.dy)
    ensures Batch(a, b).Batched? ==>
              var m := Batch(a, b).dest;
              (m.dx == a.dx + b.dx - 0x1_0000 || m.dx == a.dx + b.dx + 0x1_0000)
              && (m.dy == a.dy + b.dy - 0x1_0000 || m.dy == a.dy + b.dy + 0x1_0000)
  {
  }

  /** Two moves right and down by 20000 become one move left and up by 25536; by 20 each they stay apart. */
  lemma RelativeMergeExample()
    ensures Batch(RelMouse(20000, 20000), RelMouse(20000, 20000)) == Batched(RelMouse(-25536, -25536))
    ensures Batch(RelMouse(20, 20), RelMouse(20, 20)) == Terminate
  {
  }

  /** Displacement and scrolling along each axis that a queue asks for. */
  datatype Axis = MouseX | MouseY | Vertical | Horizontal

  function Along(axis: Axis, m: Msg): int {
    match m
    case RelMouse(dx, dy) => if axis.MouseX? then dx else if axis.MouseY? then dy else 0
    case Scroll(a) => if axis.Vertical? then a else 0
    case HScroll(a) => if axis.Horizontal? then a else 0
    case _ => 0
  }

  function Total(axis: Axis, q: seq<Msg>): int {
    if q == [] then 0 else Along(axis, q[0]) + Total(axis, q[1..])
  }

  /** `a` and `b` differ by a multiple of 2^16. */
  ghost predicate Congruent(a: int, b: int) {
    exists k: int :: Shifted(b, k) == a
  }

  function Shifted(b: int, k: int): int { b + 0x1_0000 * k }

  lemma CongruentTrans(a: int, b: int, c: int)
    requires Congruent(a, b) && Congruent(b, c)
    ensures Congruent(a, c)
  {
    var k :| Shifted(b, k) == a;
    var l :| Shifted(c, l) == b;
    assert Shifted(c, k + l) == a;
  }

  lemma CongruentAdd(a: int, b: int, c: int)
    requires Congruent(a, b)
    ensures Congruent(a + c, b + c) && Congruent(c + a, c + b)
  {
    var k :| Shifted(b, k) == a;
    assert Shifted(b + c, k) == a + c;
  }

  lemma CongruentRefl(a: int)
    ensures Congruent(a, a)
  {
    assert Shifted(a, 0) == a;
  }

  lemma Wrap16Congruent(n: int)
    ensures Congruent(n, Wrap16(n))
  {
    assert Shifted(Wrap16(n), (n + 0x8000) / 0x1_0000) == n;
  }

  lemma BatchMotion(axis: Axis, dest: Msg, src: Msg)
    requires Batch(dest, src).Batched?
    ensures Congruent(Along(axis, dest) + Along(axis, src), Along(axis, Batch(dest, src).dest))
  {
    var sum := Along(axis, dest) + Along(axis, src);
    BatchFacts(dest, src);
    CongruentRefl(0);
    Wrap16Congruent(sum);
  }

  lemma TotalCons(axis: Axis, m: Msg, q: seq<Msg>)
    ensures Total(axis, [m] + q) == Along(axis, m) + Total(axis, q)
  {
    assert ([m] + q)[1..] == q;
  }

  lemma {:induction false} ScanKeepsMotion(axis: Axis, dest: Msg, queue: seq<Msg>)
    ensures var (r, rest) := Scan(dest, queue);
            Congruent(Total(axis, [dest] + queue), Total(axis, [r] + rest))
    decreases |queue|
  {
    var (r, rest) := Scan(dest, queue);
    if queue == [] || Batch(dest, queue[0]).Terminate? {
      CongruentRefl(Total(axis, [dest] + queue));
    } else {
      var m, tail := queue[0], queue[1..];
      TotalCons(axis, dest, queue);
      if Batch(dest, m).Batched? {
        var merged := Batch(dest, m).dest;
        BatchMotion(axis, dest, m);
        ScanKeepsMotion(axis, merged, tail);
        TotalCons(axis, merged, tail);
        CongruentAdd(Along(axis, dest) + Along(axis, m), Along(axis, merged), Total(axis, tail));
        CongruentTrans(Total(axis, [dest] + queue), Total(axis, [merged] + tail), Total(axis, [r] + rest));
      } else {
        var (r', rest') := Scan(dest, tail);
        ScanKeepsMotion(axis, dest, tail);
        TotalCons(axis, dest, tail);
        TotalCons(axis, r, rest');
        TotalCons(axis, r, rest);
        TotalCons(axis, m, rest');
        CongruentAdd(Along(axis, dest) + Total(axis, tail), Along(axis, r) + Total(axis, rest'), Along(axis, m));
      }
    }
  }

  lemma {:induction false} TotalAppend(axis: Axis, a: seq<Msg>, b: seq<Msg>)
    ensures Total(axis, a + b) == Total(axis, a) + Total(axis, b)
  {
    if a == [] {
      assert a + b == b;
    } else {
      TotalAppend(axis, a[1..], b);
      assert (a + b)[1..] == a[1..] + b;
    }
  }
}
