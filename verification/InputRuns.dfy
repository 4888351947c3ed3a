/**
 Runs of the input queue. The control stream queues messages and then posts a drain task for each; drain
 tasks run in between, each handing one message, with what could be merged into it, to the host.
 */
module InputRuns {

  import opened InputBatch
  import opened InputOrder

  datatype Event = Enqueue(m: Msg) | Post | Drain

  /** `unposted` counts queued messages whose drain task is still to be posted. */
  datatype Link = Link(enqueued: seq<Msg>, queue: seq<Msg>, unposted: nat, tasks: nat, sent: seq<Msg>)

  const IDLE: Link := Link([], [], 0, 0, [])

  /** passthrough_next_message */
  function DrainOnce(l: Link): Link {
    if l.queue == [] then l
    else
      var (r, rest) := Scan(l.queue[0], l.queue[1..]);
      l.(queue := rest, sent := l.sent + [r])
  }

  function Apply(l: Link, e: Event): Link {
    match e
    case Enqueue(m) => l.(enqueued := l.enqueued + [m], queue := l.queue + [m], unposted := l.unposted + 1)
    case Post => if l.unposted == 0 then l else l.(unposted := l.unposted - 1, tasks := l.tasks + 1)
    case Drain => if l.tasks == 0 then l else DrainOnce(l.(tasks := l.tasks - 1))
  }

  function Run(events: seq<Event>): Link {
    if events == [] then IDLE else Apply(Run(events[..|events| - 1]), events[|events| - 1])
  }

  /**
   `after` asks of the host what `before` did. For each key: its messages, less those that a kept one right
   behind supersedes, between the same state changes, buttons and messages of other kinds, a controller's also
   between the same reports with other active controllers. For each axis of
   relative motion: the same displacement modulo 2^16 in each stretch between other messages.
   */
  ghost predicate SameMeaning(before: seq<Msg>, after: seq<Msg>) {
    && (forall k: Key :: k != KNone ==> Thinned(Superseded, ForKey(k, before), ForKey(k, after)))
    && (forall k: Key, mask: int :: k != KNone ==> Thinned(SameMark, View(k, mask, before), View(k, mask, after)))
    && (forall axis: Axis :: Course(axis, before) == Course(axis, after))
    && (forall axis: Axis :: Congruent(Total(axis, before), Total(axis, after)))
  }

  ghost predicate Inv(l: Link) {
    |l.queue| <= l.tasks + l.unposted && SameMeaning(l.enqueued, l.sent + l.queue)
  }

  lemma KeySuffix(k: Key, a: seq<Msg>, b: seq<Msg>, m: Msg)
    requires Thinned(Superseded, ForKey(k, a), ForKey(k, b))
    ensures Thinned(Superseded, ForKey(k, a + [m]), ForKey(k, b + [m]))
  {
    ForKeyAppend(k, a, [m]);
    ForKeyAppend(k, b, [m]);
    if KeyOf(m) == k {
      assert ForKey(k, [m]) == [m];
      ThinnedSuffix(Superseded, ForKey(k, a), ForKey(k, b), m);
    } else {
      assert ForKey(k, [m]) == [];
      assert ForKey(k, a) + [] == ForKey(k, a) && ForKey(k, b) + [] == ForKey(k, b);
    }
  }

  lemma ViewSuffix(k: Key, mask: int, a: seq<Msg>, b: seq<Msg>, m: Msg)
    requires k != KNone && Thinned(SameMark, View(k, mask, a), View(k, mask, b))
    ensures Thinned(SameMark, View(k, mask, a + [m]), View(k, mask, b + [m]))
  {
    ViewAppend(k, mask, a, [m]);
    ViewAppend(k, mask, b, [m]);
    if MarkFor(k, mask, m).Some? {
      assert View(k, mask, [m]) == [MarkFor(k, mask, m).value];
      ThinnedSuffix(SameMark, View(k, mask, a), View(k, mask, b), MarkFor(k, mask, m).value);
    } else {
      assert View(k, mask, [m]) == [];
      assert View(k, mask, a) + [] == View(k, mask, a) && View(k, mask, b) + [] == View(k, mask, b);
    }
  }

  lemma SameMeaningSuffix(a: seq<Msg>, b: seq<Msg>, m: Msg)
    requires SameMeaning(a, b)
    ensures SameMeaning(a + [m], b + [m])
  {
    forall k: Key | k != KNone
      ensures Thinned(Superseded, ForKey(k, a + [m]), ForKey(k, b + [m]))
    {
      KeySuffix(k, a, b, m);
    }
    forall k: Key, mask: int | k != KNone
      ensures Thinned(SameMark, View(k, mask, a + [m]), View(k, mask, b + [m]))
    {
      ViewSuffix(k, mask, a, b, m);
    }
    forall axis: Axis
      ensures Course(axis, a + [m]) == Course(axis, b + [m]) && Congruent(Total(axis, a + [m]), Total(axis, b + [m]))
    {
      CourseSnoc(axis, a, m);
      CourseSnoc(axis, b, m);
      TotalAppend(axis, a, [m]);
      TotalAppend(axis, b, [m]);
      CongruentAdd(Total(axis, a), Total(axis, b), Total(axis, [m]));
    }
  }

  /** A change at the end of a sequence, behind what was sent already. */
  lemma SameMeaningPrefix(p: seq<Msg>, a: seq<Msg>, b: seq<Msg>)
    requires SameMeaning(a, b)
    ensures SameMeaning(p + a, p + b)
  {
    forall k: Key | k != KNone
      ensures Thinned(Superseded, ForKey(k, p + a), ForKey(k, p + b))
    {
      ForKeyAppend(k, p, a);
      ForKeyAppend(k, p, b);
      ThinnedPrefix(Superseded, ForKey(k, p), ForKey(k, a), ForKey(k, b));
    }
    forall k: Key, mask: int | k != KNone
      ensures Thinned(SameMark, View(k, mask, p + a), View(k, mask, p + b))
    {
      ViewAppend(k, mask, p, a);
      ViewAppend(k, mask, p, b);
      ThinnedPrefix(SameMark, View(k, mask, p), View(k, mask, a), View(k, mask, b));
    }
    forall axis: Axis
      ensures Course(axis, p + a) == Course(axis, p + b) && Congruent(Total(axis, p + a), Total(axis, p + b))
    {
      CoursePrefix(axis, p, a, b);
      TotalAppend(axis, p, a);
      TotalAppend(axis, p, b);
      CongruentAdd(Total(axis, a), Total(axis, b), Total(axis, p));
    }
  }

  lemma SameMeaningTrans(a: seq<Msg>, b: seq<Msg>, c: seq<Msg>)
    requires SameMeaning(a, b) && SameMeaning(b, c)
    ensures SameMeaning(a, c)
  {
    RelationEquates();
    MarksEquate();
    forall k: Key | k != KNone
      ensures Thinned(Superseded, ForKey(k, a), ForKey(k, c))
    {
      ThinnedTrans(Superseded, ForKey(k, a), ForKey(k, b), ForKey(k, c));
    }
    forall k: Key, mask: int | k != KNone
      ensures Thinned(SameMark, View(k, mask, a), View(k, mask, c))
    {
      ThinnedTrans(SameMark, View(k, mask, a), View(k, mask, b), View(k, mask, c));
    }
    forall axis: Axis
      ensures Congruent(Total(axis, a), Total(axis, c))
    {
      CongruentTrans(Total(axis, a), Total(axis, b), Total(axis, c));
    }
  }

  /** One drain: the message it sends and what it leaves mean what was queued. */
  lemma ScanKeepsMeaning(dest: Msg, queue: seq<Msg>)
    ensures SameMeaning([dest] + queue, [Scan(dest, queue).0] + Scan(dest, queue).1)
  {
    var (r, rest) := Scan(dest, queue);
    forall k: Key | k != KNone
      ensures Thinned(Superseded, ForKey(k, [dest] + queue), ForKey(k, [r] + rest))
    {
      ScanKeepsKey(k, dest, queue);
    }
    forall k: Key, mask: int | k != KNone
      ensures Thinned(SameMark, View(k, mask, [dest] + queue), View(k, mask, [r] + rest))
    {
      ScanKeepsView(k, mask, dest, queue);
    }
    forall axis: Axis
      ensures Course(axis, [dest] + queue) == Course(axis, [r] + rest)
      ensures Congruent(Total(axis, [dest] + queue), Total(axis, [r] + rest))
    {
      ScanKeepsCourse(axis, dest, queue);
      ScanKeepsMotion(axis, dest, queue);
    }
  }

  lemma EnqueueKeeps(l: Link, m: Msg)
    requires Inv(l)
    ensures Inv(Apply(l, Enqueue(m)))
  {
    assert l.sent + (l.queue + [m]) == (l.sent + l.queue) + [m];
    SameMeaningSuffix(l.enqueued, l.sent + l.queue, m);
  }

  lemma DrainKeeps(l: Link)
    requires l.queue != [] && Inv(l.(tasks := l.tasks + 1))
    ensures Inv(DrainOnce(l))
  {
    var d, q := l.queue[0], l.queue[1..];
    var (r, rest) := Scan(d, q);
    assert l.queue == [d] + q;
    assert l.sent + [r] + rest == l.sent + ([r] + rest);
    ScanShrinks(d, q);
    ScanKeepsMeaning(d, q);
    SameMeaningPrefix(l.sent, l.queue, [r] + rest);
    SameMeaningTrans(l.enqueued, l.sent + l.queue, l.sent + ([r] + rest));
  }

  lemma {:induction false} ScanShrinks(dest: Msg, queue: seq<Msg>)
    ensures |Scan(dest, queue).1| <= |queue|
    decreases |queue|
  {
    if queue != [] && !Batch(dest, queue[0]).Terminate? {
      ScanShrinks(if Batch(dest, queue[0]).Batched? then Batch(dest, queue[0]).dest else dest, queue[1..]);
    }
  }

  lemma {:induction false} RunInv(events: seq<Event>)
    ensures Inv(Run(events))
  {
    if events == [] {
      NothingMeansNothing();
    } else {
      var l, e := Run(events[..|events| - 1]), events[|events| - 1];
      RunInv(events[..|events| - 1]);
      if e.Enqueue? {
        EnqueueKeeps(l, e.m);
      } else if e.Drain? && l.tasks > 0 && l.queue != [] {
        DrainKeeps(l.(tasks := l.tasks - 1));
      }
    }
  }

  lemma NothingMeansNothing()
    ensures SameMeaning([], [])
  {
    CongruentRefl(0);
  }

  /**
   Meaning is preserved. Once all drain tasks have run, everything queued has been handed on: for each
   key its messages, less those that a kept one supersedes, none of them past a state change of its device,
   a button or a message of another kind; and relative motion, modulo 2^16, stretch by stretch.
   */
  lemma {:induction false} DrainedMeansDelivered(events: seq<Event>)
    requires Run(events).tasks == 0 && Run(events).unposted == 0
    ensures Run(events).queue == [] && SameMeaning(Run(events).enqueued, Run(events).sent)
  {
    var l := Run(events);
    RunInv(events);
    assert l.queue == [] && l.sent + l.queue == l.sent;
  }

  /** The scan resumed with the cursor at i: what lies before it has been passed over for good. */
  ghost function ScanFrom(entry: Msg, queue: seq<Msg>, i: nat): (Msg, seq<Msg>)
    requires i <= |queue|
  {
    (Scan(entry, queue[i..]).0, queue[..i] + Scan(entry, queue[i..]).1)
  }

  lemma ScanFromStart(entry: Msg, queue: seq<Msg>)
    ensures ScanFrom(entry, queue, 0) == Scan(entry, queue)
  {
    assert queue[0..] == queue;
    assert queue[..0] + Scan(entry, queue).1 == Scan(entry, queue).1;
  }

  lemma ScanFromEnd(entry: Msg, queue: seq<Msg>)
    ensures ScanFrom(entry, queue, |queue|) == (entry, queue)
  {
    assert queue[|queue|..] == [];
    assert queue[..|queue|] + [] == queue;
  }

  lemma ScanFromStep(entry: Msg, queue: seq<Msg>, i: nat)
    requires i < |queue|
    ensures Batch(entry, queue[i]).Terminate? ==> ScanFrom(entry, queue, i) == (entry, queue)
    ensures Batch(entry, queue[i]).Batched? ==>
              ScanFrom(entry, queue, i) == ScanFrom(Batch(entry, queue[i]).dest, queue[..i] + queue[i + 1..], i)
    ensures Batch(entry, queue[i]).NotBatchable? ==> ScanFrom(entry, queue, i) == ScanFrom(entry, queue, i + 1)
  {
    assert queue[i..][0] == queue[i] && queue[i..][1..] == queue[i + 1..];
    var result := Batch(entry, queue[i]);
    if result.Terminate? {
      assert queue[..i] + queue[i..] == queue;
    } else if result.Batched? {
      assert (queue[..i] + queue[i + 1..])[i..] == queue[i + 1..];
      assert (queue[..i] + queue[i + 1..])[..i] == queue[..i];
    } else {
      var rest := Scan(entry, queue[i + 1..]).1;
      assert queue[..i + 1] == queue[..i] + [queue[i]];
      assert queue[..i] + ([queue[i]] + rest) == queue[..i + 1] + rest;
    }
  }

  class InputQueue {
    var inputQueue: seq<Msg>
    var unposted: nat
    var tasks: nat
    var sent: seq<Msg>
    ghost var enqueued: seq<Msg>

    ghost function View(): Link
      reads this
    {
      Link(enqueued, inputQueue, unposted, tasks, sent)
    }

    constructor ()
      ensures View() == IDLE
    {
      inputQueue, unposted, tasks, sent, enqueued := [], 0, 0, [], [];
    }

    /** passthrough, first half: the message goes into the queue. */
    method PushBack(m: Msg)
      modifies this
      ensures View() == Apply(old(View()), Enqueue(m))
    {
      inputQueue := inputQueue + [m];
      enqueued := enqueued + [m];
      unposted := unposted + 1;
    }

    /** passthrough, second half: the drain task is posted. */
    method PostTask()
      requires unposted > 0
      modifies this
      ensures View() == Apply(old(View()), Post)
    {
      unposted, tasks := unposted - 1, tasks + 1;
    }

    method RunTask()
      requires tasks > 0
      modifies this
      ensures View() == Apply(old(View()), Drain)
    {
      tasks := tasks - 1;
      PassthroughNextMessage();
    }

    method PassthroughNextMessage()
      modifies `inputQueue, `sent
      ensures View() == DrainOnce(old(View()))
    {
      if inputQueue == [] {
        return;
      }
      var entry := inputQueue[0];
      inputQueue := inputQueue[1..];
      ghost var first, queue := entry, inputQueue;
      var i := 0;
      ScanFromStart(entry, inputQueue);
      while i < |inputQueue|
        invariant 0 <= i <= |inputQueue|
        invariant sent == old(sent)
        invariant Scan(first, queue) == ScanFrom(entry, inputQueue, i)
        decreases |inputQueue| - i
      {
        var result := Batch(entry, inputQueue[i]);
        ScanFromStep(entry, inputQueue, i);
        if result.Terminate? {
          break;
        } else if result.Batched? {
          entry := result.dest;
          inputQueue := inputQueue[..i] + inputQueue[i + 1..];
        } else {
          i := i + 1;
        }
      }
      if i == |inputQueue| {
        ScanFromEnd(entry, inputQueue);
      }
      assert Scan(first, queue) == (entry, inputQueue);
      sent := sent + [entry];
    }
  }
}
