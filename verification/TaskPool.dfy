/**
 The task pool: a queue of immediate tasks, and timers kept in a vector with the latest due time first,
 so that the next timer to run is the last element.
 */
module TaskPool {

  import opened Wrappers
  import opened Slices

  /** Identifies a queued task; the code uses its address. */
  type Task = nat

  datatype Timer = Timer(due: int, task: Task)

  /** The queues, and what has gone through them so far. */
  datatype Pool = Pool(tasks: seq<Task>, timers: seq<Timer>,
                       pushed: seq<Task>, ran: seq<Task>,
                       timersPushed: multiset<Task>, timersRan: multiset<Task>, timersCancelled: multiset<Task>)
  {
    function Push(task: Task): Pool {
      this.(tasks := tasks + [task], pushed := pushed + [task])
    }

    function PushDelayed(task: Task, due: int): Pool {
      this.(timers := Inserted(timers, Timer(due, task)), timersPushed := timersPushed + multiset{task})
    }

    function Delay(task: Task, due: int): Pool {
      this.(timers := Delayed(timers, task, due))
    }

    function Cancel(task: Task): (Pool, bool) {
      var i := Find(timers, task);
      if i == |timers| then (this, false)
      else (this.(timers := timers[..i] + timers[i + 1..], timersCancelled := timersCancelled + multiset{task}), true)
    }

    function Next(): Option<int> {
      if timers == [] then None else Some(timers[|timers| - 1].due)
    }

    predicate Ready(now: int) {
      tasks != [] || (timers != [] && timers[|timers| - 1].due <= now)
    }

    /** An immediate task if there is one, else the last timer if it is due. */
    function Pop(now: int): (Pool, Option<Task>) {
      if tasks != [] then
        (this.(tasks := tasks[1..], ran := ran + [tasks[0]]), Some(tasks[0]))
      else if timers != [] && timers[|timers| - 1].due <= now then
        var last := |timers| - 1;
        (this.(timers := timers[..last], timersRan := timersRan + multiset{timers[last].task}), Some(timers[last].task))
      else (this, None)
    }
  }

  const EMPTY: Pool := Pool([], [], [], [], multiset{}, multiset{}, multiset{})

  ghost predicate Sorted(timers: seq<Timer>) {
    forall i, j :: 0 <= i < j < |timers| ==> timers[i].due >= timers[j].due
  }

  function TasksOf(timers: seq<Timer>): (m: multiset<Task>) {
    if timers == [] then multiset{} else TasksOf(timers[..|timers| - 1]) + multiset{timers[|timers| - 1].task}
  }

  /** Nothing is lost or duplicated, and immediate tasks run in the order they were pushed. */
  ghost predicate Conserved(p: Pool) {
    && p.pushed == p.ran + p.tasks
    && p.timersPushed == p.timersRan + p.timersCancelled + TasksOf(p.timers)
  }

  lemma {:induction false} TasksOfAppend(a: seq<Timer>, b: seq<Timer>)
    ensures TasksOf(a + b) == TasksOf(a) + TasksOf(b)
  {
    if b == [] {
      assert a + b == a;
    } else {
      assert (a + b)[..|a + b| - 1] == a + b[..|b| - 1];
      TasksOfAppend(a, b[..|b| - 1]);
    }
  }

  lemma TasksOfOne(t: Timer)
    ensures TasksOf([t]) == multiset{t.task}
  {
    assert [t][..0] == [];
  }

  /** Three parts around position `i`. */
  lemma TasksOfParts(a: seq<Timer>, t: Timer, b: seq<Timer>)
    ensures TasksOf(a + [t] + b) == TasksOf(a) + TasksOf(b) + multiset{t.task}
  {
    TasksOfAppend(a + [t], b);
    TasksOfAppend(a, [t]);
    TasksOfOne(t);
  }

  lemma TasksOfSplit(timers: seq<Timer>, a: seq<Timer>, t: Timer, b: seq<Timer>)
    requires timers == a + [t] + b
    ensures TasksOf(timers) == TasksOf(a) + TasksOf(b) + multiset{t.task}
  {
    TasksOfParts(a, t, b);
  }

  lemma TasksOfJoin(timers: seq<Timer>, a: seq<Timer>, b: seq<Timer>)
    requires timers == a + b
    ensures TasksOf(timers) == TasksOf(a) + TasksOf(b)
  {
    TasksOfAppend(a, b);
  }

  // Operations on the timers.

  /** Where a timer goes: in front of the first one that is due strictly earlier. */
  function InsertAt(timers: seq<Timer>, due: int): (i: nat)
    ensures i <= |timers|
  {
    if timers == [] || timers[0].due < due then 0 else 1 + InsertAt(timers[1..], due)
  }

  function Inserted(timers: seq<Timer>, t: Timer): seq<Timer> {
    var i := InsertAt(timers, t.due);
    timers[..i] + [t] + timers[i..]
  }

  lemma {:induction false} InsertPosition(timers: seq<Timer>, due: int)
    ensures var i := InsertAt(timers, due);
            (forall j :: 0 <= j < i ==> timers[j].due >= due) && (i < |timers| ==> timers[i].due < due)
  {
    if !(timers == [] || timers[0].due < due) {
      InsertPosition(timers[1..], due);
      var i := InsertAt(timers[1..], due);
      forall j | 0 <= j < i + 1
        ensures timers[j].due >= due
      {
        if j > 0 {
          assert timers[j] == timers[1..][j - 1];
        }
      }
    }
  }

  /** The position is the only one with a timer due strictly earlier right behind it and none before it. */
  lemma {:induction false} InsertAtIs(timers: seq<Timer>, due: int, i: nat)
    requires i <= |timers| && (forall j :: 0 <= j < i ==> timers[j].due >= due)
             && (i < |timers| ==> timers[i].due < due)
    ensures InsertAt(timers, due) == i
  {
    InsertPosition(timers, due);
  }

  lemma InsertKeepsOrder(timers: seq<Timer>, t: Timer)
    requires Sorted(timers)
    ensures Sorted(Inserted(timers, t))
  {
    InsertPosition(timers, t.due);
  }

  lemma InsertKeepsTasks(timers: seq<Timer>, a: seq<Timer>, t: Timer, b: seq<Timer>)
    requires timers == a + b
    ensures TasksOf(a + [t] + b) == TasksOf(timers) + multiset{t.task}
  {
    TasksOfParts(a, t, b);
    TasksOfJoin(timers, a, b);
  }

  /** The first timer of a task, or the number of timers if there is none. */
  function Find(timers: seq<Timer>, task: Task): (i: nat)
    ensures i <= |timers| && (i < |timers| ==> timers[i].task == task)
    ensures forall j :: 0 <= j < i ==> timers[j].task != task
  {
    if timers == [] || timers[0].task == task then 0
    else
      var i := Find(timers[1..], task);
      assert forall j :: 0 < j < 1 + i ==> timers[j] == timers[1..][j - 1];
      1 + i
  }

  lemma {:induction false} FindIs(timers: seq<Timer>, task: Task, i: nat)
    requires i <= |timers| && (i < |timers| ==> timers[i].task == task)
             && forall j :: 0 <= j < i ==> timers[j].task != task
    ensures Find(timers, task) == i
  {
  }

  /** The reordering loop of `delay`, from position `i` to the front. */
  function Bubbled(timers: seq<Timer>, i: nat): seq<Timer>
    requires i < |timers|
    decreases i
  {
    if i == 0 then timers
    else if timers[i].due > timers[i - 1].due then Bubbled(timers[i := timers[i - 1]][i - 1 := timers[i]], i - 1)
    else Bubbled(timers, i - 1)
  }

  function Delayed(timers: seq<Timer>, task: Task, due: int): seq<Timer> {
    var i := Find(timers, task);
    if i == |timers| then timers else Bubbled(timers[i := Timer(due, task)], i)
  }

  /** A delay keeps the order exactly when the timer does not become due before its successor. */
  ghost predicate DelayInOrder(timers: seq<Timer>, task: Task, due: int) {
    var i := Find(timers, task);
    i + 1 < |timers| ==> due >= timers[i + 1].due
  }

  lemma {:induction false} BubbleTail(timers: seq<Timer>, i: nat)
    requires i < |timers|
    ensures |Bubbled(timers, i)| == |timers| && Bubbled(timers, i)[i + 1..] == timers[i + 1..]
    ensures TasksOf(Bubbled(timers, i)) == TasksOf(timers)
    ensures i > 0 && timers[i].due > timers[i - 1].due ==> Bubbled(timers, i)[i] == timers[i - 1]
    decreases i
  {
    if i > 0 {
      var next := if timers[i].due > timers[i - 1].due then timers[i := timers[i - 1]][i - 1 := timers[i]] else timers;
      BubbleTail(next, i - 1);
      assert Bubbled(timers, i)[i..] == next[i..];
      SliceOfDrop(Bubbled(timers, i), i, 1, 1);
      SliceOfDrop(next, i, 1, 1);
      assert Bubbled(timers, i)[i] == Bubbled(timers, i)[i..][0] == next[i..][0] == next[i];
      SwapKeepsTasks(timers, i);
    }
  }

  lemma SwapKeepsTasks(timers: seq<Timer>, i: nat)
    requires 0 < i < |timers|
    ensures TasksOf(timers[i := timers[i - 1]][i - 1 := timers[i]]) == TasksOf(timers)
  {
    var a, b := timers[..i - 1], timers[i + 1..];
    var x, y := timers[i - 1], timers[i];
    assert timers == a + [x] + [y] + b;
    assert timers[i := x][i - 1 := y] == a + [y] + [x] + b;
    TasksOfPair(a, x, y, b);
    TasksOfPair(a, y, x, b);
  }

  lemma TasksOfPair(a: seq<Timer>, x: Timer, y: Timer, b: seq<Timer>)
    ensures TasksOf(a + [x] + [y] + b) == TasksOf(a) + TasksOf(b) + multiset{x.task, y.task}
  {
    TasksOfParts(a + [x], y, b);
    TasksOfAppend(a, [x]);
    TasksOfOne(x);
  }

  /**
   From a vector that is in order except possibly at `i`, and for the suffix behind `i`, the loop makes an
   ordered prefix.
   */
  lemma {:induction false} BubbleOrders(timers: seq<Timer>, i: nat)
    requires i < |timers| && Sorted(timers[..i]) && Sorted(timers[i + 1..])
    requires forall a, b :: 0 <= a < i < b < |timers| ==> timers[a].due >= timers[b].due
    requires i + 1 < |timers| ==> timers[i].due >= timers[i + 1].due
    ensures Sorted(Bubbled(timers, i))
    decreases i
  {
    if i == 0 {
      forall a, b | 0 <= a < b < |timers|
        ensures timers[a].due >= timers[b].due
      {
        SuffixOrder(timers, 1, a, b);
      }
    } else {
      var next := if timers[i].due > timers[i - 1].due then timers[i := timers[i - 1]][i - 1 := timers[i]] else timers;
      BubbleStep(timers, i, next);
      BubbleOrders(next, i - 1);
    }
  }

  lemma SuffixOrder(timers: seq<Timer>, k: nat, a: nat, b: nat)
    requires k <= |timers| && Sorted(timers[k..])
    ensures k <= a < b < |timers| ==> timers[a].due >= timers[b].due
  {
    if k <= a < b < |timers| {
      assert timers[k..][a - k] == timers[a] && timers[k..][b - k] == timers[b];
    }
  }

  lemma PrefixOrder(timers: seq<Timer>, k: nat, a: nat, b: nat)
    requires k <= |timers| && Sorted(timers[..k])
    ensures a < b < k ==> timers[a].due >= timers[b].due
  {
    if a < b < k {
      assert timers[..k][a] == timers[a] && timers[..k][b] == timers[b];
    }
  }

  lemma BubbleStep(timers: seq<Timer>, i: nat, next: seq<Timer>)
    requires 0 < i < |timers| && Sorted(timers[..i]) && Sorted(timers[i + 1..])
    requires forall a, b :: 0 <= a < i < b < |timers| ==> timers[a].due >= timers[b].due
    requires i + 1 < |timers| ==> timers[i].due >= timers[i + 1].due
    requires next
             == if timers[i].due > timers[i - 1].due then timers[i := timers[i - 1]][i - 1 := timers[i]] else timers
    ensures Sorted(next[..i - 1]) && Sorted(next[i..])
    ensures forall a, b :: 0 <= a < i - 1 < b < |next| ==> next[a].due >= next[b].due
    ensures next[i - 1].due >= next[i].due
  {
    assert next[..i - 1] == timers[..i][..i - 1];
    forall a, b | 0 <= a < b < |next[i..]|
      ensures next[i..][a].due >= next[i..][b].due
    {
      SuffixOrder(timers, i + 1, i + a, i + b);
    }
    forall a, b | 0 <= a < i - 1 < b < |next|
      ensures next[a].due >= next[b].due
    {
      PrefixOrder(timers, i, a, i - 1);
      PrefixOrder(timers, i, a, b);
    }
  }

  /** `delay` keeps the vector in order exactly when the timer does not become due before its successor. */
  lemma DelayKeepsOrder(timers: seq<Timer>, task: Task, due: int)
    requires Sorted(timers)
    ensures Sorted(Delayed(timers, task, due)) <==> DelayInOrder(timers, task, due)
  {
    var i := Find(timers, task);
    if i < |timers| {
      var s := timers[i := Timer(due, task)];
      BubbleTail(s, i);
      if DelayInOrder(timers, task, due) {
        assert s[..i] == timers[..i] && s[i + 1..] == timers[i + 1..];
        BubbleOrders(s, i);
      } else {
        BubbleStays(s, i);
        assert Bubbled(s, i)[i + 1] == Bubbled(s, i)[i + 1..][0] == s[i + 1..][0];
      }
    }
  }

  /** A timer that is not due later than its predecessor stays where it is. */
  lemma BubbleStays(timers: seq<Timer>, i: nat)
    requires i < |timers| && (i > 0 ==> timers[i].due <= timers[i - 1].due)
    ensures |Bubbled(timers, i)| == |timers| && Bubbled(timers, i)[i] == timers[i]
  {
    if i > 0 {
      BubbleTail(timers, i - 1);
      assert Bubbled(timers, i)[i] == Bubbled(timers, i)[i..][0] == timers[i..][0];
    }
  }

  /** Two timers due at 5 and 9: delaying the later one to 3 leaves it in front of the one due at 5. */
  lemma DelayEarlierBreaksOrder()
    ensures var timers := [Timer(9, 1), Timer(5, 2)];
            Sorted(timers) && Delayed(timers, 1, 3) == [Timer(3, 1), Timer(5, 2)] && !Sorted(Delayed(timers, 1, 3))
  {
    var timers := Delayed([Timer(9, 1), Timer(5, 2)], 1, 3);
    assert timers[0].due < timers[1].due;
  }

  lemma DelayKeepsTasks(timers: seq<Timer>, task: Task, due: int)
    ensures TasksOf(Delayed(timers, task, due)) == TasksOf(timers) && |Delayed(timers, task, due)| == |timers|
  {
    var i := Find(timers, task);
    if i < |timers| {
      var s := timers[i := Timer(due, task)];
      BubbleTail(s, i);
      SameTasks(timers, s, timers[..i], timers[i], s[i], timers[i + 1..]);
    }
  }

  lemma SameTasks(timers: seq<Timer>, s: seq<Timer>, a: seq<Timer>, x: Timer, y: Timer, b: seq<Timer>)
    requires timers == a + [x] + b && s == a + [y] + b && x.task == y.task
    ensures TasksOf(timers) == TasksOf(s)
  {
    TasksOfParts(a, x, b);
    TasksOfParts(a, y, b);
  }

  // The pool.

  /** A pop returns something exactly when the pool is ready. */
  lemma {:induction false} PopIffReady(p: Pool, now: int)
    ensures p.Pop(now).1.Some? <==> p.Ready(now)
  {
  }

  /** A timer that is popped is one of the earliest and is due, and no immediate task was waiting. */
  lemma {:induction false} PopEarliest(p: Pool, now: int)
    requires Sorted(p.timers)
    ensures var (q, r) := p.Pop(now);
            p.tasks == [] && r.Some? ==>
              exists t :: t in p.timers && t.task == r.value && t.due <= now
                  && forall u :: u in p.timers ==> t.due <= u.due
    ensures var (q, r) := p.Pop(now);
            r == None ==> q == p && p.tasks == [] && forall u :: u in p.timers ==> now < u.due
  {
    if p.timers != [] {
      var t := p.timers[|p.timers| - 1];
      assert t in p.timers;
      forall u | u in p.timers
        ensures t.due <= u.due
      {
        var i :| 0 <= i < |p.timers| && p.timers[i] == u;
      }
    }
  }

  datatype Op = OpPush(task: Task) | OpPushDelayed(task: Task, due: int) | OpDelay(task: Task, due: int)
      | OpCancel(task: Task) | OpPop(now: int)

  function Apply(p: Pool, op: Op): Pool {
    match op
    case OpPush(t) => p.Push(t)
    case OpPushDelayed(t, due) => p.PushDelayed(t, due)
    case OpDelay(t, due) => p.Delay(t, due)
    case OpCancel(t) => p.Cancel(t).0
    case OpPop(now) => p.Pop(now).0
  }

  function Run(ops: seq<Op>): Pool {
    if ops == [] then EMPTY else Apply(Run(ops[..|ops| - 1]), ops[|ops| - 1])
  }

  /** Every delay in the run leaves its timer due no earlier than its successor. */
  ghost predicate DelaysInOrder(ops: seq<Op>) {
    ops != [] ==>
      DelaysInOrder(ops[..|ops| - 1])
      && (ops[|ops| - 1].OpDelay? ==>
            DelayInOrder(Run(ops[..|ops| - 1]).timers, ops[|ops| - 1].task, ops[|ops| - 1].due))
  }

  lemma CancelFacts(p: Pool, task: Task)
    requires Conserved(p)
    ensures Conserved(p.Cancel(task).0) && (Sorted(p.timers) ==> Sorted(p.Cancel(task).0.timers))
  {
    var i := Find(p.timers, task);
    if i < |p.timers| {
      CancelKeepsTasks(p.timers, p.timers[..i], p.timers[i], p.timers[i + 1..], p.timersRan, p.timersCancelled);
    }
  }

  /** A cancel succeeds exactly when the task has a timer. */
  lemma CancelFinds(p: Pool, task: Task)
    ensures p.Cancel(task).1 <==> task in TasksOf(p.timers)
  {
    var i := Find(p.timers, task);
    if i < |p.timers| {
      TasksOfSplit(p.timers, p.timers[..i], p.timers[i], p.timers[i + 1..]);
    } else {
      NotInTasks(p.timers, task);
    }
  }

  lemma {:induction false} NotInTasks(timers: seq<Timer>, task: Task)
    requires forall j :: 0 <= j < |timers| ==> timers[j].task != task
    ensures task !in TasksOf(timers)
  {
    if timers != [] {
      NotInTasks(timers[..|timers| - 1], task);
    }
  }

  lemma CancelKeepsTasks(timers: seq<Timer>, a: seq<Timer>, t: Timer, b: seq<Timer>, ran: multiset<Task>,
                         cancelled: multiset<Task>)
    requires timers == a + [t] + b
    ensures ran + (cancelled + multiset{t.task}) + TasksOf(a + b) == ran + cancelled + TasksOf(timers)
  {
    TasksOfParts(a, t, b);
    TasksOfAppend(a, b);
  }

  lemma PopKeeps(p: Pool, now: int)
    requires Conserved(p)
    ensures Conserved(p.Pop(now).0) && (Sorted(p.timers) ==> Sorted(p.Pop(now).0.timers))
  {
    if p.tasks != [] {
      assert p.tasks == [p.tasks[0]] + p.tasks[1..];
    }
  }

  lemma PushDelayedKeeps(p: Pool, task: Task, due: int)
    requires Conserved(p)
    ensures Conserved(p.PushDelayed(task, due)) && (Sorted(p.timers) ==> Sorted(p.PushDelayed(task, due).timers))
  {
    var t, i := Timer(due, task), InsertAt(p.timers, due);
    assert p.timers == p.timers[..i] + p.timers[i..];
    PushKeepsTasks(p.timers, p.timers[..i], t, p.timers[i..], p.timersRan, p.timersCancelled);
    if Sorted(p.timers) {
      InsertKeepsOrder(p.timers, t);
    }
  }

  lemma PushKeepsTasks(timers: seq<Timer>, a: seq<Timer>, t: Timer, b: seq<Timer>, ran: multiset<Task>,
                       cancelled: multiset<Task>)
    requires timers == a + b
    ensures ran + cancelled + TasksOf(a + [t] + b) == ran + cancelled + TasksOf(timers) + multiset{t.task}
  {
    InsertKeepsTasks(timers, a, t, b);
  }

  /**
   Over every run: nothing is lost, duplicated or run out of turn, and the vector is in order if the delays
   allow it.
   */
  lemma {:induction false} RunInvariant(ops: seq<Op>)
    ensures Conserved(Run(ops))
    ensures DelaysInOrder(ops) ==> Sorted(Run(ops).timers)
  {
    if ops != [] {
      var before, op := ops[..|ops| - 1], ops[|ops| - 1];
      var p := Run(before);
      RunInvariant(before);
      match op
      case OpPush(_) =>
      case OpPushDelayed(t, due) => PushDelayedKeeps(p, t, due);
      case OpDelay(t, due) =>
        DelayKeepsTasks(p.timers, t, due);
        if Sorted(p.timers) {
          DelayKeepsOrder(p.timers, t, due);
        }
      case OpCancel(t) => CancelFacts(p, t);
      case OpPop(now) => PopKeeps(p, now);
    }
  }

  class TaskPool {
    var tasks: seq<Task>
    var timerTasks: seq<Timer>
    ghost var history: Pool

    /** The queues together with what went through them. */
    ghost function View(): Pool
      reads this
    {
      history.(tasks := tasks, timers := timerTasks)
    }

    constructor ()
      ensures View() == EMPTY
    {
      tasks, timerTasks := [], [];
      history := EMPTY;
    }

    method Push(task: Task)
      modifies this
      ensures View() == old(View()).Push(task)
    {
      tasks := tasks + [task];
      history := history.(pushed := history.pushed + [task]);
    }

    method PushDelayed(task: Task, due: int)
      modifies this
      ensures View() == old(View()).PushDelayed(task, due)
    {
      var it := 0;
      while it < |timerTasks|
        invariant 0 <= it <= |timerTasks|
        invariant forall j :: 0 <= j < it ==> timerTasks[j].due >= due
      {
        if timerTasks[it].due < due {
          break;
        }
        it := it + 1;
      }
      InsertAtIs(timerTasks, due, it);
      timerTasks := timerTasks[..it] + [Timer(due, task)] + timerTasks[it..];
      history := history.(timersPushed := history.timersPushed + multiset{task});
    }

    method FindTimer(task: Task) returns (it: nat)
      ensures it == Find(timerTasks, task)
    {
      it := 0;
      while it < |timerTasks|
        invariant 0 <= it <= |timerTasks|
        invariant forall j :: 0 <= j < it ==> timerTasks[j].task != task
      {
        if timerTasks[it].task == task {
          break;
        }
        it := it + 1;
      }
      FindIs(timerTasks, task, it);
    }

    method Delay(task: Task, due: int)
      modifies `timerTasks
      ensures View() == old(View()).Delay(task, due)
    {
      var it := FindTimer(task);
      if it == |timerTasks| {
        return;
      }
      timerTasks := timerTasks[it := Timer(due, task)];
      while it > 0
        invariant 0 <= it < |timerTasks|
        invariant Bubbled(timerTasks, it) == old(Delayed(timerTasks, task, due))
      {
        if timerTasks[it].due > timerTasks[it - 1].due {
          timerTasks := timerTasks[it := timerTasks[it - 1]][it - 1 := timerTasks[it]];
        }
        it := it - 1;
      }
    }

    method Cancel(task: Task) returns (found: bool)
      modifies this
      ensures (View(), found) == old(View()).Cancel(task)
    {
      var it := FindTimer(task);
      if it == |timerTasks| {
        return false;
      }
      timerTasks := timerTasks[..it] + timerTasks[it + 1..];
      history := history.(timersCancelled := history.timersCancelled + multiset{task});
      found := true;
    }

    method Pop(now: int) returns (task: Option<Task>)
      modifies this
      ensures (View(), task) == old(View()).Pop(now)
    {
      if tasks != [] {
        task := Some(tasks[0]);
        history := history.(ran := history.ran + [tasks[0]]);
        tasks := tasks[1..];
      } else if timerTasks != [] && timerTasks[|timerTasks| - 1].due <= now {
        var last := |timerTasks| - 1;
        task := Some(timerTasks[last].task);
        history := history.(timersRan := history.timersRan + multiset{timerTasks[last].task});
        timerTasks := timerTasks[..last];
      } else {
        task := None;
      }
    }

    method Ready(now: int) returns (r: bool)
      ensures r == View().Ready(now)
    {
      r := tasks != [] || (timerTasks != [] && timerTasks[|timerTasks| - 1].due <= now);
    }

    method Next() returns (t: Option<int>)
      ensures t == View().Next()
    {
      t := if timerTasks == [] then None else Some(timerTasks[|timerTasks| - 1].due);
    }
  }
}
