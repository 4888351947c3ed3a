/**
 The worker pool as a state machine. One step is what happens between two points at which another
 thread can interfere; `push`, `pushDelayed` and `stop` hold the pool's lock throughout and are one step
 each. A worker that found nothing to do holds that lock from its second look at the queues until it
 waits, but other workers may still pop in between.
 */
module ThreadPool {
  import opened Wrappers
  import opened TaskPool

  datatype Worker =
    | AtLoop                              // about to test _continue
    | AtPop                               // about to pop
    | Running(task: Task)
    | AtLock                              // the pop found nothing: about to take the lock
    | Holding                             // has the lock, about to test ready()
    | NotReady                            // about to test _continue again
    | MayWait                             // about to ask for the next timer
    | Chosen(deadline: Option<int>)       // about to wait
    | Waiting(deadline: Option<int>)      // blocked on the condition variable
    | Draining                            // after the loop: about to pop a remaining task
    | DrainRunning(task: Task)
    | Done
  {
    predicate Holds() { Holding? || NotReady? || MayWait? || Chosen? }

    predicate Stopping() { Draining? || DrainRunning? || Done? }
  }

  /** `completed` and `stopMark`, the number of immediate tasks pushed before `stop`, only record history. */
  datatype State = State(now: int, pool: Pool, running: bool, workers: seq<Worker>, completed: multiset<Task>,
      stopMark: nat)

  datatype Step =
    | Tick(t: int)
    | Push(task: Task, woken: Option<nat>)
    | PushDelayed(task: Task, due: int)
    | Cancel(task: Task)
    | Delay(task: Task, due: int)
    | Stop
    | Work(i: nat)
    | Wake(i: nat)                        // a wait ends by timeout, or for no reason

  function Start(threads: nat, now: int): State {
    State(now, EMPTY, true, seq(threads, _ => AtLoop), multiset{}, 0)
  }

  ghost predicate LockFree(s: State) {
    forall i :: 0 <= i < |s.workers| ==> !s.workers[i].Holds()
  }

  ghost predicate SomeWaiting(s: State) {
    exists i :: 0 <= i < |s.workers| && s.workers[i].Waiting?
  }

  /** The new time is no earlier than that of the timer due next after this one, or its own, if it is due first. */
  ghost predicate DelayStaysBehind(timers: seq<Timer>, task: Task, due: int) {
    var k := Find(timers, task);
    k < |timers| ==> due >= timers[if k + 1 < |timers| then k + 1 else k].due
  }

  ghost predicate Enabled(s: State, step: Step) {
    match step
    case Tick(t) => t >= s.now
    case Push(_, woken) =>
      && LockFree(s)
      && if woken.Some? then woken.value < |s.workers| && s.workers[woken.value].Waiting? else !SomeWaiting(s)
    case PushDelayed(_, _) => LockFree(s)
    case Cancel(_) => true
    case Delay(task, due) => DelayStaysBehind(s.pool.timers, task, due)
    case Stop => LockFree(s) && s.running
    case Work(i) =>
      i < |s.workers| && !s.workers[i].Waiting? && !s.workers[i].Done? && (s.workers[i].AtLock? ==> LockFree(s))
    case Wake(i) => i < |s.workers| && s.workers[i].Waiting?
  }

  function Notified(w: Worker): Worker {
    if w.Waiting? then AtLoop else w
  }

  /** notify_all */
  function AllNotified(workers: seq<Worker>): (r: seq<Worker>)
    ensures |r| == |workers| && forall i :: 0 <= i < |r| ==> r[i] == Notified(workers[i])
  {
    seq(|workers|, i requires 0 <= i < |workers| => Notified(workers[i]))
  }

  function WithWorker(s: State, i: nat, w: Worker): State
    requires i < |s.workers|
  {
    s.(workers := s.workers[i := w])
  }

  /** pop(), by a worker in its loop or one that is draining the queues. */
  function PopWork(s: State, i: nat, draining: bool): State
    requires i < |s.workers|
  {
    var (p, task) := s.pool.Pop(s.now);
    WithWorker(s.(pool := p), i, AfterPop(task, draining))
  }

  function AfterPop(task: Option<Task>, draining: bool): Worker {
    match task
    case Some(t) => if draining then DrainRunning(t) else Running(t)
    case None => if draining then Done else AtLock
  }

  function WorkStep(s: State, i: nat): State
    requires i < |s.workers|
  {
    match s.workers[i]
    case AtLoop => WithWorker(s, i, if s.running then AtPop else Draining)
    case AtPop => PopWork(s, i, false)
    case Running(task) => WithWorker(s.(completed := s.completed + multiset{task}), i, AtLoop)
    case AtLock => WithWorker(s, i, Holding)
    case Holding => WithWorker(s, i, if s.pool.Ready(s.now) then AtLoop else NotReady)
    case NotReady => WithWorker(s, i, if s.running then MayWait else Draining)
    case MayWait => WithWorker(s, i, Chosen(s.pool.Next()))
    case Chosen(deadline) => WithWorker(s, i, Waiting(deadline))
    case Draining => PopWork(s, i, true)
    case DrainRunning(task) => WithWorker(s.(completed := s.completed + multiset{task}), i, Draining)
    case _ => s
  }

  function Apply(s: State, step: Step): State {
    match step
    case Tick(t) => s.(now := t)
    case Push(task, woken) =>
      var s' := s.(pool := s.pool.Push(task));
      if woken.Some? && woken.value < |s.workers| then WithWorker(s', woken.value, AtLoop) else s'
    case PushDelayed(task, due) => s.(pool := s.pool.PushDelayed(task, due), workers := AllNotified(s.workers))
    case Cancel(task) => s.(pool := s.pool.Cancel(task).0)
    case Delay(task, due) => s.(pool := s.pool.Delay(task, due))
    case Stop => s.(running := false, workers := AllNotified(s.workers), stopMark := |s.pool.pushed|)
    case Work(i) => if i < |s.workers| then WorkStep(s, i) else s
    case Wake(i) => if i < |s.workers| then WithWorker(s, i, AtLoop) else s
  }

  // What holds in every reachable state.

  /** A deadline is early enough for every pending timer. */
  ghost predicate Covers(deadline: Option<int>, timers: seq<Timer>) {
    timers != [] ==> deadline.Some? && forall j :: 0 <= j < |timers| ==> deadline.value <= timers[j].due
  }

  ghost predicate WorkerOk(s: State, w: Worker) {
    && (w.NotReady? || w.MayWait? || w.Chosen? ==> s.pool.tasks == [])
    && (w.Chosen? || w.Waiting? ==> Covers(w.deadline, s.pool.timers))
    && (w.MayWait? || w.Chosen? || w.Waiting? ==> s.running)
    && (w.Stopping() ==> !s.running)
    && (w.Done? ==> |s.pool.ran| >= s.stopMark)
  }

  ghost predicate Unblocked(s: State) {
    exists i :: 0 <= i < |s.workers| && !s.workers[i].Waiting?
  }

  ghost predicate OneHolder(workers: seq<Worker>) {
    forall i, j :: 0 <= i < j < |workers| ==> !(workers[i].Holds() && workers[j].Holds())
  }

  function TaskOf(w: Worker): multiset<Task> {
    match w
    case Running(t) => multiset{t}
    case DrainRunning(t) => multiset{t}
    case _ => multiset{}
  }

  function InFlight(workers: seq<Worker>): multiset<Task> {
    if workers == [] then multiset{} else TaskOf(workers[0]) + InFlight(workers[1..])
  }

  /** Every task that left the queues has completed or is being run. */
  ghost predicate Accounted(s: State) {
    Popped(s.pool) == s.completed + InFlight(s.workers)
  }

  ghost predicate Inv(s: State) {
    && s.workers != []
    && Conserved(s.pool) && Sorted(s.pool.timers) && s.stopMark <= |s.pool.pushed|
    && (forall i :: 0 <= i < |s.workers| ==> WorkerOk(s, s.workers[i]))
    && OneHolder(s.workers)
    && (s.pool.tasks != [] ==> Unblocked(s))
  }

  // Preservation.

  /** A step of one thread that cannot upset the others: queues only shrink, timers only move later. */
  ghost predicate Gentle(s: State, s': State) {
    && (s.pool.tasks == [] ==> s'.pool.tasks == [])
    && CoversMore(s.pool.timers, s'.pool.timers)
    && s'.running == s.running && s'.stopMark == s.stopMark
    && |s'.pool.ran| >= |s.pool.ran|
  }

  /** Every timer left is due no earlier than some timer that was there before. */
  ghost predicate CoversMore(before: seq<Timer>, after: seq<Timer>) {
    forall j :: 0 <= j < |after| ==> LaterThanSome(before, after[j].due)
  }

  ghost predicate LaterThanSome(timers: seq<Timer>, due: int) {
    exists k :: 0 <= k < |timers| && timers[k].due <= due
  }

  lemma GentleKeepsWorker(s: State, s': State, w: Worker)
    requires Gentle(s, s') && WorkerOk(s, w)
    ensures WorkerOk(s', w)
  {
    if w.Chosen? || w.Waiting? {
      CoversLater(w.deadline, s.pool.timers, s'.pool.timers);
    }
  }

  lemma CoversLater(deadline: Option<int>, before: seq<Timer>, after: seq<Timer>)
    requires Covers(deadline, before) && CoversMore(before, after)
    ensures Covers(deadline, after)
  {
    if after != [] {
      assert LaterThanSome(before, after[0].due);
      forall j | 0 <= j < |after|
        ensures deadline.value <= after[j].due
      {
        assert LaterThanSome(before, after[j].due);
        var k :| 0 <= k < |before| && before[k].due <= after[j].due;
      }
    }
  }

  /** Worker `i` changes state gently. */
  lemma WorkerStepKeeps(s: State, s': State, i: nat, w: Worker)
    requires Inv(s) && i < |s.workers| && Gentle(s, s') && s'.workers == s.workers[i := w]
    requires Conserved(s'.pool) && Sorted(s'.pool.timers) && s'.stopMark <= |s'.pool.pushed|
    requires WorkerOk(s', w)
    requires w.Holds() && !s.workers[i].Holds() ==> LockFree(s)
    requires w.Waiting? ==> s'.pool.tasks == []
    ensures Inv(s')
  {
    forall j | 0 <= j < |s'.workers|
      ensures WorkerOk(s', s'.workers[j])
    {
      if j != i {
        assert s'.workers[j] == s.workers[j];
        GentleKeepsWorker(s, s', s.workers[j]);
      }
    }
    assert |s'.workers| == |s.workers| > 0;
    OneHolderUpdate(s.workers, i, w);
    if s'.pool.tasks != [] {
      assert !s'.workers[i].Waiting?;
      assert Unblocked(s');
    }
  }

  lemma OneHolderUpdate(workers: seq<Worker>, i: nat, w: Worker)
    requires OneHolder(workers) && i < |workers|
    requires w.Holds() && !workers[i].Holds() ==> forall j :: 0 <= j < |workers| ==> !workers[j].Holds()
    ensures OneHolder(workers[i := w])
  {
    var updated := workers[i := w];
    forall a, b | 0 <= a < b < |updated|
      ensures !(updated[a].Holds() && updated[b].Holds())
    {
      assert !(workers[a].Holds() && workers[b].Holds());
    }
  }

  lemma SameTimersCover(timers: seq<Timer>)
    ensures CoversMore(timers, timers)
  {
    forall j | 0 <= j < |timers|
      ensures LaterThanSome(timers, timers[j].due)
    {
    }
  }

  lemma PrefixCovers(timers: seq<Timer>, n: nat)
    requires n <= |timers|
    ensures CoversMore(timers, timers[..n])
  {
    forall j | 0 <= j < n
      ensures LaterThanSome(timers, timers[..n][j].due)
    {
      assert timers[..n][j] == timers[j];
    }
  }

  lemma NextCovers(p: Pool)
    requires Sorted(p.timers)
    ensures Covers(p.Next(), p.timers)
  {
  }

  lemma PopGentle(p: Pool, now: int)
    requires Conserved(p) && Sorted(p.timers)
    ensures var q := p.Pop(now).0;
            Conserved(q) && Sorted(q.timers) && q.pushed == p.pushed && |q.ran| >= |p.ran|
            && (p.tasks == [] ==> q.tasks == []) && CoversMore(p.timers, q.timers)
    ensures p.Pop(now).1 == None ==> p.tasks == [] && p.Pop(now).0 == p && |p.ran| == |p.pushed|
  {
    PopKeeps(p, now);
    SameTimersCover(p.timers);
    if p.timers != [] {
      PrefixCovers(p.timers, |p.timers| - 1);
    }
  }

  lemma PopStepKeeps(s: State, i: nat, draining: bool)
    requires Inv(s) && i < |s.workers| && (if draining then s.workers[i].Draining? else s.workers[i].AtPop?)
    ensures Inv(PopWork(s, i, draining))
  {
    PopGentle(s.pool, s.now);
    var (q, task) := s.pool.Pop(s.now);
    PoppedKeeps(s, i, draining, q, task);
  }

  lemma PoppedKeeps(s: State, i: nat, draining: bool, q: Pool, task: Option<Task>)
    requires Inv(s) && i < |s.workers| && (if draining then s.workers[i].Draining? else s.workers[i].AtPop?)
    requires Conserved(q) && Sorted(q.timers) && q.pushed == s.pool.pushed && |q.ran| >= |s.pool.ran|
    requires (s.pool.tasks == [] ==> q.tasks == []) && CoversMore(s.pool.timers, q.timers)
    requires task.None? ==> q == s.pool && |q.ran| == |q.pushed|
    ensures Inv(WithWorker(s.(pool := q), i, AfterPop(task, draining)))
  {
    assert WorkerOk(s, s.workers[i]);
    var w := AfterPop(task, draining);
    var s' := WithWorker(s.(pool := q), i, w);
    AfterPopOk(s, s.workers[i], s', task, draining);
    WorkerStepKeeps(s, s', i, w);
  }

  lemma AfterPopOk(s: State, from: Worker, s': State, task: Option<Task>, draining: bool)
    requires WorkerOk(s, from) && (if draining then from.Draining? else from.AtPop?) && s'.running == s.running
    requires task.None? ==> |s'.pool.ran| >= s'.stopMark
    ensures WorkerOk(s', AfterPop(task, draining))
    ensures !AfterPop(task, draining).Holds() && !AfterPop(task, draining).Waiting?
  {
  }

  lemma FreeStepKeeps(s: State, i: nat)
    requires Inv(s) && Enabled(s, Work(i))
    requires s.workers[i].AtLoop? || s.workers[i].AtLock? || s.workers[i].Running? || s.workers[i].DrainRunning?
    ensures Inv(WorkStep(s, i))
  {
    SameTimersCover(s.pool.timers);
    assert WorkerOk(s, s.workers[i]);
    var w := AfterFree(s.workers[i], s.running);
    FreeStep(s, i);
    AfterFreeOk(s, s.workers[i], WorkStep(s, i));
    WorkerStepKeeps(s, WorkStep(s, i), i, w);
  }

  /** What a worker that need not look at the queues does next. */
  function AfterFree(from: Worker, running: bool): Worker {
    match from
    case AtLoop => if running then AtPop else Draining
    case AtLock => Holding
    case Running(_) => AtLoop
    case DrainRunning(_) => Draining
    case _ => from
  }

  lemma FreeStep(s: State, i: nat)
    requires i < |s.workers|
    requires s.workers[i].AtLoop? || s.workers[i].AtLock? || s.workers[i].Running? || s.workers[i].DrainRunning?
    ensures WorkStep(s, i).workers == s.workers[i := AfterFree(s.workers[i], s.running)]
    ensures var s' := WorkStep(s, i);
            s'.pool == s.pool && s'.running == s.running && s'.stopMark == s.stopMark
  {
  }

  lemma AfterFreeOk(s: State, from: Worker, s': State)
    requires WorkerOk(s, from) && s'.running == s.running
    requires from.AtLoop? || from.AtLock? || from.Running? || from.DrainRunning?
    ensures WorkerOk(s', AfterFree(from, s.running)) && !AfterFree(from, s.running).Waiting?
  {
  }

  lemma HolderStepKeeps(s: State, i: nat)
    requires Inv(s) && i < |s.workers| && s.workers[i].Holds()
    ensures Inv(WorkStep(s, i))
  {
    SameTimersCover(s.pool.timers);
    NextCovers(s.pool);
    assert WorkerOk(s, s.workers[i]);
    match s.workers[i]
    case Holding => WorkerStepKeeps(s, WorkStep(s, i), i, if s.pool.Ready(s.now) then AtLoop else NotReady);
    case NotReady => WorkerStepKeeps(s, WorkStep(s, i), i, if s.running then MayWait else Draining);
    case MayWait => WorkerStepKeeps(s, WorkStep(s, i), i, Chosen(s.pool.Next()));
    case Chosen(d) => WorkerStepKeeps(s, WorkStep(s, i), i, Waiting(d));
  }

  lemma WorkKeeps(s: State, i: nat)
    requires Inv(s) && Enabled(s, Work(i))
    ensures Inv(WorkStep(s, i))
  {
    var w := s.workers[i];
    if w.AtPop? || w.Draining? {
      PopStepKeeps(s, i, w.Draining?);
    } else if w.Holds() {
      HolderStepKeeps(s, i);
    } else {
      FreeStepKeeps(s, i);
    }
  }

  /** Steps that touch the queues only. */
  lemma QueueStepKeeps(s: State, s': State)
    requires Inv(s) && Gentle(s, s') && s'.workers == s.workers
    requires Conserved(s'.pool) && Sorted(s'.pool.timers) && s'.stopMark <= |s'.pool.pushed|
    ensures Inv(s')
  {
    forall j | 0 <= j < |s'.workers|
      ensures WorkerOk(s', s'.workers[j])
    {
      GentleKeepsWorker(s, s', s.workers[j]);
    }
    if s'.pool.tasks != [] {
      assert Unblocked(s);
      var i :| 0 <= i < |s.workers| && !s.workers[i].Waiting?;
      assert !s'.workers[i].Waiting?;
    }
  }

  lemma PushKeeps(s: State, task: Task, woken: Option<nat>)
    requires Inv(s) && Enabled(s, Push(task, woken))
    ensures Inv(Apply(s, Push(task, woken)))
  {
    var s' := Apply(s, Push(task, woken));
    forall j | 0 <= j < |s'.workers|
      ensures WorkerOk(s', s'.workers[j])
    {
      assert WorkerOk(s, s.workers[j]) && !s.workers[j].Holds();
    }
    assert OneHolder(s'.workers);
    if woken.Some? {
      assert !s'.workers[woken.value].Waiting?;
    } else {
      assert !s.workers[0].Waiting? && !s'.workers[0].Waiting?;
    }
    assert Unblocked(s');
  }

  /** After notify_all nobody waits, so nothing need be shown about deadlines. */
  lemma NotifiedKeeps(s: State, s': State)
    requires Inv(s) && LockFree(s) && s'.workers == AllNotified(s.workers)
    requires Conserved(s'.pool) && Sorted(s'.pool.timers) && s'.stopMark <= |s'.pool.pushed|
    requires s'.pool.ran == s.pool.ran
    requires (s'.running == s.running && s'.stopMark == s.stopMark) || (s.running && !s'.running)
    ensures Inv(s')
  {
    forall j | 0 <= j < |s'.workers|
      ensures WorkerOk(s', s'.workers[j]) && !s'.workers[j].Holds() && !s'.workers[j].Waiting?
    {
      assert WorkerOk(s, s.workers[j]) && !s.workers[j].Holds();
    }
    assert !s'.workers[0].Waiting?;
    assert Unblocked(s');
  }

  lemma PushDelayedStepKeeps(s: State, task: Task, due: int)
    requires Inv(s) && LockFree(s)
    ensures Inv(Apply(s, PushDelayed(task, due)))
  {
    PushDelayedKeeps(s.pool, task, due);
    NotifiedKeeps(s, Apply(s, PushDelayed(task, due)));
  }

  lemma StopKeeps(s: State)
    requires Inv(s) && Enabled(s, Stop)
    ensures Inv(Apply(s, Stop))
  {
    NotifiedKeeps(s, Apply(s, Stop));
  }

  lemma CancelStepKeeps(s: State, task: Task)
    requires Inv(s)
    ensures Inv(Apply(s, Cancel(task)))
  {
    var q := CancelGentle(s.pool, task);
    QueueStepKeeps(s, s.(pool := q));
  }

  lemma CancelGentle(p: Pool, task: Task) returns (q: Pool)
    requires Conserved(p) && Sorted(p.timers)
    ensures q == p.Cancel(task).0 && Conserved(q) && Sorted(q.timers) && CoversMore(p.timers, q.timers)
    ensures q.tasks == p.tasks && q.ran == p.ran && q.pushed == p.pushed
  {
    q := p.Cancel(task).0;
    CancelFacts(p, task);
    CancelledCovers(p, task, Find(p.timers, task));
  }

  lemma CancelledCovers(p: Pool, task: Task, i: nat)
    requires i == Find(p.timers, task)
    ensures CoversMore(p.timers, p.Cancel(task).0.timers)
  {
    CancelCovers(p.timers, i);
    SameTimersCover(p.timers);
  }

  lemma CancelCovers(timers: seq<Timer>, i: nat)
    requires i <= |timers|
    ensures i < |timers| ==> CoversMore(timers, timers[..i] + timers[i + 1..])
  {
    if i < |timers| {
      var after := timers[..i] + timers[i + 1..];
      forall j | 0 <= j < |after|
        ensures LaterThanSome(timers, after[j].due)
      {
        assert after[j] == timers[if j < i then j else j + 1];
      }
    }
  }

  lemma DelayStepKeeps(s: State, task: Task, due: int)
    requires Inv(s) && Enabled(s, Delay(task, due))
    ensures Inv(Apply(s, Delay(task, due)))
  {
    DelayKeepsTasks(s.pool.timers, task, due);
    DelayKeepsOrder(s.pool.timers, task, due);
    DelayCovers(s.pool.timers, task, due);
    QueueStepKeeps(s, Apply(s, Delay(task, due)));
  }

  lemma DelayCovers(timers: seq<Timer>, task: Task, due: int)
    requires DelayStaysBehind(timers, task, due)
    ensures CoversMore(timers, Delayed(timers, task, due))
  {
    var k := Find(timers, task);
    SameTimersCover(timers);
    if k < |timers| {
      var s := timers[k := Timer(due, task)];
      forall j | 0 <= j < |s|
        ensures LaterThanSome(timers, s[j].due)
      {
        assert timers[if j == k && k + 1 < |timers| then k + 1 else j].due <= s[j].due;
      }
      BubbledCovers(timers, s, k);
    }
  }

  lemma {:induction false} BubbledCovers(timers: seq<Timer>, s: seq<Timer>, i: nat)
    requires i < |s| && CoversMore(timers, s)
    ensures CoversMore(timers, Bubbled(s, i))
    decreases i
  {
    if i > 0 {
      var next := if s[i].due > s[i - 1].due then s[i := s[i - 1]][i - 1 := s[i]] else s;
      forall j | 0 <= j < |next|
        ensures LaterThanSome(timers, next[j].due)
      {
        var was := if next == s then j else if j == i then i - 1 else if j == i - 1 then i else j;
        assert LaterThanSome(timers, s[was].due);
      }
      BubbledCovers(timers, next, i - 1);
    }
  }

  lemma StepKeeps(s: State, step: Step)
    requires Inv(s) && Enabled(s, step)
    ensures Inv(Apply(s, step))
  {
    match step
    case Tick(_) =>
      SameTimersCover(s.pool.timers);
      QueueStepKeeps(s, Apply(s, step));
    case Push(task, woken) => PushKeeps(s, task, woken);
    case PushDelayed(task, due) => PushDelayedStepKeeps(s, task, due);
    case Cancel(task) => CancelStepKeeps(s, task);
    case Delay(task, due) => DelayStepKeeps(s, task, due);
    case Stop => StopKeeps(s);
    case Work(i) => WorkKeeps(s, i);
    case Wake(i) =>
      SameTimersCover(s.pool.timers);
      WorkerStepKeeps(s, Apply(s, step), i, AtLoop);
  }

  // Runs.

  function Final(threads: nat, now: int, steps: seq<Step>): State {
    if steps == [] then Start(threads, now) else Apply(Final(threads, now, steps[..|steps| - 1]), steps[|steps| - 1])
  }

  /** A run of the pool: the steps are each enabled when they happen. */
  ghost predicate Legal(threads: nat, now: int, steps: seq<Step>) {
    steps != [] ==>
      && Legal(threads, now, steps[..|steps| - 1])
      && Enabled(Final(threads, now, steps[..|steps| - 1]), steps[|steps| - 1])
  }

  lemma StartOk(threads: nat, now: int)
    requires threads > 0
    ensures Inv(Start(threads, now))
  {
    var s := Start(threads, now);
    assert !s.workers[0].Waiting?;
  }

  lemma {:induction false} RunInv(threads: nat, now: int, steps: seq<Step>)
    requires threads > 0 && Legal(threads, now, steps)
    ensures Inv(Final(threads, now, steps))
    decreases |steps|
  {
    if steps == [] {
      StartOk(threads, now);
    } else {
      RunInv(threads, now, steps[..|steps| - 1]);
      StepKeeps(Final(threads, now, steps[..|steps| - 1]), steps[|steps| - 1]);
    }
  }

  /**
   No lost wakeup. While the pool is running, waiting immediate work means that some worker is not
   blocked, and every blocked worker is due to wake no later than the earliest pending timer.
   */
  lemma {:induction false} NoLostWakeup(threads: nat, now: int, steps: seq<Step>)
    requires threads > 0 && Legal(threads, now, steps)
    ensures var s := Final(threads, now, steps);
            && (s.pool.tasks != [] ==> Unblocked(s))
            && (forall i :: 0 <= i < |s.workers| && s.workers[i].Waiting? ==>
               Covers(s.workers[i].deadline, s.pool.timers))
            && (!s.running ==> forall i :: 0 <= i < |s.workers| ==> !s.workers[i].Waiting?)
  {
    var s := Final(threads, now, steps);
    RunInv(threads, now, steps);
    forall i | 0 <= i < |s.workers|
      ensures s.workers[i].Waiting? ==> Covers(s.workers[i].deadline, s.pool.timers) && s.running
    {
      assert WorkerOk(s, s.workers[i]);
    }
  }

  // The overload of `pushDelayed` that takes a ready-made pair does not notify.

  function PushUnnoticed(s: State, task: Task, due: int): State {
    s.(pool := s.pool.PushDelayed(task, due))
  }

  /** No worker sleeps past a pending timer. */
  ghost predicate NoneLate(s: State) {
    forall i :: 0 <= i < |s.workers| && s.workers[i].Waiting? ==> Covers(s.workers[i].deadline, s.pool.timers)
  }

  /** Whatever run has led to this timer vector, the push leaves no worker asleep past its timer. */
  ghost predicate SafeUnnoticed(timers: seq<Timer>, due: int) {
    forall threads: nat, now, steps, task: Task ::
      threads > 0 && Legal(threads, now, steps) && Final(threads, now, steps).pool.timers == timers ==>
        NoneLate(PushUnnoticed(Final(threads, now, steps), task, due))
  }

  lemma NewTimerCovered(s: State, task: Task, due: int, i: nat)
    requires Inv(s) && i < |s.workers| && s.workers[i].Waiting?
    ensures Covers(s.workers[i].deadline, PushUnnoticed(s, task, due).pool.timers)
            <==> (s.workers[i].deadline.Some? && s.workers[i].deadline.value <= due)
  {
    var at := InsertAt(s.pool.timers, due);
    var timers := s.pool.PushDelayed(task, due).timers;
    assert timers[at].due == due;
    assert WorkerOk(s, s.workers[i]);
    assert forall j :: 0 <= j < |timers| ==> j == at || timers[j] == s.pool.timers[if j < at then j else j - 1];
  }

  // A single worker that goes to sleep on a given timer vector.

  lemma OneMore(threads: nat, now: int, steps: seq<Step>, step: Step)
    requires Legal(threads, now, steps) && Enabled(Final(threads, now, steps), step)
    ensures Legal(threads, now, steps + [step])
    ensures Final(threads, now, steps + [step]) == Apply(Final(threads, now, steps), step)
  {
    assert (steps + [step])[..|steps|] == steps;
  }

  /** The steps lead to a single worker in state `w`, with nothing queued but these timers. */
  ghost predicate Reaches(now: int, steps: seq<Step>, w: Worker, timers: seq<Timer>) {
    Legal(1, now, steps) && Loaded(Final(1, now, steps), now, w, timers)
  }

  ghost predicate Loaded(s: State, now: int, w: Worker, timers: seq<Timer>) {
    s.now == now && s.running && s.workers == [w] && s.pool.tasks == [] && s.pool.timers == timers
  }

  lemma LoadOne(s: State, now: int, rest: seq<Timer>, last: Timer)
    requires Sorted(rest + [last]) && Loaded(s, now, AtLoop, rest)
    ensures Enabled(s, PushDelayed(last.task, last.due))
    ensures Loaded(Apply(s, PushDelayed(last.task, last.due)), now, AtLoop, rest + [last])
  {
    var all := rest + [last];
    assert forall j :: 0 <= j < |rest| ==> all[j] == rest[j] && all[j].due >= all[|rest|].due;
    InsertAtIs(rest, last.due, |rest|);
    assert rest[..|rest|] == rest && rest[|rest|..] == [] && rest + [last] + [] == all;
    assert AllNotified(s.workers) == [AtLoop];
  }

  /** The vector can be pushed timer by timer. */
  lemma {:induction false} LoadTimers(timers: seq<Timer>, now: int) returns (steps: seq<Step>)
    requires Sorted(timers)
    ensures Reaches(now, steps, AtLoop, timers)
  {
    if timers == [] {
      steps := [];
    } else {
      var last, rest := timers[|timers| - 1], timers[..|timers| - 1];
      assert rest + [last] == timers;
      steps := LoadTimers(rest, now);
      LoadOne(Final(1, now, steps), now, rest, last);
      OneMore(1, now, steps, PushDelayed(last.task, last.due));
      steps := steps + [PushDelayed(last.task, last.due)];
    }
  }

  function Earliest(timers: seq<Timer>): Option<int> {
    if timers == [] then None else Some(timers[|timers| - 1].due)
  }

  /** What a worker does next that finds nothing to run. */
  function NextIdle(w: Worker, timers: seq<Timer>): Worker {
    match w
    case AtLoop => AtPop
    case AtPop => AtLock
    case AtLock => Holding
    case Holding => NotReady
    case NotReady => MayWait
    case MayWait => Chosen(Earliest(timers))
    case Chosen(deadline) => Waiting(deadline)
    case _ => w
  }

  function StepsToSleep(w: Worker): nat {
    match w
    case AtLoop => 7
    case AtPop => 6
    case AtLock => 5
    case Holding => 4
    case NotReady => 3
    case MayWait => 2
    case Chosen(_) => 1
    case _ => 0
  }

  lemma WorkOnce(s: State, now: int, w: Worker, timers: seq<Timer>)
    requires Loaded(s, now, w, timers) && StepsToSleep(w) > 0 && (timers != [] ==> timers[|timers| - 1].due > now)
    ensures Enabled(s, Work(0)) && Loaded(Apply(s, Work(0)), now, NextIdle(w, timers), timers)
  {
    assert [w][0 := NextIdle(w, timers)] == [NextIdle(w, timers)];
  }

  lemma {:induction false} FallAsleep(timers: seq<Timer>, now: int, before: seq<Step>, w: Worker)
    returns (steps: seq<Step>)
    requires Reaches(now, before, w, timers) && (timers != [] ==> timers[|timers| - 1].due > now)
    requires StepsToSleep(w) > 0 || w.Waiting?
    requires w.Chosen? || w.Waiting? ==> w.deadline == Earliest(timers)
    ensures Reaches(now, steps, Waiting(Earliest(timers)), timers)
    decreases StepsToSleep(w)
  {
    if w.Waiting? {
      steps := before;
    } else {
      WorkOnce(Final(1, now, before), now, w, timers);
      OneMore(1, now, before, Work(0));
      steps := FallAsleep(timers, now, before + [Work(0)], NextIdle(w, timers));
    }
  }

  /** With no timer pending, one worker asleep without a deadline: it stays asleep past a timer pushed unnoticed. */
  lemma UnnoticedTimerIsLate(task: Task, due: int) returns (steps: seq<Step>)
    ensures Legal(1, 0, steps) && Final(1, 0, steps).workers == [Waiting(None)]
    ensures var s := PushUnnoticed(Final(1, 0, steps), task, due);
            s.pool.timers == [Timer(due, task)] && s.workers == [Waiting(None)] && !NoneLate(s)
  {
    steps := LoadTimers([], 0);
    steps := FallAsleep([], 0, steps, AtLoop);
    var s := Final(1, 0, steps);
    assert s.pool.PushDelayed(task, due).timers == [Timer(due, task)];
    assert PushUnnoticed(s, task, due).workers[0] == Waiting(None);
  }

  /**
   A push without notification is safe in every run exactly when the vector already holds a timer that is
   due no later: every sleeping worker then wakes in time, and otherwise one may sleep past the new timer.
   */
  lemma {:induction false} PushWithoutNotify(timers: seq<Timer>, due: int)
    requires Sorted(timers)
    ensures SafeUnnoticed(timers, due) <==> timers != [] && timers[|timers| - 1].due <= due
  {
    if timers != [] && timers[|timers| - 1].due <= due {
      forall threads: nat, now, steps, task: Task
        | threads > 0 && Legal(threads, now, steps) && Final(threads, now, steps).pool.timers == timers
        ensures NoneLate(PushUnnoticed(Final(threads, now, steps), task, due))
      {
        var s := Final(threads, now, steps);
        RunInv(threads, now, steps);
        forall i: nat | i < |s.workers| && s.workers[i].Waiting?
          ensures Covers(s.workers[i].deadline, PushUnnoticed(s, task, due).pool.timers)
        {
          assert WorkerOk(s, s.workers[i]);
          NewTimerCovered(s, task, due, i);
        }
      }
    } else {
      var now := if timers == [] then 0 else timers[|timers| - 1].due - 1;
      var loading := LoadTimers(timers, now);
      var steps := FallAsleep(timers, now, loading, AtLoop);
      var s := Final(1, now, steps);
      RunInv(1, now, steps);
      NewTimerCovered(s, 0, due, 0);
      assert s.workers[0].Waiting? && !NoneLate(PushUnnoticed(s, 0, due));
    }
  }

  // What the workers did with the tasks.

  lemma {:induction false} InFlightUpdate(workers: seq<Worker>, i: nat, w: Worker)
    requires i < |workers|
    ensures InFlight(workers[i := w]) + TaskOf(workers[i]) == InFlight(workers) + TaskOf(w)
  {
    var updated := workers[i := w];
    if i == 0 {
      assert updated[1..] == workers[1..];
    } else {
      InFlightUpdate(workers[1..], i - 1, w);
      assert updated[1..] == workers[1..][i - 1 := w];
      SameAddend(TaskOf(workers[0]), InFlight(workers[1..]), InFlight(updated[1..]), TaskOf(workers[i]), TaskOf(w));
    }
  }

  lemma SameAddend(a: multiset<Task>, b: multiset<Task>, c: multiset<Task>, x: multiset<Task>, y: multiset<Task>)
    requires c + x == b + y
    ensures (a + c) + x == (a + b) + y
  {
    assert (a + c) + x == a + (c + x);
    assert (a + b) + y == a + (b + y);
  }

  /** A worker that held no task and holds none afterwards. */
  lemma InFlightSame(workers: seq<Worker>, i: nat, w: Worker)
    requires i < |workers| && TaskOf(workers[i]) == multiset{} == TaskOf(w)
    ensures InFlight(workers[i := w]) == InFlight(workers)
  {
    InFlightUpdate(workers, i, w);
    assert InFlight(workers[i := w]) + multiset{} == InFlight(workers[i := w]);
    assert InFlight(workers) + multiset{} == InFlight(workers);
  }

  lemma {:induction false} InFlightNotified(workers: seq<Worker>)
    ensures InFlight(AllNotified(workers)) == InFlight(workers)
  {
    if workers != [] {
      var rest := AllNotified(workers[1..]);
      InFlightNotified(workers[1..]);
      assert AllNotified(workers) == [Notified(workers[0])] + rest;
      assert AllNotified(workers)[1..] == rest;
    }
  }

  function Popped(p: Pool): multiset<Task> { multiset(p.ran) + p.timersRan }

  /** A pop moves at most the task it returns from the queues to the popped. */
  lemma PopCounts(p: Pool, now: int)
    ensures var (q, r) := p.Pop(now);
            Popped(q) == Popped(p) + if r.Some? then multiset{r.value} else multiset{}
  {
    if p.tasks != [] {
      assert multiset(p.ran + [p.tasks[0]]) == multiset(p.ran) + multiset{p.tasks[0]};
    }
  }

  /** Worker `i` takes the popped task `t`. */
  lemma TakeAccounted(s: State, s': State, i: nat, w: Worker, t: Task)
    requires Accounted(s) && i < |s.workers| && s'.workers == s.workers[i := w]
    requires TaskOf(s.workers[i]) == multiset{} && TaskOf(w) == multiset{t}
    requires Popped(s'.pool) == Popped(s.pool) + multiset{t} && s'.completed == s.completed
    ensures Accounted(s')
  {
    InFlightUpdate(s.workers, i, w);
    var flight, flight' := InFlight(s.workers), InFlight(s'.workers);
    assert flight' == flight + multiset{t} by {
      assert flight' + multiset{} == flight';
    }
    assert s.completed + flight + multiset{t} == s.completed + (flight + multiset{t});
  }

  /** Worker `i` finishes its task `t`. */
  lemma FinishAccounted(s: State, s': State, i: nat, w: Worker, t: Task)
    requires Accounted(s) && i < |s.workers| && s'.workers == s.workers[i := w]
    requires TaskOf(s.workers[i]) == multiset{t} && TaskOf(w) == multiset{}
    requires s'.pool == s.pool && s'.completed == s.completed + multiset{t}
    ensures Accounted(s')
  {
    InFlightUpdate(s.workers, i, w);
    var flight, flight' := InFlight(s.workers), InFlight(s'.workers);
    assert flight' + multiset{t} == flight by {
      assert flight + multiset{} == flight;
    }
    assert s.completed + (flight' + multiset{t}) == (s.completed + multiset{t}) + flight';
  }

  lemma QuietAccounted(s: State, s': State, i: nat, w: Worker)
    requires Accounted(s) && i < |s.workers| && s'.workers == s.workers[i := w]
    requires TaskOf(s.workers[i]) == multiset{} == TaskOf(w)
    requires Popped(s'.pool) == Popped(s.pool) && s'.completed == s.completed
    ensures Accounted(s')
  {
    InFlightSame(s.workers, i, w);
  }

  lemma PopAccounted(s: State, i: nat, draining: bool)
    requires Accounted(s) && i < |s.workers| && TaskOf(s.workers[i]) == multiset{}
    ensures Accounted(PopWork(s, i, draining))
  {
    var (q, task) := s.pool.Pop(s.now);
    PopCounts(s.pool, s.now);
    PoppedAccounted(s, i, draining, q, task);
  }

  lemma PoppedAccounted(s: State, i: nat, draining: bool, q: Pool, task: Option<Task>)
    requires Accounted(s) && i < |s.workers| && TaskOf(s.workers[i]) == multiset{}
    requires Popped(q) == Popped(s.pool) + if task.Some? then multiset{task.value} else multiset{}
    ensures Accounted(WithWorker(s.(pool := q), i, AfterPop(task, draining)))
  {
    var w := AfterPop(task, draining);
    if task.Some? {
      TakeAccounted(s, WithWorker(s.(pool := q), i, w), i, w, task.value);
    } else {
      QuietAccounted(s, WithWorker(s.(pool := q), i, w), i, w);
    }
  }

  predicate Quiet(w: Worker) {
    w.AtLoop? || w.AtLock? || w.Holding? || w.NotReady? || w.MayWait? || w.Chosen?
  }

  /** What a worker that neither pops nor finishes a task does next. */
  lemma QuietStep(s: State, i: nat) returns (w: Worker)
    requires i < |s.workers| && Quiet(s.workers[i])
    ensures WorkStep(s, i) == WithWorker(s, i, w)
    ensures TaskOf(s.workers[i]) == multiset{} == TaskOf(w)
  {
    w := WorkStep(s, i).workers[i];
  }

  lemma WorkAccounted(s: State, i: nat)
    requires Accounted(s) && Enabled(s, Work(i))
    ensures Accounted(WorkStep(s, i))
  {
    var w := s.workers[i];
    if Quiet(w) {
      var next := QuietStep(s, i);
      QuietAccounted(s, WithWorker(s, i, next), i, next);
    } else if w.AtPop? || w.Draining? {
      PopAccounted(s, i, w.Draining?);
    } else {
      FinishAccounted(s, WorkStep(s, i), i, if w.Running? then AtLoop else Draining, w.task);
    }
  }

  lemma StepAccounted(s: State, step: Step)
    requires Accounted(s) && Enabled(s, step)
    ensures Accounted(Apply(s, step))
  {
    match step
    case Tick(_) =>
    case Push(task, woken) =>
      if woken.Some? {
        InFlightSame(s.workers, woken.value, AtLoop);
      }
    case PushDelayed(_, _) => InFlightNotified(s.workers);
    case Cancel(_) =>
    case Delay(_, _) =>
    case Stop => InFlightNotified(s.workers);
    case Work(i) => WorkAccounted(s, i);
    case Wake(i) => InFlightSame(s.workers, i, AtLoop);
  }

  lemma {:induction false} RunAccounted(threads: nat, now: int, steps: seq<Step>)
    requires Legal(threads, now, steps)
    ensures Accounted(Final(threads, now, steps))
    decreases |steps|
  {
    if steps == [] {
      NoneInFlight(Start(threads, now).workers);
    } else {
      RunAccounted(threads, now, steps[..|steps| - 1]);
      StepAccounted(Final(threads, now, steps[..|steps| - 1]), steps[|steps| - 1]);
    }
  }

  lemma {:induction false} NoneInFlight(workers: seq<Worker>)
    requires forall i :: 0 <= i < |workers| ==> TaskOf(workers[i]) == multiset{}
    ensures InFlight(workers) == multiset{}
  {
    if workers != [] {
      NoneInFlight(workers[1..]);
    }
  }

  ghost predicate AllDone(s: State) {
    forall i :: 0 <= i < |s.workers| ==> s.workers[i].Done?
  }

  /** When `join` returns, every immediate task pushed before `stop` has run to completion. */
  lemma {:induction false} JoinedMeansRun(threads: nat, now: int, steps: seq<Step>)
    requires threads > 0 && Legal(threads, now, steps) && AllDone(Final(threads, now, steps))
    ensures var s := Final(threads, now, steps);
            s.stopMark <= |s.pool.pushed| && multiset(s.pool.pushed[..s.stopMark]) <= s.completed
  {
    var s := Final(threads, now, steps);
    RunInv(threads, now, steps);
    RunAccounted(threads, now, steps);
    NoneInFlight(s.workers);
    assert WorkerOk(s, s.workers[0]);
    PushedHaveRun(s.pool, s.stopMark);
    assert s.completed + multiset{} == s.completed;
  }

  lemma PushedHaveRun(p: Pool, n: nat)
    requires Conserved(p) && n <= |p.ran|
    ensures n <= |p.pushed| && multiset(p.pushed[..n]) <= Popped(p)
  {
    assert p.pushed[..n] == p.ran[..n];
    assert p.ran == p.ran[..n] + p.ran[n..];
  }

  // After `stop`, `join` does return.

  function Rank(w: Worker): nat {
    match w
    case Done => 0
    case Draining => 1
    case DrainRunning(_) => 2
    case AtLoop => 3
    case Running(_) => 4
    case NotReady => 5
    case Holding => 6
    case AtLock => 7
    case AtPop => 8
    case _ => 9
  }

  function Ranks(rank: Worker -> nat, workers: seq<Worker>): nat {
    if workers == [] then 0 else rank(workers[0]) + Ranks(rank, workers[1..])
  }

  /** Bounds the number of steps the workers can still take once the pool is stopped. */
  function Remaining(s: State): nat {
    Ranks(Rank, s.workers) + 2 * (|s.pool.tasks| + |s.pool.timers|)
  }

  lemma {:induction false} RanksUpdate(rank: Worker -> nat, workers: seq<Worker>, i: nat, w: Worker)
    requires i < |workers|
    ensures Ranks(rank, workers[i := w]) == Ranks(rank, workers) - rank(workers[i]) + rank(w)
  {
    if i > 0 {
      RanksUpdate(rank, workers[1..], i - 1, w);
      assert workers[i := w][1..] == workers[1..][i - 1 := w];
    } else {
      assert workers[0 := w][1..] == workers[1..];
    }
  }

  /** After `stop`, as long as a worker is left, one of them can take a step. */
  lemma {:induction false} StoppedCanStep(s: State) returns (i: nat)
    requires Inv(s) && !s.running && !AllDone(s)
    ensures Enabled(s, Work(i))
  {
    if LockFree(s) {
      i :| 0 <= i < |s.workers| && !s.workers[i].Done?;
    } else {
      i :| 0 <= i < |s.workers| && s.workers[i].Holds();
    }
    assert WorkerOk(s, s.workers[i]);
  }

  lemma PopShrinks(p: Pool, now: int)
    ensures var (q, r) := p.Pop(now);
            |q.tasks| + |q.timers| == |p.tasks| + |p.timers| - if r.Some? then 1 else 0
  {
  }

  /** The states in which a worker of a stopped pool does not pop. */
  predicate NoPop(w: Worker) {
    w.AtLoop? || w.Running? || w.AtLock? || w.Holding? || w.NotReady? || w.DrainRunning?
  }

  lemma StoppedRankFalls(s: State, i: nat)
    requires i < |s.workers| && !s.running && NoPop(s.workers[i])
    ensures var s' := WorkStep(s, i);
            && s'.pool == s.pool && s'.workers == s.workers[i := s'.workers[i]]
            && Rank(s'.workers[i]) < Rank(s.workers[i])
  {
  }

  /** And every such step brings the end closer: with no new pushes, `join` returns. */
  lemma {:induction false} StoppedProgress(s: State, i: nat)
    requires Inv(s) && !s.running && Enabled(s, Work(i))
    ensures Remaining(Apply(s, Work(i))) < Remaining(s)
  {
    assert WorkerOk(s, s.workers[i]);
    if NoPop(s.workers[i]) {
      StoppedRankFalls(s, i);
      RanksUpdate(Rank, s.workers, i, WorkStep(s, i).workers[i]);
    } else {
      var w := AfterPop(s.pool.Pop(s.now).1, s.workers[i].Draining?);
      PopShrinks(s.pool, s.now);
      RanksUpdate(Rank, s.workers, i, w);
    }
  }

  // While the pool is running, a queued task is taken.

  /** How far a worker is from its next pop; a worker that is blocked does not count. */
  function Distance(w: Worker): nat {
    match w
    case AtPop => 1
    case AtLoop => 2
    case Running(_) => 3
    case Holding => 3
    case Waiting(_) => 3
    case AtLock => 4
    case Chosen(_) => 4
    case MayWait => 5
    case NotReady => 6
    case _ => 0
  }

  /** Task `t` leaves the queues: the front immediate task, or, without one, the task of an earliest due timer. */
  ghost predicate Takes(p: Pool, p': Pool, now: int, t: Task) {
    if p.tasks != [] then t == p.tasks[0] && p'.tasks == p.tasks[1..] && p'.timers == p.timers
    else
      && p'.tasks == [] && p.timers != []
      && var last := |p.timers| - 1;
         && t == p.timers[last].task && p'.timers == p.timers[..last] && p.timers[last].due <= now
         && forall u :: u in p.timers ==> p.timers[last].due <= u.due
  }

  /** A worker's own step, or the end of a wait whose deadline has passed. */
  predicate Moves(s: State, step: Step) {
    match step
    case Work(i) => true
    case Wake(i) =>
      i < |s.workers| && s.workers[i].Waiting? && s.workers[i].deadline.Some? && s.workers[i].deadline.value <= s.now
    case _ => false
  }

  /** With a task queued or a timer due some worker can move. */
  lemma {:induction false} ReadyCanStep(s: State) returns (step: Step)
    requires Inv(s) && s.running && s.pool.Ready(s.now)
    ensures Moves(s, step) && Enabled(s, step)
  {
    if Unblocked(s) {
      var i :=
        if LockFree(s) then var i :| 0 <= i < |s.workers| && !s.workers[i].Waiting?; i
        else var i :| 0 <= i < |s.workers| && s.workers[i].Holds(); i;
      assert WorkerOk(s, s.workers[i]);
      step := Work(i);
    } else {
      assert s.workers[0].Waiting? && WorkerOk(s, s.workers[0]);
      step := Wake(0);
    }
  }

  /** And every such move takes a task that is ready or brings the workers closer to taking it. */
  lemma {:induction false} ReadyProgress(s: State, step: Step)
    requires Inv(s) && s.running && s.pool.Ready(s.now) && Moves(s, step) && Enabled(s, step)
    ensures var s' := Apply(s, step);
            && s'.running && s'.now == s.now
            && if step.Work? && s.workers[step.i].AtPop? then
                 s'.workers[step.i].Running? && Takes(s.pool, s'.pool, s.now, s'.workers[step.i].task)
               else s'.pool == s.pool && Ranks(Distance, s'.workers) < Ranks(Distance, s.workers)
  {
    var i := step.i;
    if step.Wake? {
      RanksUpdate(Distance, s.workers, i, AtLoop);
    } else {
      assert WorkerOk(s, s.workers[i]);
      if !s.workers[i].AtPop? {
        RanksUpdate(Distance, s.workers, i, WorkStep(s, i).workers[i]);
      }
    }
  }

  /** A worker that drains the queues takes what is ready, and ends only when nothing is. */
  lemma {:induction false} DrainTakes(s: State, i: nat)
    requires Inv(s) && i < |s.workers| && s.workers[i].Draining?
    ensures var s' := Apply(s, Work(i));
            if s.pool.Ready(s.now) then
              s'.workers[i].DrainRunning? && Takes(s.pool, s'.pool, s.now, s'.workers[i].task)
            else s'.workers[i].Done? && s'.pool == s.pool
  {
  }

  /** With an immediate task queued some worker can take a step. */
  lemma {:induction false} QueuedCanStep(s: State) returns (i: nat)
    requires Inv(s) && s.running && s.pool.tasks != []
    ensures Enabled(s, Work(i))
  {
    if LockFree(s) {
      i :| 0 <= i < |s.workers| && !s.workers[i].Waiting?;
    } else {
      i :| 0 <= i < |s.workers| && s.workers[i].Holds();
    }
    assert WorkerOk(s, s.workers[i]);
  }

  /** And every such step either takes the task at the front of the queue or brings the workers closer to doing so. */
  lemma {:induction false} QueuedProgress(s: State, i: nat)
    requires Inv(s) && s.running && s.pool.tasks != [] && Enabled(s, Work(i))
    ensures var s' := Apply(s, Work(i));
            if s.workers[i].AtPop? then s'.workers[i] == Running(s.pool.tasks[0]) && s'.pool.tasks == s.pool.tasks[1..]
            else s'.running && s'.pool == s.pool && Ranks(Distance, s'.workers) < Ranks(Distance, s.workers)
  {
    assert WorkerOk(s, s.workers[i]);
    match s.workers[i]
    case AtLoop => RanksUpdate(Distance, s.workers, i, AtPop);
    case Running(_) => RanksUpdate(Distance, s.workers, i, AtLoop);
    case AtLock => RanksUpdate(Distance, s.workers, i, Holding);
    case Holding => RanksUpdate(Distance, s.workers, i, AtLoop);
    case _ =>
  }
}
