/**
 What packets and lifecycle events do to controllers and slots: who gets a slot, which one, who loses it, and
 which packet a live controller goes back to.
 */
module GamepadPackets {

  import opened Wrappers
  import opened GamepadSlots

  // One packet.

  /** Only controller `k` of input `i` has changed, to slot `id`. */
  ghost predicate OnlyRow(s: Slots, s': Slots, i: InputId, k: nat, id: int) {
    && s'.ids.Keys == s.ids.Keys && i in s'.ids && k < |s'.ids[i]| && s'.ids[i][k] == id
    && (forall j :: j in s.ids && j != i ==> s'.ids[j] == s.ids[j])
    && |s'.ids[i]| == |s.ids[i]| && (forall l :: 0 <= l < |s.ids[i]| && l != k ==> s'.ids[i][l] == s.ids[i][l])
  }

  /** Only the bit of slot `id` has changed, to `taken`. */
  ghost predicate OnlyBit(s: Slots, s': Slots, id: int, taken: bool) {
    && |s'.mask| == |s.mask| && 0 <= id < |s.mask| && s'.mask[id] == taken
    && forall c :: 0 <= c < |s.mask| && c != id ==> s'.mask[c] == s.mask[c]
  }

  /** An update without the controller's bit takes its slot away, frees that slot, and does nothing else. */
  lemma {:induction false} UnpluggedGivesUp(s: Slots, waiting: seq<int>, i: InputId, k: nat, ok: bool)
    requires Partition(s, waiting) && i in s.ids && k < MAX_GAMEPADS
    ensures var s' := Handled(s, i, Update(k, false), ok);
            && OnlyRow(s, s', i, k, -1) && s'.doubleFreed == s.doubleFreed
            && if s.ids[i][k] >= 0 then OnlyBit(s, s', s.ids[i][k], false) else s'.mask == s.mask
  {
    if s.ids[i][k] >= 0 {
      assert HeldBy(s, i, k, s.ids[i][k]);
      assert Live(s, s.ids[i][k]);
    }
  }

  /** Announces controller `k`, or updates it with its bit set. */
  predicate PlugsIn(p: Packet, k: nat) {
    p == Arrival(k) || p == Update(k, true)
  }

  /**
   A controller without a slot gets the lowest free one if and only if the platform agrees and one is free, and
   nothing else changes; a controller that has a slot keeps it.
   */
  lemma {:induction false} PluggedGetsLowest(s: Slots, i: InputId, p: Packet, k: nat, ok: bool) returns (id: int)
    requires Shaped(s) && i in s.ids && k < MAX_GAMEPADS && PlugsIn(p, k)
    ensures var s' := Handled(s, i, p, ok);
            if s.ids[i][k] < 0 && ok && (exists c :: 0 <= c < MAX_GAMEPADS && !s.mask[c]) then
              && OnlyRow(s, s', i, k, id) && OnlyBit(s, s', id, true)
              && !s.mask[id] && (forall c :: 0 <= c < id ==> s.mask[c])
            else s'.ids == s.ids && s'.mask == s.mask
  {
    id := LowestFree(s.mask, 0);
    LowestFreeSpec(s.mask, 0);
    if s.ids[i][k] < 0 && id >= 0 && !ok {
      assert s.mask[id := true][id := false] == s.mask;
    }
  }

  /** Packets for controllers that do not exist change nothing. */
  lemma {:induction false} OutOfRangeIgnored(s: Slots, i: InputId, k: int, active: bool, ok: bool)
    requires Shaped(s) && i in s.ids && !(0 <= k < MAX_GAMEPADS)
    ensures Handled(s, i, Update(k, active), ok) == s == Handled(s, i, Arrival(k), ok)
  {
  }

  // Runs.

  /** What a packet says about controller `k`, if anything. */
  function Says(p: Packet, k: nat): Option<bool> {
    match p
    case Arrival(index) => if index == k then Some(true) else None
    case Update(index, active) => if index == k then Some(active) else None
  }

  /** What running the first task says about controller `k` of input `i`. */
  ghost function TaskSays(s: State, i: InputId, k: nat): Option<bool> {
    if s.tasks != [] && s.tasks[0].Handle? && s.tasks[0].input == i then Says(s.tasks[0].p, k) else None
  }

  /** Whether the last packet handled for controller `k` of input `i` had the controller's bit set. */
  ghost function LastSaid(events: seq<Event>, i: InputId, k: nat): bool
    decreases |events|
  {
    if events == [] then false
    else
      var before, e := events[..|events| - 1], events[|events| - 1];
      var said := if e.RunTask? then TaskSays(Run(before), i, k) else None;
      if said.Some? then said.value else LastSaid(before, i, k)
  }

  /** Controller `k` of input `i` has a slot. */
  predicate Plugged(s: Slots, i: InputId, k: nat) {
    i in s.ids && k < |s.ids[i]| && s.ids[i][k] >= 0
  }

  /** No controller but those of input `i` that `which` names has got a slot. */
  ghost predicate NoneElseGains(s: Slots, s': Slots, i: InputId, which: set<nat>) {
    forall j: InputId, l: nat :: Plugged(s', j, l) && !(j == i && l in which) ==> Plugged(s, j, l)
  }

  lemma ReleaseGainsNone(s: Slots, i: InputId, which: set<int>)
    requires Shaped(s) && i in s.ids
    ensures NoneElseGains(s, ReleaseAll(s, i, which), i, {})
  {
    ReleaseToClears(s, i, |s.ids[i]|, which);
  }

  lemma DestroyGainsNone(s: Slots, inputs: seq<InputId>)
    requires Shaped(s) && forall i :: i in inputs ==> i in s.ids
    ensures NoneElseGains(s, DestroyAll(s, inputs), 0, {})
  {
    forall j: InputId, l: nat | Plugged(DestroyAll(s, inputs), j, l)
      ensures Plugged(s, j, l)
    {
      DestroyAllClears(s, inputs, j);
    }
  }

  lemma HandledGains(s: Slots, i: InputId, p: Packet, ok: bool)
    requires Shaped(s) && i in s.ids
    ensures NoneElseGains(s, Handled(s, i, p, ok), i, set k | 0 <= k < MAX_GAMEPADS && PlugsIn(p, k))
  {
    if 0 <= p.index < MAX_GAMEPADS {
      LowestFreeSpec(s.mask, 0);
    }
  }

  lemma RunTaskGains(s: State, ok: bool, failing: set<int>, i: InputId, k: nat)
    requires Inv(s) && s.tasks != [] && Plugged(Apply(s, RunTask(ok, failing)).slots, i, k)
    ensures Plugged(s.slots, i, k) || TaskSays(s, i, k) == Some(true)
    ensures TaskSays(s, i, k) != Some(false)
  {
    FirstTaskFits(s);
    StepKeeps(s, RunTask(ok, failing));
    var slots := RunOne(s.slots, s.tasks[0], ok, failing);
    assert Apply(s, RunTask(ok, failing)).slots == slots && Row(slots.ids[i]);
    RunOneGains(s.slots, FreesOf(s.tasks), s.tasks[0], ok, failing, slots, i, k);
  }

  lemma RunOneGains(s: Slots, waiting: seq<int>, t: Task, ok: bool, failing: set<int>, s': Slots,
                    i: InputId, k: nat)
    requires Partition(s, waiting) && Uses(t) <= s.ids.Keys && (t.FreeSlot? ==> 0 <= t.id < MAX_GAMEPADS)
    requires s' == RunOne(s, t, ok, failing) && Plugged(s', i, k) && k < MAX_GAMEPADS
    ensures Plugged(s, i, k) || (t.Handle? && t.input == i && Says(t.p, k) == Some(true))
    ensures !(t.Handle? && t.input == i && Says(t.p, k) == Some(false))
  {
    match t
    case Handle(j, p) =>
      HandledGains(s, j, p, ok);
      if j == i && p == Update(k, false) {
        UnpluggedGivesUp(s, waiting, i, k, ok);
      }
    case Rebind(j) => ReleaseGainsNone(s, j, failing);
    case Destroy(inputs) =>
      assert forall j :: j in inputs ==> j in Uses(t);
      DestroyGainsNone(s, inputs);
    case FreeSlot(_) =>
  }

  /** No other event gives a controller a slot. */
  lemma OtherEventsGainNone(s: State, e: Event, i: InputId, k: nat)
    requires Inv(s) && !(e.RunTask? && s.tasks != []) && Plugged(Apply(s, e).slots, i, k)
    ensures Plugged(s.slots, i, k)
  {
    var slots := s.slots;
    match e
    case Connect(stream, session, failing) =>
      if stream !in s.streams && session in s.retained {
        assert s.retained[session] in s.retained.Values;
        ReleaseGainsNone(slots, s.retained[session], failing);
      }
    case TerminateAll(order) =>
      if Enumerates(order, s.retained) { DestroyGainsNone(slots, order); }
    case Terminate(session) =>
      if session in s.retained {
        assert s.retained[session] in s.retained.Values;
        DestroyGainsNone(slots, [s.retained[session]]);
      }
    case Collect(j) =>
      if j in slots.ids { ReleaseGainsNone(slots, j, ALL); }
    case Deinit(order) =>
      if Enumerates(order, s.retained) { DestroyGainsNone(slots, order); }
    case _ =>
  }

  /** A live controller is one whose last handled packet announced it or had its bit set. */
  lemma {:induction false} LiveMeansLastSaidSo(events: seq<Event>, i: InputId, k: nat)
    requires Plugged(Run(events).slots, i, k)
    ensures LastSaid(events, i, k)
    decreases |events|
  {
    if events != [] {
      var before, e := events[..|events| - 1], events[|events| - 1];
      var s := Run(before);
      if e.RunTask? && s.tasks != [] {
        RunTaskGains(s, e.ok, e.failing, i, k);
      } else {
        OtherEventsGainNone(s, e, i, k);
      }
      if Plugged(s.slots, i, k) {
        LiveMeansLastSaidSo(before, i, k);
      }
    }
  }

  // Termination.

  /** The input has no slots, or is about to lose all it has. */
  ghost predicate Ending(s: State, i: InputId) {
    Bare(s.slots, i) || exists t :: t in s.tasks && t.Destroy? && i in t.inputs
  }

  /** Terminating a session drops its input and no other. */
  lemma {:induction false} TerminateDrops(s: State, session: string)
    requires Inv(s)
    ensures Apply(s, Terminate(session)).retained == s.retained - {session}
  {
    if session !in s.retained {
      assert s.retained - {session} == s.retained;
    }
  }

  /** Terminating all, and the shutdown, drop every input. */
  lemma {:induction false} TerminateAllDrops(s: State, order: seq<InputId>)
    requires Inv(s) && Enumerates(order, s.retained)
    ensures Apply(s, TerminateAll(order)).retained == map[] == Apply(s, Deinit(order)).retained
  {
    NoValues(s.retained);
    if order == [] {
      assert forall i :: i !in s.retained.Values;
    }
  }

  lemma NoValues(m: map<string, InputId>)
    ensures m.Values == {} ==> m == map[]
  {
    if u :| u in m {
      assert m[u] in m.Values;
    }
  }

  /** Every event that drops a session's input ends the input's controllers, at once or by a task. */
  lemma {:induction false} DroppedInputsEnd(s: State, e: Event, session: string)
    requires Inv(s) && session in s.retained && session !in Apply(s, e).retained
    ensures Ending(Apply(s, e), s.retained[session])
  {
    var i := s.retained[session];
    assert i in s.retained.Values;
    match e
    case TerminateAll(order) =>
      DestroyAllClears(s.slots, order, i);
      assert s.poolRunning ==> Apply(s, e).tasks[|s.tasks|] == Destroy(order);
    case Terminate(_) =>
      DestroyAllClears(s.slots, [i], i);
      assert s.poolRunning ==> Apply(s, e).tasks[|s.tasks|] == Destroy([i]);
    case Deinit(order) => DestroyAllClears(s.slots, order, i);
    case _ =>
  }

  /** And the task, when it runs, takes them all. */
  lemma {:induction false} DestroyTaskEnds(s: State, i: InputId, ok: bool, failing: set<int>)
    requires Inv(s) && s.tasks != [] && s.tasks[0].Destroy? && i in s.tasks[0].inputs
    ensures Bare(Apply(s, RunTask(ok, failing)).slots, i)
  {
    FirstTaskFits(s);
    assert forall j :: j in s.tasks[0].inputs ==> j in Uses(s.tasks[0]);
    DestroyAllClears(s.slots, s.tasks[0].inputs, i);
  }

  /** A stream that connects for a session without an input gets a new one without slots, which is kept. */
  lemma {:induction false} NewSessionKept(s: State, stream: nat, session: string, failing: set<int>)
    requires Inv(s) && stream !in s.streams && session !in s.retained
    ensures var i, s' := s.next, Apply(s, Connect(stream, session, failing));
            && i !in s.slots.ids && s'.slots.ids.Keys == s.slots.ids.Keys + {i} && Bare(s'.slots, i)
            && s'.retained == s.retained[session := i] && s'.streams == s.streams[stream := i]
            && s'.tasks == s.tasks && s'.slots.mask == s.slots.mask
  {
  }

  /**
   A stream that connects for a kept session uses the kept input, whose controllers the platform will be asked
   to take over, or has been: those it refuses then have no slot, and all others keep theirs.
   */
  lemma {:induction false} ResumeRebinds(s: State, stream: nat, session: string, failing: set<int>)
    requires Inv(s) && stream !in s.streams && session in s.retained
    ensures var i, s' := s.retained[session], Apply(s, Connect(stream, session, failing));
            && s'.streams == s.streams[stream := i] && s'.retained == s.retained && i in s.slots.ids
            && if s.poolRunning then s'.tasks == s.tasks + [Rebind(i)] && s'.slots == s.slots
               else Rebound(s.slots, s'.slots, i, failing)
  {
    assert s.retained[session] in s.retained.Values;
    ReleaseToClears(s.slots, s.retained[session], |s.slots.ids[s.retained[session]]|, failing);
  }

  ghost predicate Rebound(s: Slots, s': Slots, i: InputId, failing: set<int>) {
    && i in s.ids && i in s'.ids && |s'.ids[i]| == |s.ids[i]|
    && forall l :: 0 <= l < |s.ids[i]| ==> s'.ids[i][l] == if l in failing then -1 else s.ids[i][l]
  }

  /** And so when the task runs. */
  lemma {:induction false} RebindTaskRebinds(s: State, i: InputId, ok: bool, failing: set<int>)
    requires Inv(s) && s.tasks != [] && s.tasks[0] == Rebind(i)
    ensures Rebound(s.slots, Apply(s, RunTask(ok, failing)).slots, i, failing)
  {
    FirstTaskFits(s);
    ReleaseToClears(s.slots, i, |s.slots.ids[i]|, failing);
  }
}
