/**
 Virtual gamepads. Sixteen platform slots are shared by the controllers of all streams. Input state outlives
 its stream until the session is terminated, and slots are given back by tasks that run later.
 */
module GamepadSlots {

  const MAX_GAMEPADS: nat := 16

  type InputId = nat

  /** The slot mask and, for each input, the slot of each of its controllers (-1: none). */
  datatype Slots = Slots(mask: seq<bool>, ids: map<InputId, seq<int>>, doubleFreed: bool)

  function Repeated<T>(x: T, n: nat): (r: seq<T>)
    ensures |r| == n && forall k :: 0 <= k < n ==> r[k] == x
  {
    if n == 0 then [] else [x] + Repeated(x, n - 1)
  }

  ghost predicate Shaped(s: Slots) {
    && |s.mask| == MAX_GAMEPADS
    && forall i :: i in s.ids ==> Row(s.ids[i])
  }

  predicate Row(row: seq<int>) {
    |row| == MAX_GAMEPADS && forall k :: 0 <= k < |row| ==> -1 <= row[k] < MAX_GAMEPADS
  }

  /** The lowest clear bit from `from` on, or -1. */
  function LowestFree(mask: seq<bool>, from: nat): int
    requires from <= |mask|
    decreases |mask| - from
  {
    if from == |mask| then -1 else if !mask[from] then from else LowestFree(mask, from + 1)
  }

  lemma {:induction false} LowestFreeSpec(mask: seq<bool>, from: nat)
    requires from <= |mask|
    ensures var id := LowestFree(mask, from);
            && (id == -1 <==> forall k :: from <= k < |mask| ==> mask[k])
            && (id != -1 ==> from <= id < |mask| && !mask[id] && forall k :: from <= k < id ==> mask[k])
    decreases |mask| - from
  {
    if from < |mask| && mask[from] {
      LowestFreeSpec(mask, from + 1);
    }
  }

  /** Clearing a bit that is already clear would be a double free. */
  function FreeId(s: Slots, id: int): Slots
    requires 0 <= id < |s.mask|
  {
    s.(mask := s.mask[id := false], doubleFreed := s.doubleFreed || !s.mask[id])
  }

  /** alloc_gamepad; `ok` is the platform's answer. */
  ghost function Allocated(s: Slots, i: InputId, index: int, ok: bool): Slots
    requires Shaped(s) && i in s.ids
  {
    if !(0 <= index < MAX_GAMEPADS) || s.ids[i][index] >= 0 then s
    else
      var id := LowestFree(s.mask, 0);
      LowestFreeSpec(s.mask, 0);
      if id < 0 then s
      else
        var taken := s.(mask := s.mask[id := true]);
        if !ok then FreeId(taken, id)
        else taken.(ids := s.ids[i := s.ids[i][index := id]])
  }

  /** A controller gives up its slot: removed, destroyed, or not rebound. */
  ghost function Release(s: Slots, i: InputId, k: nat): Slots
    requires Shaped(s) && i in s.ids && k < MAX_GAMEPADS
  {
    if s.ids[i][k] < 0 then s
    else FreeId(s, s.ids[i][k]).(ids := s.ids[i := s.ids[i][k := -1]])
  }

  /** Of the first `n` controllers, those in `which` give up their slots, in order. */
  ghost function ReleaseTo(s: Slots, i: InputId, n: nat, which: set<int>): (r: Slots)
    requires Shaped(s) && i in s.ids && n <= MAX_GAMEPADS
    ensures Shaped(r) && r.ids.Keys == s.ids.Keys
  {
    if n == 0 then s
    else
      var r := ReleaseTo(s, i, n - 1, which);
      if n - 1 in which then Release(r, i, n - 1) else r
  }

  ghost function ReleaseAll(s: Slots, i: InputId, which: set<int>): (r: Slots)
    requires Shaped(s) && i in s.ids
    ensures Shaped(r) && r.ids.Keys == s.ids.Keys
  {
    ReleaseTo(s, i, |s.ids[i]|, which)
  }

  const ALL: set<int> := set k | 0 <= k < MAX_GAMEPADS

  ghost function DestroyAll(s: Slots, inputs: seq<InputId>): (r: Slots)
    requires Shaped(s) && forall i :: i in inputs ==> i in s.ids
    ensures Shaped(r) && r.ids.Keys == s.ids.Keys
    decreases |inputs|
  {
    if inputs == [] then s else DestroyAll(ReleaseAll(s, inputs[0], ALL), inputs[1..])
  }

  /** What a destroyed input's controllers still own. */
  function Owned(row: seq<int>): seq<int> {
    if row == [] then [] else (if row[0] >= 0 then [row[0]] else []) + Owned(row[1..])
  }

  // Ownership.

  ghost predicate HeldBy(s: Slots, i: InputId, k: int, id: int) {
    i in s.ids && 0 <= k < |s.ids[i]| && s.ids[i][k] == id
  }

  ghost predicate Live(s: Slots, id: int) {
    exists i, k :: HeldBy(s, i, k, id)
  }

  predicate NoDup(q: seq<int>) {
    forall a, b :: 0 <= a < b < |q| ==> q[a] != q[b]
  }

  ghost predicate NoSharing(s: Slots) {
    forall id, i, k, j, l :: id >= 0 && HeldBy(s, i, k, id) && HeldBy(s, j, l, id) ==> i == j && k == l
  }

  /** The mask is the disjoint union of the slots of live controllers and those waiting to be freed. */
  ghost predicate Partition(s: Slots, waiting: seq<int>) {
    && Shaped(s)
    && NoSharing(s)
    && NoDup(waiting)
    && (forall a :: 0 <= a < |waiting| ==> 0 <= waiting[a] < MAX_GAMEPADS)
    && (forall id :: id in waiting ==> !Live(s, id))
    && (forall id :: 0 <= id < MAX_GAMEPADS ==> (s.mask[id] <==> Live(s, id) || id in waiting))
    && !s.doubleFreed
  }

  lemma LiveAfter(s: Slots, s': Slots, i: InputId, k: nat)
    requires i in s.ids && k < |s.ids[i]| && i in s'.ids && k < |s'.ids[i]|
    requires s'.ids == s.ids[i := s.ids[i][k := s'.ids[i][k]]]
    requires s.ids[i][k] != s'.ids[i][k] && (s.ids[i][k] >= 0 ==> NoSharing(s))
    ensures forall id :: 0 <= id && id != s.ids[i][k] && id != s'.ids[i][k] ==> (Live(s, id) <==> Live(s', id))
    ensures Live(s', s'.ids[i][k])
    ensures s.ids[i][k] >= 0 ==> !Live(s', s.ids[i][k])
  {
    forall id | 0 <= id && id != s.ids[i][k] && id != s'.ids[i][k] && Live(s, id)
      ensures Live(s', id)
    {
      var j, l :| HeldBy(s, j, l, id);
      assert HeldBy(s', j, l, id);
    }
    forall id | 0 <= id && id != s.ids[i][k] && id != s'.ids[i][k] && Live(s', id)
      ensures Live(s, id)
    {
      var j, l :| HeldBy(s', j, l, id);
      assert HeldBy(s, j, l, id);
    }
    assert HeldBy(s', i, k, s'.ids[i][k]);
    if s.ids[i][k] >= 0 && Live(s', s.ids[i][k]) {
      var j, l :| HeldBy(s', j, l, s.ids[i][k]);
      assert HeldBy(s, j, l, s.ids[i][k]) && HeldBy(s, i, k, s.ids[i][k]);
      assert false;
    }
  }

  lemma AllocKeeps(s: Slots, waiting: seq<int>, i: InputId, index: int, ok: bool)
    requires Partition(s, waiting) && i in s.ids
    ensures Partition(Allocated(s, i, index, ok), waiting)
  {
    LowestFreeSpec(s.mask, 0);
    var id, s' := LowestFree(s.mask, 0), Allocated(s, i, index, ok);
    if 0 <= index < MAX_GAMEPADS && s.ids[i][index] < 0 && id >= 0 {
      if ok {
        LiveAfter(s, s', i, index);
        AllocNoSharing(s, s', i, index, id);
      } else {
        assert s'.mask == s.mask;
      }
    }
  }

  lemma AllocNoSharing(s: Slots, s': Slots, i: InputId, k: nat, id: int)
    requires NoSharing(s) && !Live(s, id) && i in s.ids && k < |s.ids[i]|
    requires s'.ids == s.ids[i := s.ids[i][k := id]]
    ensures NoSharing(s')
  {
    forall x, j, l | x >= 0 && HeldBy(s', j, l, x) && !(j == i && l == k)
      ensures x != id && HeldBy(s, j, l, x)
    {
      assert HeldBy(s, j, l, x);
    }
  }

  lemma ReleaseKeeps(s: Slots, waiting: seq<int>, i: InputId, k: nat)
    requires Partition(s, waiting) && i in s.ids && k < MAX_GAMEPADS
    ensures Partition(Release(s, i, k), waiting)
  {
    var id := s.ids[i][k];
    if id >= 0 {
      var s' := Release(s, i, k);
      assert HeldBy(s, i, k, id);
      LiveAfter(s, s', i, k);
      forall x, j, l | x >= 0 && HeldBy(s', j, l, x)
        ensures HeldBy(s, j, l, x)
      {
      }
    }
  }

  lemma {:induction false} ReleaseToKeeps(s: Slots, waiting: seq<int>, i: InputId, n: nat, which: set<int>)
    requires Partition(s, waiting) && i in s.ids && n <= MAX_GAMEPADS
    ensures Partition(ReleaseTo(s, i, n, which), waiting)
  {
    if n > 0 {
      ReleaseToKeeps(s, waiting, i, n - 1, which);
      ReleaseKeeps(ReleaseTo(s, i, n - 1, which), waiting, i, n - 1);
    }
  }

  lemma {:induction false} DestroyAllKeeps(s: Slots, waiting: seq<int>, inputs: seq<InputId>)
    requires Partition(s, waiting) && forall i :: i in inputs ==> i in s.ids
    ensures Partition(DestroyAll(s, inputs), waiting)
    decreases |inputs|
  {
    if inputs != [] {
      ReleaseToKeeps(s, waiting, inputs[0], |s.ids[inputs[0]]|, ALL);
      DestroyAllKeeps(ReleaseAll(s, inputs[0], ALL), waiting, inputs[1..]);
    }
  }

  /** What a loop over an input's controllers leaves: exactly those in `which` have given up their slots. */
  lemma {:induction false} ReleaseToClears(s: Slots, i: InputId, n: nat, which: set<int>)
    requires Shaped(s) && i in s.ids && n <= MAX_GAMEPADS
    ensures var r := ReleaseTo(s, i, n, which);
            && (forall l :: 0 <= l < MAX_GAMEPADS ==>
                  r.ids[i][l] == if l < n && l in which && s.ids[i][l] >= 0 then -1 else s.ids[i][l])
            && (forall j :: j in s.ids && j != i ==> r.ids[j] == s.ids[j])
  {
    if n > 0 {
      ReleaseToClears(s, i, n - 1, which);
    }
  }

  ghost predicate Bare(s: Slots, i: InputId) {
    i in s.ids && |s.ids[i]| == MAX_GAMEPADS && forall l :: 0 <= l < MAX_GAMEPADS ==> s.ids[i][l] == -1
  }

  lemma DestroyBares(s: Slots, i: InputId)
    requires Shaped(s) && i in s.ids
    ensures Bare(ReleaseAll(s, i, ALL), i)
  {
    ReleaseToClears(s, i, |s.ids[i]|, ALL);
    var row := ReleaseAll(s, i, ALL).ids[i];
    forall l | 0 <= l < MAX_GAMEPADS
      ensures row[l] == -1
    {
      assert l in ALL;
    }
  }

  /** Destroying inputs takes every slot from them and none from the others. */
  lemma {:induction false} DestroyAllClears(s: Slots, inputs: seq<InputId>, j: InputId)
    requires Shaped(s) && j in s.ids && forall i :: i in inputs ==> i in s.ids
    ensures j in inputs || Bare(s, j) ==> Bare(DestroyAll(s, inputs), j)
    ensures j !in inputs ==> DestroyAll(s, inputs).ids[j] == s.ids[j]
    decreases |inputs|
  {
    if inputs != [] {
      var r := ReleaseAll(s, inputs[0], ALL);
      assert inputs == [inputs[0]] + inputs[1..];
      DestroyBares(s, inputs[0]);
      ReleaseToClears(s, inputs[0], |s.ids[inputs[0]]|, ALL);
      DestroyAllClears(r, inputs[1..], j);
    }
  }

  // The last reference to an input goes away.

  function RemoveInput(s: Slots, i: InputId): Slots {
    s.(ids := s.ids - {i})
  }

  predicate PadsDistinct(row: seq<int>) {
    forall a, b :: 0 <= a < b < |row| && row[a] >= 0 ==> row[a] != row[b]
  }

  lemma {:induction false} OwnedSpec(row: seq<int>)
    ensures forall x :: x in Owned(row) <==> x >= 0 && x in row
    ensures PadsDistinct(row) ==> NoDup(Owned(row))
  {
    if row != [] {
      OwnedSpec(row[1..]);
      assert row == [row[0]] + row[1..];
      if PadsDistinct(row) {
        assert PadsDistinct(row[1..]);
        if row[0] >= 0 {
          assert forall b :: 0 <= b < |row[1..]| ==> row[1..][b] == row[b + 1] != row[0];
          NoDupConcat([row[0]], Owned(row[1..]));
        } else {
          assert [] + Owned(row[1..]) == Owned(row[1..]);
        }
      }
    }
  }

  lemma {:induction false} OwnedNone(row: seq<int>)
    requires forall l :: 0 <= l < |row| ==> row[l] == -1
    ensures Owned(row) == []
  {
    if row != [] {
      OwnedNone(row[1..]);
    }
  }

  lemma CollectLive(s: Slots, i: InputId)
    requires Shaped(s) && NoSharing(s) && i in s.ids
    ensures forall id :: 0 <= id ==> (Live(RemoveInput(s, i), id) <==> Live(s, id) && id !in s.ids[i])
  {
    var s' := RemoveInput(s, i);
    forall id | 0 <= id && Live(s, id) && id !in s.ids[i]
      ensures Live(s', id)
    {
      var j, l :| HeldBy(s, j, l, id);
      assert HeldBy(s', j, l, id);
    }
    forall id | 0 <= id && Live(s', id)
      ensures Live(s, id) && id !in s.ids[i]
    {
      var j, l :| HeldBy(s', j, l, id);
      assert HeldBy(s, j, l, id);
      if id in s.ids[i] {
        var k :| 0 <= k < |s.ids[i]| && s.ids[i][k] == id;
        assert HeldBy(s, i, k, id);
        assert false;
      }
    }
  }

  lemma NoDupConcat(a: seq<int>, b: seq<int>)
    requires NoDup(a) && NoDup(b) && forall x :: x in a ==> x !in b
    ensures NoDup(a + b)
  {
    forall p, q | 0 <= p < q < |a + b|
      ensures (a + b)[p] != (a + b)[q]
    {
      if p < |a| <= q {
        assert a[p] in a && b[q - |a|] in b;
      }
    }
  }

  lemma RowDistinct(s: Slots, i: InputId)
    requires Shaped(s) && NoSharing(s) && i in s.ids
    ensures NoDup(Owned(s.ids[i])) && forall x :: x in Owned(s.ids[i]) ==> 0 <= x < MAX_GAMEPADS && Live(s, x)
  {
    var row := s.ids[i];
    OwnedSpec(row);
    forall a, b | 0 <= a < b < |row| && row[a] >= 0
      ensures row[a] != row[b]
    {
      assert HeldBy(s, i, a, row[a]) && HeldBy(s, i, b, row[b]);
    }
    assert PadsDistinct(row);
    forall x | x in Owned(row)
      ensures 0 <= x < MAX_GAMEPADS && Live(s, x)
    {
      var k :| 0 <= k < |row| && row[k] == x;
      assert HeldBy(s, i, k, x);
    }
  }

  /** The destructor only queues the slots to be freed. */
  lemma CollectKeeps(s: Slots, waiting: seq<int>, i: InputId)
    requires Partition(s, waiting) && i in s.ids
    ensures Partition(RemoveInput(s, i), waiting + Owned(s.ids[i]))
  {
    var s' := RemoveInput(s, i);
    CollectLive(s, i);
    OwnedSpec(s.ids[i]);
    RowDistinct(s, i);
    NoDupConcat(waiting, Owned(s.ids[i]));
    forall a | 0 <= a < |waiting + Owned(s.ids[i])|
      ensures 0 <= (waiting + Owned(s.ids[i]))[a] < MAX_GAMEPADS
    {
      if a >= |waiting| {
        assert Owned(s.ids[i])[a - |waiting|] in Owned(s.ids[i]);
      }
    }
    forall id, j, k, l, m | id >= 0 && HeldBy(s', j, k, id) && HeldBy(s', l, m, id)
      ensures j == l && k == m
    {
      assert HeldBy(s, j, k, id) && HeldBy(s, l, m, id);
    }
  }

  lemma RunFreeKeeps(s: Slots, waiting: seq<int>)
    requires waiting != [] && Partition(s, waiting)
    ensures Partition(FreeId(s, waiting[0]), waiting[1..])
  {
    var s' := FreeId(s, waiting[0]);
    assert waiting[0] in waiting;
    forall id: int
      ensures Live(s', id) == Live(s, id)
    {
      if Live(s, id) {
        var j, l :| HeldBy(s, j, l, id);
        assert HeldBy(s', j, l, id);
      }
      if Live(s', id) {
        var j, l :| HeldBy(s', j, l, id);
        assert HeldBy(s, j, l, id);
      }
    }
    forall id, j, k, l, m | id >= 0 && HeldBy(s', j, k, id) && HeldBy(s', l, m, id)
      ensures j == l && k == m
    {
      assert HeldBy(s, j, k, id) && HeldBy(s, l, m, id);
    }
    assert waiting == [waiting[0]] + waiting[1..];
    assert waiting[0] !in waiting[1..];
  }

  // Runs: streams connect and leave, packets and lifecycle work are queued, one worker runs the queue.

  datatype Packet = Arrival(index: int) | Update(index: int, active: bool)

  datatype Task = Handle(input: InputId, p: Packet) | Rebind(input: InputId) | Destroy(inputs: seq<InputId>)
      | FreeSlot(id: int)

  /** `retained` keeps an input per session; `streams` are the inputs that connected streams refer to. */
  datatype State = State(slots: Slots, tasks: seq<Task>, retained: map<string, InputId>, streams: map<nat, InputId>,
                         poolRunning: bool, next: InputId)

  const START: State := State(Slots(Repeated(false, MAX_GAMEPADS), map[], false), [], map[], map[], true, 0)

  datatype Event =
    | Connect(stream: nat, session: string, failing: set<int>)  // controllers that the platform will not rebind
    | Disconnect(stream: nat)
    | Post(stream: nat, p: Packet)
    | RunTask(ok: bool, failing: set<int>)                      // the platform's answers
    | TerminateAll(order: seq<InputId>)                         // the order in which the map is walked
    | Terminate(session: string)
    | Collect(input: InputId)                                   // the last reference has gone
    | Stop
    | Start
    | Deinit(order: seq<InputId>)

  function FreesOf(tasks: seq<Task>): seq<int> {
    if tasks == [] then [] else (if tasks[0].FreeSlot? then [tasks[0].id] else []) + FreesOf(tasks[1..])
  }

  function FreeTasks(ids: seq<int>): seq<Task> {
    if ids == [] then [] else [FreeSlot(ids[0])] + FreeTasks(ids[1..])
  }

  function Uses(t: Task): set<InputId> {
    match t
    case Handle(i, _) => {i}
    case Rebind(i) => {i}
    case Destroy(inputs) => set i | i in inputs
    case FreeSlot(_) => {}
  }

  ghost predicate TasksKnown(tasks: seq<Task>, known: set<InputId>) {
    forall t :: t in tasks ==> Uses(t) <= known
  }

  ghost predicate Inv(s: State) {
    && Partition(s.slots, FreesOf(s.tasks))
    && TasksKnown(s.tasks, s.slots.ids.Keys)
    && s.retained.Values <= s.slots.ids.Keys
    && s.streams.Values <= s.slots.ids.Keys
    && (forall i :: i in s.slots.ids ==> i < s.next)
  }

  ghost predicate Unreferenced(s: State, i: InputId) {
    && i !in s.retained.Values && i !in s.streams.Values
    && forall t :: t in s.tasks ==> i !in Uses(t)
  }

  ghost predicate Enumerates(order: seq<InputId>, retained: map<string, InputId>) {
    NoDup(order) && forall i :: i in order <==> i in retained.Values
  }

  ghost function RebindInput(s: Slots, i: InputId, failing: set<int>): Slots
    requires Shaped(s) && i in s.ids
  {
    ReleaseAll(s, i, failing)
  }

  /** alloc, for a session whose input is retained */
  ghost function Resume(s: State, stream: nat, i: InputId, failing: set<int>): State
    requires Shaped(s.slots) && i in s.slots.ids
  {
    if s.poolRunning then s.(streams := s.streams[stream := i], tasks := s.tasks + [Rebind(i)])
    else s.(streams := s.streams[stream := i], slots := RebindInput(s.slots, i, failing))
  }

  /** alloc, for a new session */
  function Begin(s: State, stream: nat, session: string): State {
    s.(slots := AddInput(s.slots, s.next), retained := s.retained[session := s.next],
       streams := s.streams[stream := s.next], next := s.next + 1)
  }

  function AddInput(s: Slots, i: InputId): Slots {
    s.(ids := s.ids[i := Repeated(-1, MAX_GAMEPADS)])
  }

  ghost function Handled(s: Slots, i: InputId, p: Packet, ok: bool): Slots
    requires Shaped(s) && i in s.ids
  {
    match p
    case Arrival(index) => Allocated(s, i, index, ok)
    case Update(index, active) =>
      if !(0 <= index < MAX_GAMEPADS) then s
      else if active && s.ids[i][index] < 0 then Allocated(s, i, index, ok)
      else if !active && s.ids[i][index] >= 0 then Release(s, i, index)
      else s
  }

  ghost function RunOne(s: Slots, t: Task, ok: bool, failing: set<int>): Slots
    requires Shaped(s) && Uses(t) <= s.ids.Keys && (t.FreeSlot? ==> 0 <= t.id < MAX_GAMEPADS)
  {
    match t
    case Handle(i, p) => Handled(s, i, p, ok)
    case Rebind(i) => RebindInput(s, i, failing)
    case Destroy(inputs) => assert forall i :: i in inputs ==> i in Uses(t); DestroyAll(s, inputs)
    case FreeSlot(id) => FreeId(s, id)
  }

  /** dispatch_input_task of destroy_gamepads */
  ghost function Dispatch(s: State, inputs: seq<InputId>): State
    requires Shaped(s.slots) && forall i :: i in inputs ==> i in s.slots.ids
  {
    if s.poolRunning then s.(tasks := s.tasks + [Destroy(inputs)])
    else s.(slots := DestroyAll(s.slots, inputs))
  }

  /** The destructors of an input's controllers. */
  ghost function CollectInput(s: State, i: InputId): State
    requires Inv(s) && i in s.slots.ids
  {
    if s.poolRunning then
      s.(slots := RemoveInput(s.slots, i), tasks := s.tasks + FreeTasks(Owned(s.slots.ids[i])))
    else
      var freed := ReleaseAll(s.slots, i, ALL);
      s.(slots := RemoveInput(freed, i))
  }

  lemma FreesOfCons(tasks: seq<Task>)
    requires tasks != []
    ensures tasks[0].FreeSlot? ==>
              FreesOf(tasks) == [tasks[0].id] + FreesOf(tasks[1..]) && FreesOf(tasks)[1..] == FreesOf(tasks[1..])
    ensures !tasks[0].FreeSlot? ==> FreesOf(tasks) == FreesOf(tasks[1..])
  {
    var rest := FreesOf(tasks[1..]);
    assert [] + rest == rest;
    if tasks[0].FreeSlot? {
      assert ([tasks[0].id] + rest)[1..] == rest;
    }
  }

  lemma FirstTaskFits(s: State)
    requires Inv(s) && s.tasks != []
    ensures Uses(s.tasks[0]) <= s.slots.ids.Keys
    ensures s.tasks[0].FreeSlot? ==> 0 <= s.tasks[0].id < MAX_GAMEPADS && FreesOf(s.tasks)[0] == s.tasks[0].id
    ensures FreesOf(s.tasks[1..]) == if s.tasks[0].FreeSlot? then FreesOf(s.tasks)[1..] else FreesOf(s.tasks)
  {
    assert s.tasks[0] in s.tasks;
    FreesOfCons(s.tasks);
    assert s.tasks[0].FreeSlot? ==> FreesOf(s.tasks)[0] == s.tasks[0].id;
  }

  ghost function Apply(s: State, e: Event): State
    requires Inv(s)
  {
    match e
    case Connect(stream, session, failing) =>
      if stream in s.streams then s
      else if session !in s.retained then Begin(s, stream, session)
      else
        assert s.retained[session] in s.retained.Values;
        Resume(s, stream, s.retained[session], failing)
    case Disconnect(stream) => s.(streams := s.streams - {stream})
    case Post(stream, p) => if stream in s.streams then s.(tasks := s.tasks + [Handle(s.streams[stream], p)]) else s
    case RunTask(ok, failing) =>
      if s.tasks == [] then s
      else
        FirstTaskFits(s);
        s.(slots := RunOne(s.slots, s.tasks[0], ok, failing), tasks := s.tasks[1..])
    case TerminateAll(order) =>
      if order == [] || !Enumerates(order, s.retained) then s else Dispatch(s.(retained := map[]), order)
    case Terminate(session) =>
      if session !in s.retained then s
      else Dispatch(s.(retained := s.retained - {session}), [s.retained[session]])
    case Collect(i) => if i in s.slots.ids && Unreferenced(s, i) then CollectInput(s, i) else s
    case Stop => s.(poolRunning := false)
    case Start => s.(poolRunning := true)
    case Deinit(order) =>
      if !Enumerates(order, s.retained) then s else s.(retained := map[], slots := DestroyAll(s.slots, order))
  }

  // Tasks and the slots they will free.

  lemma {:induction false} FreesOfAppend(a: seq<Task>, b: seq<Task>)
    ensures FreesOf(a + b) == FreesOf(a) + FreesOf(b)
  {
    if a == [] {
      assert a + b == b;
    } else {
      FreesOfAppend(a[1..], b);
      assert (a + b)[1..] == a[1..] + b;
    }
  }

  lemma {:induction false} FreesOfFreeTasks(ids: seq<int>)
    ensures FreesOf(FreeTasks(ids)) == ids
  {
    if ids != [] {
      FreesOfFreeTasks(ids[1..]);
      assert FreeTasks(ids)[1..] == FreeTasks(ids[1..]);
    }
  }

  lemma AppendOther(tasks: seq<Task>, t: Task, known: set<InputId>)
    requires !t.FreeSlot? && TasksKnown(tasks, known) && Uses(t) <= known
    ensures FreesOf(tasks + [t]) == FreesOf(tasks) && TasksKnown(tasks + [t], known)
  {
    FreesOfAppend(tasks, [t]);
    assert FreesOf([t]) == [];
    assert FreesOf(tasks) + [] == FreesOf(tasks);
  }

  lemma NewInputKeeps(s: Slots, waiting: seq<int>, i: InputId)
    requires Partition(s, waiting) && i !in s.ids
    ensures Partition(AddInput(s, i), waiting)
  {
    var s' := AddInput(s, i);
    forall id | 0 <= id
      ensures Live(s', id) <==> Live(s, id)
    {
      if Live(s, id) {
        var j, l :| HeldBy(s, j, l, id);
        assert HeldBy(s', j, l, id);
      }
      if Live(s', id) {
        var j, l :| HeldBy(s', j, l, id);
        assert HeldBy(s, j, l, id);
      }
    }
    forall id, j, k, l, m | id >= 0 && HeldBy(s', j, k, id) && HeldBy(s', l, m, id)
      ensures j == l && k == m
    {
      assert HeldBy(s, j, k, id) && HeldBy(s, l, m, id);
    }
  }

  lemma HandleKeeps(s: Slots, waiting: seq<int>, i: InputId, p: Packet, ok: bool)
    requires Partition(s, waiting) && i in s.ids
    ensures Partition(Handled(s, i, p, ok), waiting) && Handled(s, i, p, ok).ids.Keys == s.ids.Keys
  {
    AllocKeeps(s, waiting, i, p.index, ok);
    if 0 <= p.index < MAX_GAMEPADS {
      ReleaseKeeps(s, waiting, i, p.index);
    }
  }

  lemma ResumeKeeps(s: State, stream: nat, i: InputId, failing: set<int>)
    requires Inv(s) && i in s.slots.ids
    ensures Inv(Resume(s, stream, i, failing))
  {
    AppendOther(s.tasks, Rebind(i), s.slots.ids.Keys);
    ReleaseToKeeps(s.slots, FreesOf(s.tasks), i, |s.slots.ids[i]|, failing);
  }

  lemma {:induction false} RunTaskKeeps(s: State, ok: bool, failing: set<int>)
    requires Inv(s) && s.tasks != []
    ensures Inv(Apply(s, RunTask(ok, failing)))
  {
    FirstTaskFits(s);
    assert forall u :: u in s.tasks[1..] ==> u in s.tasks;
    RunOneKeeps(s.slots, FreesOf(s.tasks), s.tasks[0], ok, failing);
  }

  lemma RunOneKeeps(s: Slots, waiting: seq<int>, t: Task, ok: bool, failing: set<int>)
    requires Partition(s, waiting) && Uses(t) <= s.ids.Keys
    requires t.FreeSlot? ==> 0 <= t.id < MAX_GAMEPADS && waiting != [] && waiting[0] == t.id
    ensures var s' := RunOne(s, t, ok, failing);
            s'.ids.Keys == s.ids.Keys && Partition(s', if t.FreeSlot? then waiting[1..] else waiting)
  {
    match t
    case Handle(i, p) => HandleKeeps(s, waiting, i, p, ok);
    case Rebind(i) => ReleaseToKeeps(s, waiting, i, |s.ids[i]|, failing);
    case Destroy(inputs) =>
      assert forall i :: i in inputs ==> i in Uses(t);
      DestroyAllKeeps(s, waiting, inputs);
    case FreeSlot(id) => RunFreeKeeps(s, waiting);
  }

  lemma DispatchKeeps(s: State, inputs: seq<InputId>)
    requires Inv(s) && forall i :: i in inputs ==> i in s.slots.ids
    ensures Inv(Dispatch(s, inputs))
  {
    AppendOther(s.tasks, Destroy(inputs), s.slots.ids.Keys);
    DestroyAllKeeps(s.slots, FreesOf(s.tasks), inputs);
  }

  /** With the pool stopped the destructors free the slots themselves. */
  lemma CollectNowKeeps(s: Slots, waiting: seq<int>, i: InputId)
    requires Partition(s, waiting) && i in s.ids
    ensures Partition(RemoveInput(ReleaseAll(s, i, ALL), i), waiting)
  {
    var freed := ReleaseAll(s, i, ALL);
    ReleaseToKeeps(s, waiting, i, |s.ids[i]|, ALL);
    DestroyBares(s, i);
    CollectKeeps(freed, waiting, i);
    OwnedNone(freed.ids[i]);
    assert waiting + [] == waiting;
  }

  lemma TasksStillKnown(tasks: seq<Task>, known: set<InputId>, i: InputId, ids: seq<int>)
    requires TasksKnown(tasks, known) && forall t :: t in tasks ==> i !in Uses(t)
    ensures TasksKnown(tasks, known - {i}) && TasksKnown(tasks + FreeTasks(ids), known - {i})
  {
    FreeTasksOnly(ids);
  }

  lemma {:induction false} FreeTasksOnly(ids: seq<int>)
    ensures forall t :: t in FreeTasks(ids) ==> t.FreeSlot?
  {
    if ids != [] {
      FreeTasksOnly(ids[1..]);
    }
  }

  lemma CollectInputKeeps(s: State, i: InputId)
    requires Inv(s) && i in s.slots.ids && Unreferenced(s, i)
    ensures Inv(CollectInput(s, i))
  {
    var waiting, owned := FreesOf(s.tasks), Owned(s.slots.ids[i]);
    TasksStillKnown(s.tasks, s.slots.ids.Keys, i, owned);
    if s.poolRunning {
      CollectKeeps(s.slots, waiting, i);
      FreesOfAppend(s.tasks, FreeTasks(owned));
      FreesOfFreeTasks(owned);
    } else {
      CollectNowKeeps(s.slots, waiting, i);
    }
  }

  lemma StepKeeps(s: State, e: Event)
    requires Inv(s)
    ensures Inv(Apply(s, e))
  {
    match e
    case Connect(stream, session, failing) =>
      NewInputKeeps(s.slots, FreesOf(s.tasks), s.next);
      if session in s.retained {
        assert s.retained[session] in s.retained.Values;
        ResumeKeeps(s, stream, s.retained[session], failing);
      }
    case Disconnect(stream) =>
      assert (s.streams - {stream}).Values <= s.streams.Values;
    case Post(stream, p) =>
      if stream in s.streams {
        assert s.streams[stream] in s.streams.Values;
        AppendOther(s.tasks, Handle(s.streams[stream], p), s.slots.ids.Keys);
      }
    case RunTask(ok, failing) =>
      if s.tasks != [] {
        RunTaskKeeps(s, ok, failing);
      }
    case TerminateAll(order) =>
      if order != [] && Enumerates(order, s.retained) {
        DispatchKeeps(s.(retained := map[]), order);
      }
    case Terminate(session) =>
      if session in s.retained {
        assert s.retained[session] in s.retained.Values;
        assert (s.retained - {session}).Values <= s.retained.Values;
        DispatchKeeps(s.(retained := s.retained - {session}), [s.retained[session]]);
      }
    case Collect(i) =>
      if i in s.slots.ids && Unreferenced(s, i) {
        CollectInputKeeps(s, i);
      }
    case Deinit(order) =>
      if Enumerates(order, s.retained) {
        DestroyAllKeeps(s.slots, FreesOf(s.tasks), order);
      }
    case _ =>
  }

  lemma StartOk()
    ensures Inv(START)
  {
    assert forall id :: !Live(START.slots, id);
  }

  /** All states reached along a run; the invariant travels with the run. */
  ghost function Run(events: seq<Event>): (s: State)
    ensures Inv(s)
    decreases |events|
  {
    if events == [] then
      StartOk(); START
    else
      StepKeeps(Run(events[..|events| - 1]), events[|events| - 1]);
      Apply(Run(events[..|events| - 1]), events[|events| - 1])
  }

  /**
   In every reachable state a slot is marked just when one live controller owns it or one queued task will
   free it, never both and never two; and no slot was ever freed that was not marked.
   */
  lemma {:induction false} SlotsOwnedOnce(events: seq<Event>, id: int)
    requires 0 <= id < MAX_GAMEPADS
    ensures var s := Run(events);
            && !s.slots.doubleFreed
            && (s.slots.mask[id] <==> Live(s.slots, id) || FreeSlot(id) in s.tasks)
            && !(Live(s.slots, id) && FreeSlot(id) in s.tasks)
            && (forall i, k, j, l :: HeldBy(s.slots, i, k, id) && HeldBy(s.slots, j, l, id) ==> i == j && k == l)
            && (forall a, b :: 0 <= a < b < |s.tasks| && s.tasks[a] == FreeSlot(id) ==> s.tasks[b] != FreeSlot(id))
  {
    var s := Run(events);
    FreesOfSpec(s.tasks, id);
  }

  lemma {:induction false} FreesOfSpec(tasks: seq<Task>, id: int)
    ensures id in FreesOf(tasks) <==> FreeSlot(id) in tasks
    ensures NoDup(FreesOf(tasks)) ==>
              forall a, b :: 0 <= a < b < |tasks| && tasks[a] == FreeSlot(id) ==> tasks[b] != FreeSlot(id)
  {
    if tasks != [] {
      FreesOfSpec(tasks[1..], id);
      assert tasks == [tasks[0]] + tasks[1..];
      if NoDup(FreesOf(tasks)) {
        FreesOfTail(tasks);
        forall a, b | 0 <= a < b < |tasks| && tasks[a] == FreeSlot(id)
          ensures tasks[b] != FreeSlot(id)
        {
          assert tasks[1..][b - 1] == tasks[b];
          if a > 0 {
            assert tasks[1..][a - 1] == tasks[a];
          }
        }
      }
    }
  }

  lemma NoDupTail(q: seq<int>)
    requires q != [] && NoDup(q)
    ensures NoDup(q[1..]) && q[0] !in q[1..]
  {
  }

  lemma FreesOfTail(tasks: seq<Task>)
    requires tasks != [] && NoDup(FreesOf(tasks))
    ensures NoDup(FreesOf(tasks[1..]))
    ensures tasks[0].FreeSlot? ==> tasks[0].id !in FreesOf(tasks[1..])
  {
    FreesOfCons(tasks);
    if tasks[0].FreeSlot? {
      NoDupTail(FreesOf(tasks));
    }
  }

  /** Nothing leaks: once every input is gone and the queue has run, all slots are free. */
  lemma {:induction false} NothingLeaks(events: seq<Event>)
    requires Run(events).tasks == [] && Run(events).slots.ids == map[]
    ensures forall id :: 0 <= id < MAX_GAMEPADS ==> !Run(events).slots.mask[id]
  {
    assert forall id :: !Live(Run(events).slots, id);
  }

  /** A controller gets a slot if the platform agrees and any of the sixteen is neither live nor waiting to be freed. */
  lemma AllocSucceedsIff(s: Slots, waiting: seq<int>, i: InputId, index: int, ok: bool)
    requires Partition(s, waiting) && i in s.ids && 0 <= index < MAX_GAMEPADS && s.ids[i][index] < 0
    ensures (Allocated(s, i, index, ok).ids[i][index] >= 0) <==>
            (ok && exists id :: 0 <= id < MAX_GAMEPADS && !Live(s, id) && id !in waiting)
  {
    LowestFreeSpec(s.mask, 0);
    var id := LowestFree(s.mask, 0);
    if id >= 0 {
      assert 0 <= id < MAX_GAMEPADS && !Live(s, id) && id !in waiting;
    }
  }

  /** One more turn of the loop over the inputs to destroy. */
  lemma {:induction false} DestroyAllStep(s: Slots, inputs: seq<InputId>, n: nat)
    requires Shaped(s) && n < |inputs| && forall i :: i in inputs ==> i in s.ids
    ensures inputs[n] in DestroyAll(s, inputs[..n]).ids
    ensures DestroyAll(s, inputs[..n + 1]) == ReleaseAll(DestroyAll(s, inputs[..n]), inputs[n], ALL)
    decreases |inputs|
  {
    if n > 0 {
      assert inputs[..n][1..] == inputs[1..][..n - 1] && inputs[..n + 1][1..] == inputs[1..][..n];
      DestroyAllStep(ReleaseAll(s, inputs[0], ALL), inputs[1..], n - 1);
    } else {
      assert inputs[..1] == [inputs[0]] && inputs[..0] == [] && inputs[..1][1..] == [];
    }
  }

  class Gamepads {
    var mask: seq<bool>
    var ids: map<InputId, seq<int>>
    ghost var doubleFreed: bool
    var tasks: seq<Task>
    var retained: map<string, InputId>
    var streams: map<nat, InputId>
    var poolRunning: bool
    var next: InputId

    ghost function Pads(): Slots
      reads this
    {
      Slots(mask, ids, doubleFreed)
    }

    ghost function View(): State
      reads this
    {
      State(Pads(), tasks, retained, streams, poolRunning, next)
    }

    constructor ()
      ensures View() == START
    {
      mask, ids, doubleFreed := Repeated(false, MAX_GAMEPADS), map[], false;
      tasks, retained, streams, poolRunning, next := [], map[], map[], true, 0;
    }

    /** alloc_id */
    method AllocId() returns (id: int)
      modifies `mask
      ensures id == LowestFree(old(mask), 0)
      ensures mask == if 0 <= id < |old(mask)| then old(mask)[id := true] else old(mask)
    {
      LowestFreeSpec(mask, 0);
      var x := 0;
      while x < |mask|
        invariant 0 <= x <= |mask| && mask == old(mask)
        invariant LowestFree(mask, 0) == LowestFree(mask, x)
      {
        if !mask[x] {
          mask := mask[x := true];
          return x;
        }
        x := x + 1;
      }
      id := -1;
    }

    /** free_id */
    method ClearId(id: int)
      requires 0 <= id < |mask|
      modifies `mask, `doubleFreed
      ensures Pads() == FreeId(old(Pads()), id)
    {
      doubleFreed := doubleFreed || !mask[id];
      mask := mask[id := false];
    }

    method AllocGamepad(i: InputId, index: int, ok: bool) returns (id: int)
      requires Shaped(Pads()) && i in ids
      modifies `mask, `ids, `doubleFreed
      ensures Pads() == Allocated(old(Pads()), i, index, ok)
      ensures id >= 0 <==> 0 <= index < MAX_GAMEPADS && ids[i][index] >= 0
      ensures id >= 0 ==> id == ids[i][index]
    {
      if index < 0 || index >= |ids[i]| {
        return -1;
      }
      if ids[i][index] >= 0 {
        return ids[i][index];
      }
      LowestFreeSpec(mask, 0);
      id := AllocId();
      if id < 0 {
        return -1;
      }
      if !ok {
        ClearId(id);
        return -1;
      }
      ids := ids[i := ids[i][index := id]];
    }

    /** free_gamepad, and the controller forgets its slot. */
    method ReleasePad(i: InputId, k: nat)
      requires Shaped(Pads()) && i in ids && k < MAX_GAMEPADS && ids[i][k] >= 0
      modifies `mask, `ids, `doubleFreed
      ensures Pads() == Release(old(Pads()), i, k)
    {
      ClearId(ids[i][k]);
      ids := ids[i := ids[i][k := -1]];
    }

    method DestroyGamepads(i: InputId)
      requires Shaped(Pads()) && i in ids
      modifies `mask, `ids, `doubleFreed
      ensures Pads() == ReleaseAll(old(Pads()), i, ALL)
    {
      var k := 0;
      while k < |ids[i]|
        invariant i in ids && |ids[i]| == MAX_GAMEPADS && 0 <= k <= MAX_GAMEPADS
        invariant Pads() == ReleaseTo(old(Pads()), i, k, ALL)
      {
        assert k in ALL;
        if ids[i][k] >= 0 {
          ReleasePad(i, k);
        }
        k := k + 1;
      }
    }

    method RebindGamepads(i: InputId, failing: set<int>)
      requires Shaped(Pads()) && i in ids
      modifies `mask, `ids, `doubleFreed
      ensures Pads() == ReleaseAll(old(Pads()), i, failing)
    {
      var k := 0;
      while k < |ids[i]|
        invariant i in ids && |ids[i]| == MAX_GAMEPADS && 0 <= k <= MAX_GAMEPADS
        invariant Pads() == ReleaseTo(old(Pads()), i, k, failing)
      {
        if ids[i][k] >= 0 {
          if k in failing {
            ReleasePad(i, k);
          }
        }
        k := k + 1;
      }
    }

    method DestroyInputs(inputs: seq<InputId>)
      requires Shaped(Pads()) && forall i :: i in inputs ==> i in ids
      modifies `mask, `ids, `doubleFreed
      ensures Pads() == DestroyAll(old(Pads()), inputs)
    {
      var n := 0;
      assert inputs[..0] == [];
      while n < |inputs|
        invariant 0 <= n <= |inputs|
        invariant Pads() == DestroyAll(old(Pads()), inputs[..n])
      {
        DestroyAllStep(old(Pads()), inputs, n);
        DestroyGamepads(inputs[n]);
        n := n + 1;
      }
      assert inputs[..n] == inputs;
    }

    method HandlePacket(i: InputId, p: Packet, ok: bool)
      requires Shaped(Pads()) && i in ids
      modifies `mask, `ids, `doubleFreed
      ensures Pads() == Handled(old(Pads()), i, p, ok)
    {
      match p
      case Arrival(index) =>
        var _ := AllocGamepad(i, index, ok);
      case Update(index, active) =>
        if index < 0 || index >= |ids[i]| {
          return;
        }
        if active && ids[i][index] < 0 {
          var id := AllocGamepad(i, index, ok);
          if id < 0 {
            return;
          }
        } else if !active && ids[i][index] >= 0 {
          ReleasePad(i, index);
          return;
        }
    }

    /** alloc */
    method Connect(stream: nat, session: string, failing: set<int>)
      requires Inv(View()) && stream !in streams
      modifies this
      ensures View() == Apply(old(View()), Event.Connect(stream, session, failing))
    {
      var input;
      var resumed := session in retained;
      if resumed {
        input := retained[session];
        assert input in retained.Values;
      } else {
        input := next;
        next := next + 1;
        ids := ids[input := Repeated(-1, MAX_GAMEPADS)];
        retained := retained[session := input];
      }
      streams := streams[stream := input];
      if resumed {
        if poolRunning {
          tasks := tasks + [Rebind(input)];
        } else {
          RebindGamepads(input, failing);
        }
      }
    }

    method RunTask(ok: bool, failing: set<int>)
      requires Inv(View()) && tasks != []
      modifies this
      ensures View() == Apply(old(View()), Event.RunTask(ok, failing))
    {
      FirstTaskFits(View());
      var task := tasks[0];
      tasks := tasks[1..];
      match task
      case Handle(i, p) => HandlePacket(i, p, ok);
      case Rebind(i) => RebindGamepads(i, failing);
      case Destroy(inputs) =>
        assert forall i :: i in inputs ==> i in Uses(task);
        DestroyInputs(inputs);
      case FreeSlot(id) => ClearId(id);
    }

    method TerminateAll(order: seq<InputId>)
      requires Inv(View()) && Enumerates(order, retained)
      modifies this
      ensures View() == Apply(old(View()), Event.TerminateAll(order))
    {
      var inputs := order;
      if inputs != [] {
        retained := map[];
        if poolRunning {
          tasks := tasks + [Destroy(inputs)];
        } else {
          DestroyInputs(inputs);
        }
      }
    }

    method Terminate(session: string)
      requires Inv(View())
      modifies this
      ensures View() == Apply(old(View()), Event.Terminate(session))
    {
      if session !in retained {
        return;
      }
      var input := retained[session];
      assert input in retained.Values;
      retained := retained - {session};
      if poolRunning {
        tasks := tasks + [Destroy([input])];
      } else {
        DestroyInputs([input]);
      }
    }

    /** The destructors of an input's controllers, run when its last reference goes. */
    method Collect(i: InputId)
      requires Inv(View()) && i in ids && Unreferenced(View(), i)
      modifies this
      ensures View() == Apply(old(View()), Event.Collect(i))
    {
      if poolRunning {
        var k := 0;
        var row := ids[i];
        assert row[0..] == row;
        while k < |row|
          invariant 0 <= k <= |row|
          invariant View() == old(View()).(tasks := tasks)
          invariant tasks + FreeTasks(Owned(row[k..])) == old(tasks) + FreeTasks(Owned(row))
        {
          assert row[k..][0] == row[k] && row[k..][1..] == row[k + 1..];
          OwnedStep(row[k..]);
          if row[k] >= 0 {
            tasks := tasks + [FreeSlot(row[k])];
          }
          k := k + 1;
        }
        assert FreeTasks(Owned(row[k..])) == [];
      } else {
        DestroyGamepads(i);
      }
      ids := ids - {i};
    }
  }

  lemma OwnedStep(row: seq<int>)
    requires row != []
    ensures row[0] >= 0 ==> FreeTasks(Owned(row)) == [FreeSlot(row[0])] + FreeTasks(Owned(row[1..]))
    ensures row[0] < 0 ==> Owned(row) == Owned(row[1..])
  {
    var rest := Owned(row[1..]);
    assert [] + rest == rest;
    if row[0] >= 0 {
      assert ([row[0]] + rest)[1..] == rest;
    }
  }
}
