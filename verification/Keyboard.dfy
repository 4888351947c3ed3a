/**
 Keyboard input. A table of pressed keys is shared by all clients; a press goes to the operating system
 through the key bindings, may be wrapped in synthetic modifier presses, and starts a repeat timer.
 */
module Keyboard {

  import opened Wrappers

  type Byte = x: int | 0 <= x < 0x100

  /** A platform key code, 16 bits. */
  type Code = x: int | 0 <= x < 0x1_0000

  /** A table entry's identity: client key code and packet flags. */
  datatype Kpid = Kpid(vk: Byte, flags: Byte)

  const VKEY_SHIFT: Code := 0x10
  const VKEY_CONTROL: Code := 0x11
  const VKEY_MENU: Code := 0x12
  const VKEY_LSHIFT: Code := 0xA0
  const VKEY_RSHIFT: Code := 0xA1
  const VKEY_LCONTROL: Code := 0xA2
  const VKEY_RCONTROL: Code := 0xA3
  const VKEY_LMENU: Code := 0xA4
  const VKEY_RMENU: Code := 0xA5

  datatype Mod = Shift | Ctrl | Alt

  const SHORTCUT: set<Mod> := {Shift, Ctrl, Alt}

  datatype Config = Config(keyboard: bool, bindings: map<int, int>, repeatDelay: int, rightAltIsWin: bool)

  datatype Packet = Packet(release: bool, keyCode: int, modifiers: set<Mod>, flags: Byte)

  datatype Update = Update(code: Code, release: bool, flags: Byte)

  /** What one stream remembers. */
  datatype Client = Client(shortcutFlags: set<Mod>, leftAlt: bool, rightAlt: bool)

  datatype Timer = Timer(id: nat, keyCode: Byte, flags: Byte, synthetic: set<Mod>)

  /** `running` is a repeat timer taken off the queue whose handler has not finished; `held` is the host's view. */
  datatype State = State(keyPress: map<Kpid, bool>, repeatId: Option<nat>, pending: set<Timer>, running: Option<Timer>,
                         nextId: nat, clients: map<nat, Client>, held: set<Code>)

  const START: State := State(map[], None, {}, None, 0, map[], {})

  // The table's keys are 32-bit numbers, the key code above the flags.

  function Packed(k: Kpid): int { 0x100 * k.vk + k.flags }

  function Unpacked(n: int): Kpid
    requires 0 <= n < 0x1_0000
  {
    Kpid(n / 0x100, n % 0x100)
  }

  /** Table entries are told apart by both parts, and both can be read back. */
  lemma KpidRoundTrip(k: Kpid, n: int)
    ensures 0 <= Packed(k) < 0x1_0000 && Unpacked(Packed(k)) == k
    ensures 0 <= n < 0x1_0000 ==> Packed(Unpacked(n)) == n
  {
  }

  /** The binding's value as the platform call receives it: truncated to 16 bits. */
  function MapKeycode(cfg: Config, vk: Byte): Code {
    if vk in cfg.bindings then cfg.bindings[vk] % 0x1_0000 else vk
  }

  function CodeOf(cfg: Config, k: Kpid): Code { MapKeycode(cfg, k.vk) }

  function ModOf(code: Code): Option<Mod> {
    if code in {VKEY_SHIFT, VKEY_LSHIFT, VKEY_RSHIFT} then Some(Shift)
    else if code in {VKEY_CONTROL, VKEY_LCONTROL, VKEY_RCONTROL} then Some(Ctrl)
    else if code in {VKEY_MENU, VKEY_LMENU, VKEY_RMENU} then Some(Alt)
    else None
  }

  function UpdateShortcutFlags(flags: set<Mod>, code: Code, release: bool): set<Mod> {
    match ModOf(code)
    case None => flags
    case Some(m) => if release then flags - {m} else flags + {m}
  }

  /** F1 to F13 switch displays, N toggles the cursor. */
  predicate IsShortcut(vk: Byte) { 0x70 <= vk <= 0x7C || vk == 0x4E }

  predicate IsPressed(keyPress: map<Kpid, bool>, k: Kpid) { k in keyPress && keyPress[k] }

  // The host's view.

  function RawCode(m: Mod): Code {
    match m
    case Shift => VKEY_SHIFT
    case Ctrl => VKEY_CONTROL
    case Alt => VKEY_MENU
  }

  function Raw(mods: set<Mod>): set<Code> { set m | m in mods :: RawCode(m) }

  function Wrapping(mods: set<Mod>, release: bool, flags: Byte): seq<Update> {
    (if Shift in mods then [Update(VKEY_SHIFT, release, flags)] else [])
    + (if Ctrl in mods then [Update(VKEY_CONTROL, release, flags)] else [])
    + (if Alt in mods then [Update(VKEY_MENU, release, flags)] else [])
  }

  /** send_key_and_modifiers */
  function Updates(code: Code, release: bool, flags: Byte, synthetic: set<Mod>): seq<Update> {
    if release then [Update(code, true, flags)]
    else Wrapping(synthetic, false, flags) + [Update(code, false, flags)] + Wrapping(synthetic, true, flags)
  }

  function HoldOne(held: set<Code>, u: Update): set<Code> {
    if u.release then held - {u.code} else held + {u.code}
  }

  function Hold(held: set<Code>, updates: seq<Update>): set<Code>
    decreases |updates|
  {
    if updates == [] then held else Hold(HoldOne(held, updates[0]), updates[1..])
  }

  lemma {:induction false} HoldAppend(held: set<Code>, a: seq<Update>, b: seq<Update>)
    ensures Hold(held, a + b) == Hold(Hold(held, a), b)
    decreases |a|
  {
    if a == [] {
      assert a + b == b;
    } else {
      HoldAppend(HoldOne(held, a[0]), a[1..], b);
      assert (a + b)[1..] == a[1..] + b;
    }
  }

  lemma HoldOnly(held: set<Code>, u: Update)
    ensures Hold(held, [u]) == HoldOne(held, u)
  {
  }

  lemma HoldWrapping(held: set<Code>, mods: set<Mod>, release: bool, flags: Byte)
    ensures Hold(held, Wrapping(mods, release, flags)) == if release then held - Raw(mods) else held + Raw(mods)
  {
    var a := if Shift in mods then [Update(VKEY_SHIFT, release, flags)] else [];
    var b := if Ctrl in mods then [Update(VKEY_CONTROL, release, flags)] else [];
    var c := if Alt in mods then [Update(VKEY_MENU, release, flags)] else [];
    HoldAppend(held, a + b, c);
    HoldAppend(held, a, b);
    assert Shift in mods ==> VKEY_SHIFT in Raw(mods);
    assert Ctrl in mods ==> VKEY_CONTROL in Raw(mods);
    assert Alt in mods ==> VKEY_MENU in Raw(mods);
  }

  /** A press reaches the host while every synthetic modifier is down, and leaves none of them down. */
  lemma PressIsWrapped(held: set<Code>, code: Code, flags: Byte, synthetic: set<Mod>)
    ensures var w := Wrapping(synthetic, false, flags);
            && w + [Update(code, false, flags)] <= Updates(code, false, flags, synthetic)
            && Raw(synthetic) <= Hold(held, w)
    ensures Hold(held, Updates(code, false, flags, synthetic)) == held + {code} - Raw(synthetic)
    ensures Hold(held, Updates(code, true, flags, synthetic)) == held - {code}
  {
    var w, w', u := Wrapping(synthetic, false, flags), Wrapping(synthetic, true, flags), Update(code, false, flags);
    HoldAppend(held, w + [u], w');
    HoldAppend(held, w, [u]);
    HoldWrapping(held, synthetic, false, flags);
    HoldWrapping(held + Raw(synthetic) + {code}, synthetic, true, flags);
    HoldOnly(held + Raw(synthetic), u);
    HoldOnly(held, Update(code, true, flags));
  }

  // One packet.

  function ClientOf(s: State, id: nat): Client {
    if id in s.clients then s.clients[id] else Client({}, false, false)
  }

  function TrackAlt(c: Client, vk: Byte, release: bool): Client {
    if vk == VKEY_LMENU then c.(leftAlt := !release)
    else if vk == VKEY_RMENU then c.(rightAlt := !release)
    else c
  }

  /** Modifiers the packet asks for that its stream does not hold; right Alt used as the Windows key is not Alt. */
  function Synthetic(cfg: Config, c: Client, vk: Byte, p: Packet): set<Mod> {
    if p.release || ModOf(vk).Some? then {}
    else (if cfg.rightAltIsWin && c.rightAlt && !c.leftAlt then p.modifiers - {Alt} else p.modifiers) - c.shortcutFlags
  }

  function Cancelled(pending: set<Timer>, id: Option<nat>): set<Timer> {
    set t | t in pending && id != Some(t.id)
  }

  /** A new press replaces the repeat timer. */
  function Rearm(cfg: Config, s: State, keyCode: Byte, flags: Byte, synthetic: set<Mod>): State {
    var kept := s.(pending := Cancelled(s.pending, s.repeatId));
    if cfg.repeatDelay > 0 then StartTimer(kept, keyCode, flags, synthetic) else kept
  }

  function StartTimer(s: State, keyCode: Byte, flags: Byte, synthetic: set<Mod>): State {
    s.(pending := s.pending + {Timer(s.nextId, keyCode, flags, synthetic)}, repeatId := Some(s.nextId),
        nextId := s.nextId + 1)
  }

  /** The key changes state: the host is told and the stream's modifiers are updated. */
  function Send(cfg: Config, s: State, id: nat, c: Client, vk: Byte, p: Packet, synthetic: set<Mod>): State {
    s.(keyPress := s.keyPress[Kpid(vk, p.flags) := !p.release],
       held := Hold(s.held, Updates(MapKeycode(cfg, vk), p.release, p.flags, synthetic)),
       clients := s.clients[id := c.(shortcutFlags :=
           UpdateShortcutFlags(c.shortcutFlags, MapKeycode(cfg, vk), p.release))])
  }

  function Passthrough(cfg: Config, s: State, id: nat, p: Packet): State {
    if !cfg.keyboard then s
    else
      var vk: Byte := p.keyCode % 0x100;
      var c := TrackAlt(ClientOf(s, id), vk, p.release);
      var k := Kpid(vk, p.flags);
      var pressed := IsPressed(s.keyPress, k);
      var seen := s.(clients := s.clients[id := c], keyPress := s.keyPress[k := pressed]);
      if pressed == !p.release then seen
      else if !pressed && c.shortcutFlags == SHORTCUT && IsShortcut(vk) then seen
      else
        var synthetic := Synthetic(cfg, c, vk, p);
        Send(cfg, if pressed then seen else Rearm(cfg, seen, vk, p.flags, synthetic), id, c, vk, p, synthetic)
  }

  /** repeat_key, the body of a timer that has come off the queue. */
  function Repeat(cfg: Config, s: State, t: Timer): State {
    if !IsPressed(s.keyPress, Kpid(t.keyCode, t.flags)) then
      s.(repeatId := None, running := None, keyPress := s.keyPress[Kpid(t.keyCode, t.flags) := false])
    else
      StartTimer(s.(running := None,
                   held := Hold(s.held, Updates(MapKeycode(cfg, t.keyCode), false, t.flags, t.synthetic))),
                 t.keyCode, t.flags, t.synthetic)
  }

  function PressedCodes(cfg: Config, keyPress: map<Kpid, bool>): set<Code> {
    set k | k in keyPress && keyPress[k] :: CodeOf(cfg, k)
  }

  function ResetKeys(cfg: Config, s: State): State {
    s.(keyPress := map k | k in s.keyPress :: false, held := s.held - PressedCodes(cfg, s.keyPress))
  }

  // Runs. One worker runs packets, repeats and resets, each to its end; the cancel of a reset comes from
  // another thread.

  datatype Event = Receive(client: nat, p: Packet) | TakeTimer(t: Timer) | Finish | CancelRepeat | Reset

  function Apply(cfg: Config, s: State, e: Event): State {
    match e
    case Receive(id, p) => if s.running == None then Passthrough(cfg, s, id, p) else s
    case TakeTimer(t) =>
      if s.running == None && t in s.pending then s.(pending := s.pending - {t}, running := Some(t)) else s
    case Finish => if s.running == None then s else Repeat(cfg, s, s.running.value)
    case CancelRepeat => s.(pending := Cancelled(s.pending, s.repeatId))
    case Reset => if s.running == None then ResetKeys(cfg, s) else s
  }

  function Run(cfg: Config, s: State, events: seq<Event>): State {
    if events == [] then s else Apply(cfg, Run(cfg, s, events[..|events| - 1]), events[|events| - 1])
  }

  predicate OneTimer(s: State) {
    && (forall t :: t in s.pending ==> s.repeatId == Some(t.id))
    && (forall t, u :: t in s.pending && u in s.pending ==> t == u)
    && (s.running.Some? ==> s.pending == {})
  }

  ghost predicate Inv(cfg: Config, s: State) {
    s.held <= PressedCodes(cfg, s.keyPress) && OneTimer(s)
  }

  lemma PressedCodesSet(cfg: Config, keyPress: map<Kpid, bool>, k: Kpid, b: bool)
    ensures var after := PressedCodes(cfg, keyPress[k := b]);
            && (b ==> after == PressedCodes(cfg, keyPress) + {CodeOf(cfg, k)})
            && (!b ==> PressedCodes(cfg, keyPress) - {CodeOf(cfg, k)} <= after <= PressedCodes(cfg, keyPress))
  {
    var before, after := PressedCodes(cfg, keyPress), PressedCodes(cfg, keyPress[k := b]);
    forall c | c in before && c != CodeOf(cfg, k)
      ensures c in after
    {
      var k' :| k' in keyPress && keyPress[k'] && CodeOf(cfg, k') == c;
      assert k' in keyPress[k := b] && keyPress[k := b][k'];
    }
    if b {
      assert k in keyPress[k := b] && keyPress[k := b][k];
    }
    forall c | c in after && (!b || c != CodeOf(cfg, k))
      ensures c in before
    {
      var k' :| k' in keyPress[k := b] && keyPress[k := b][k'] && CodeOf(cfg, k') == c;
      assert k' in keyPress && keyPress[k'];
    }
  }

  lemma PressedCodesSame(cfg: Config, keyPress: map<Kpid, bool>, k: Kpid)
    ensures PressedCodes(cfg, keyPress[k := IsPressed(keyPress, k)]) == PressedCodes(cfg, keyPress)
  {
    var m := keyPress[k := IsPressed(keyPress, k)];
    assert forall k' :: k' in m && m[k'] <==> k' in keyPress && keyPress[k'];
    assert PressedCodes(cfg, m) <= PressedCodes(cfg, keyPress) <= PressedCodes(cfg, m);
  }

  /** What one key's updates do to a host that holds no more than the pressed entries. */
  lemma KeyWithin(cfg: Config, held: set<Code>, keyPress: map<Kpid, bool>, k: Kpid, release: bool, flags: Byte,
                  synthetic: set<Mod>)
    requires held <= PressedCodes(cfg, keyPress)
    ensures Hold(held, Updates(CodeOf(cfg, k), release, flags, synthetic)) <= PressedCodes(cfg, keyPress[k := !release])
  {
    PressIsWrapped(held, CodeOf(cfg, k), flags, synthetic);
    PressedCodesSet(cfg, keyPress, k, !release);
  }

  lemma SendKeeps(cfg: Config, s: State, id: nat, c: Client, vk: Byte, p: Packet, synthetic: set<Mod>)
    requires Inv(cfg, s)
    ensures Inv(cfg, Send(cfg, s, id, c, vk, p, synthetic))
  {
    KeyWithin(cfg, s.held, s.keyPress, Kpid(vk, p.flags), p.release, p.flags, synthetic);
  }

  lemma PassthroughKeeps(cfg: Config, s: State, id: nat, p: Packet)
    requires Inv(cfg, s) && s.running == None
    ensures Inv(cfg, Passthrough(cfg, s, id, p)) && Passthrough(cfg, s, id, p).running == None
  {
    if cfg.keyboard {
      var vk: Byte := p.keyCode % 0x100;
      var c := TrackAlt(ClientOf(s, id), vk, p.release);
      var k := Kpid(vk, p.flags);
      PressedCodesSame(cfg, s.keyPress, k);
      var seen := s.(clients := s.clients[id := c], keyPress := s.keyPress[k := IsPressed(s.keyPress, k)]);
      var synthetic := Synthetic(cfg, c, vk, p);
      SendKeeps(cfg, seen, id, c, vk, p, synthetic);
      SendKeeps(cfg, Rearm(cfg, seen, vk, p.flags, synthetic), id, c, vk, p, synthetic);
    }
  }

  lemma RepeatKeeps(cfg: Config, s: State, t: Timer)
    requires Inv(cfg, s) && s.running == Some(t)
    ensures Inv(cfg, Repeat(cfg, s, t))
  {
    var k := Kpid(t.keyCode, t.flags);
    if IsPressed(s.keyPress, k) {
      assert s.keyPress[k := true] == s.keyPress;
      KeyWithin(cfg, s.held, s.keyPress, k, false, t.flags, t.synthetic);
    } else {
      PressedCodesSame(cfg, s.keyPress, k);
    }
  }

  lemma StepKeeps(cfg: Config, s: State, e: Event)
    requires Inv(cfg, s)
    ensures Inv(cfg, Apply(cfg, s, e))
  {
    match e
    case Receive(id, p) =>
      if s.running == None {
        PassthroughKeeps(cfg, s, id, p);
      }
    case Finish =>
      if s.running != None {
        RepeatKeeps(cfg, s, s.running.value);
      }
    case _ =>
  }

  /**
   No stuck key: in every reachable state the host holds only codes of pressed entries, and one repeat timer
   lives at most.
   */
  lemma {:induction false} RunInv(cfg: Config, events: seq<Event>)
    ensures Inv(cfg, Run(cfg, START, events))
  {
    if events != [] {
      RunInv(cfg, events[..|events| - 1]);
      StepKeeps(cfg, Run(cfg, START, events[..|events| - 1]), events[|events| - 1]);
    }
  }

  predicate Quiet(s: State) {
    s.held == {} && forall k :: k in s.keyPress ==> !s.keyPress[k]
  }

  /** After a reset nothing is held, and no timer still pending at the time brings a key back before a packet does. */
  lemma {:induction false} ResetReleasesAll(cfg: Config, before: seq<Event>, after: seq<Event>)
    requires Run(cfg, START, before).running == None
    requires forall e :: e in after ==> !e.Receive?
    ensures Quiet(Run(cfg, Apply(cfg, Run(cfg, START, before), Reset), after))
    decreases |after|
  {
    if after == [] {
      RunInv(cfg, before);
    } else {
      ResetReleasesAll(cfg, before, after[..|after| - 1]);
    }
  }

  // Exactness.

  ghost predicate Over(keys: set<Kpid>, events: seq<Event>) {
    forall e :: e in events && e.Receive? ==> Kpid(e.p.keyCode % 0x100, e.p.flags) in keys
  }

  /** The host holds exactly the codes of the pressed entries, whatever the clients do with these keys. */
  ghost predicate AlwaysExact(cfg: Config, keys: set<Kpid>) {
    forall events :: Over(keys, events) ==> ExactAfter(cfg, events)
  }

  ghost predicate ExactAfter(cfg: Config, events: seq<Event>) {
    Run(cfg, START, events).held == PressedCodes(cfg, Run(cfg, START, events).keyPress)
  }

  ghost predicate Distinct(cfg: Config, keys: set<Kpid>) {
    forall k, k' :: k in keys && k' in keys && CodeOf(cfg, k) == CodeOf(cfg, k') ==> k == k'
  }

  /** None of the keys is bound to a code that synthetic modifiers press and release. */
  ghost predicate NoRaw(cfg: Config, keys: set<Kpid>) {
    forall k :: k in keys ==> CodeOf(cfg, k) !in Raw(SHORTCUT)
  }

  /** These modifiers leave the keys' codes alone when they are wrapped around a press. */
  ghost predicate Clean(cfg: Config, keys: set<Kpid>, synthetic: set<Mod>) {
    NoRaw(cfg, keys) || synthetic == {}
  }

  /** No synthetic modifier is ever pressed for these keys, or none of them shares its code. */
  ghost predicate Harmless(cfg: Config, keys: set<Kpid>) {
    NoRaw(cfg, keys) || forall k :: k in keys ==> ModOf(k.vk).Some?
  }

  ghost predicate Exact(cfg: Config, keys: set<Kpid>, s: State) {
    && s.keyPress.Keys <= keys
    && s.held == PressedCodes(cfg, s.keyPress)
    && (forall t :: t in s.pending ==> Kpid(t.keyCode, t.flags) in keys && Clean(cfg, keys, t.synthetic))
    && (s.running.Some? ==>
          && Kpid(s.running.value.keyCode, s.running.value.flags) in keys
          && Clean(cfg, keys, s.running.value.synthetic))
  }

  lemma PressedCodesRelease(cfg: Config, keys: set<Kpid>, keyPress: map<Kpid, bool>, k: Kpid)
    requires Distinct(cfg, keys) && keyPress.Keys <= keys && k in keys
    ensures PressedCodes(cfg, keyPress[k := false]) == PressedCodes(cfg, keyPress) - {CodeOf(cfg, k)}
  {
    PressedCodesSet(cfg, keyPress, k, false);
    assert forall k' :: k' in keyPress[k := false] && keyPress[k := false][k'] ==> k' in keys && k' != k;
    assert CodeOf(cfg, k) !in PressedCodes(cfg, keyPress[k := false]);
  }

  lemma PressedCodesNotRaw(cfg: Config, keys: set<Kpid>, keyPress: map<Kpid, bool>, mods: set<Mod>)
    requires Clean(cfg, keys, mods) && keyPress.Keys <= keys
    ensures PressedCodes(cfg, keyPress) !! Raw(mods)
  {
    forall c | c in Raw(mods)
      ensures c in Raw(SHORTCUT)
    {
      var m :| m in mods && RawCode(m) == c;
      assert m in SHORTCUT;
    }
  }

  lemma KeyExact(cfg: Config, keys: set<Kpid>, keyPress: map<Kpid, bool>, k: Kpid, release: bool, flags: Byte,
                 synthetic: set<Mod>)
    requires Distinct(cfg, keys) && Clean(cfg, keys, synthetic) && keyPress.Keys <= keys && k in keys
    ensures Hold(PressedCodes(cfg, keyPress), Updates(CodeOf(cfg, k), release, flags, synthetic))
            == PressedCodes(cfg, keyPress[k := !release])
  {
    PressIsWrapped(PressedCodes(cfg, keyPress), CodeOf(cfg, k), flags, synthetic);
    if release {
      PressedCodesRelease(cfg, keys, keyPress, k);
    } else {
      PressedCodesSet(cfg, keyPress, k, true);
      PressedCodesNotRaw(cfg, keys, keyPress[k := true], synthetic);
    }
  }

  lemma SendExact(cfg: Config, keys: set<Kpid>, s: State, id: nat, c: Client, vk: Byte, p: Packet, synthetic: set<Mod>)
    requires Distinct(cfg, keys) && Clean(cfg, keys, synthetic) && Exact(cfg, keys, s) && Kpid(vk, p.flags) in keys
    ensures Exact(cfg, keys, Send(cfg, s, id, c, vk, p, synthetic))
  {
    KeyExact(cfg, keys, s.keyPress, Kpid(vk, p.flags), p.release, p.flags, synthetic);
  }

  lemma PassthroughExact(cfg: Config, keys: set<Kpid>, s: State, id: nat, p: Packet)
    requires Distinct(cfg, keys) && Harmless(cfg, keys) && Exact(cfg, keys, s)
    requires Kpid(p.keyCode % 0x100, p.flags) in keys
    ensures Exact(cfg, keys, Passthrough(cfg, s, id, p))
  {
    if cfg.keyboard {
      var vk: Byte := p.keyCode % 0x100;
      var c := TrackAlt(ClientOf(s, id), vk, p.release);
      var k := Kpid(vk, p.flags);
      PressedCodesSame(cfg, s.keyPress, k);
      var seen := s.(clients := s.clients[id := c], keyPress := s.keyPress[k := IsPressed(s.keyPress, k)]);
      var synthetic := Synthetic(cfg, c, vk, p);
      SendExact(cfg, keys, seen, id, c, vk, p, synthetic);
      SendExact(cfg, keys, Rearm(cfg, seen, vk, p.flags, synthetic), id, c, vk, p, synthetic);
    }
  }

  lemma RepeatExact(cfg: Config, keys: set<Kpid>, s: State, t: Timer)
    requires Distinct(cfg, keys) && Exact(cfg, keys, s) && s.running == Some(t)
    ensures Exact(cfg, keys, Repeat(cfg, s, t))
  {
    var k := Kpid(t.keyCode, t.flags);
    if IsPressed(s.keyPress, k) {
      assert s.keyPress[k := true] == s.keyPress;
      KeyExact(cfg, keys, s.keyPress, k, false, t.flags, t.synthetic);
    } else {
      PressedCodesSame(cfg, s.keyPress, k);
    }
  }

  lemma ResetExact(cfg: Config, keys: set<Kpid>, s: State)
    requires Exact(cfg, keys, s)
    ensures Exact(cfg, keys, ResetKeys(cfg, s))
  {
  }

  lemma {:induction false} RunExact(cfg: Config, keys: set<Kpid>, events: seq<Event>)
    requires Distinct(cfg, keys) && Harmless(cfg, keys) && Over(keys, events)
    ensures Exact(cfg, keys, Run(cfg, START, events))
  {
    if events != [] {
      var s, e := Run(cfg, START, events[..|events| - 1]), events[|events| - 1];
      RunExact(cfg, keys, events[..|events| - 1]);
      match e
      case Receive(id, p) =>
        assert e in events;
        PassthroughExact(cfg, keys, s, id, p);
      case Finish =>
        if s.running != None {
          RepeatExact(cfg, keys, s, s.running.value);
        }
      case Reset => ResetExact(cfg, keys, s);
      case _ =>
    }
  }

  function KeyPacket(k: Kpid, release: bool): Packet { Packet(release, k.vk, {}, k.flags) }

  /** The first press of a key by a stream that has pressed nothing else reaches the host. */
  lemma FreshPress(cfg: Config, s: State, id: nat, k: Kpid)
    requires cfg.keyboard && id !in s.clients && !IsPressed(s.keyPress, k)
    ensures var s' := Passthrough(cfg, s, id, KeyPacket(k, false));
            && s'.keyPress == s.keyPress[k := true] && s'.held == s.held + {CodeOf(cfg, k)}
            && s'.clients.Keys == s.clients.Keys + {id} && s'.running == s.running
  {
    var p := KeyPacket(k, false);
    var c := TrackAlt(ClientOf(s, id), k.vk, false);
    assert c.shortcutFlags == {} && Synthetic(cfg, c, k.vk, p) == {};
    var seen := s.(clients := s.clients[id := c], keyPress := s.keyPress[k := false]);
    var armed := Rearm(cfg, seen, k.vk, k.flags, {});
    FreshSend(cfg, armed, id, c, k);
    assert seen.keyPress[k := true] == s.keyPress[k := true];
    FreshPassthrough(cfg, s, id, k, c);
  }

  lemma FreshPassthrough(cfg: Config, s: State, id: nat, k: Kpid, c: Client)
    requires cfg.keyboard && !IsPressed(s.keyPress, k) && c == TrackAlt(ClientOf(s, id), k.vk, false)
    requires c.shortcutFlags == {} && Synthetic(cfg, c, k.vk, KeyPacket(k, false)) == {}
    ensures var seen := s.(clients := s.clients[id := c], keyPress := s.keyPress[k := false]);
            Passthrough(cfg, s, id, KeyPacket(k, false))
            == Send(cfg, Rearm(cfg, seen, k.vk, k.flags, {}), id, c, k.vk, KeyPacket(k, false), {})
  {
  }

  lemma FreshSend(cfg: Config, s: State, id: nat, c: Client, k: Kpid)
    requires id in s.clients
    ensures var s' := Send(cfg, s, id, c, k.vk, KeyPacket(k, false), {});
            && s'.keyPress == s.keyPress[k := true] && s'.held == s.held + {CodeOf(cfg, k)}
            && s'.clients.Keys == s.clients.Keys && s'.running == s.running
  {
    PressIsWrapped(s.held, CodeOf(cfg, k), k.flags, {});
  }

  lemma ReleaseOfPressed(cfg: Config, s: State, id: nat, k: Kpid)
    requires cfg.keyboard && IsPressed(s.keyPress, k)
    ensures var s' := Passthrough(cfg, s, id, KeyPacket(k, true));
            s'.keyPress == s.keyPress[k := false] && s'.held == s.held - {CodeOf(cfg, k)}
  {
    PressIsWrapped(s.held, CodeOf(cfg, k), k.flags, {});
    var m := s.keyPress[k := true];
    assert m[k := false] == s.keyPress[k := false];
  }

  /** Two entries that share a platform code: releasing one lets go of the code while the other is still pressed. */
  lemma SharedCodeIsLost(cfg: Config, k: Kpid, k': Kpid)
    requires cfg.keyboard && k != k' && CodeOf(cfg, k) == CodeOf(cfg, k')
    ensures var events := [Receive(0, KeyPacket(k, false)), Receive(1, KeyPacket(k', false)),
                           Receive(0, KeyPacket(k, true))];
            Over({k, k'}, events) && !ExactAfter(cfg, events)
  {
    var e0, e1, e2 := Receive(0, KeyPacket(k, false)), Receive(1, KeyPacket(k', false)), Receive(0, KeyPacket(k, true));
    var s1 := Apply(cfg, START, e0);
    var s2 := Apply(cfg, s1, e1);
    var s3 := Apply(cfg, s2, e2);
    FreshPress(cfg, START, 0, k);
    FreshPress(cfg, s1, 1, k');
    ReleaseOfPressed(cfg, s2, 0, k);
    assert [e0, e1, e2][..2] == [e0, e1] && [e0, e1][..1] == [e0] && [e0][..0] == [];
    assert Run(cfg, START, [e0]) == s1;
    assert Run(cfg, START, [e0, e1]) == s2;
    assert Run(cfg, START, [e0, e1, e2]) == s3;
    assert k' in s3.keyPress && s3.keyPress[k'];
    assert CodeOf(cfg, k') in PressedCodes(cfg, s3.keyPress);
  }

  function AskingPacket(k: Kpid, m: Mod): Packet { Packet(false, k.vk, {m}, k.flags) }

  lemma WrappedSend(cfg: Config, s: State, id: nat, c: Client, k: Kpid, m: Mod)
    ensures var s' := Send(cfg, s, id, c, k.vk, AskingPacket(k, m), {m});
            s'.keyPress == s.keyPress[k := true] && RawCode(m) !in s'.held
  {
    PressIsWrapped(s.held, CodeOf(cfg, k), k.flags, {m});
    assert RawCode(m) in Raw({m});
  }

  /** A press that asks for a modifier its stream does not hold takes that modifier's code from the host. */
  lemma WrappedPress(cfg: Config, s: State, id: nat, k: Kpid, m: Mod)
    requires cfg.keyboard && id !in s.clients && !IsPressed(s.keyPress, k) && ModOf(k.vk).None?
    ensures var s' := Passthrough(cfg, s, id, AskingPacket(k, m));
            s'.keyPress == s.keyPress[k := true] && RawCode(m) !in s'.held
  {
    var p := AskingPacket(k, m);
    var c := TrackAlt(ClientOf(s, id), k.vk, false);
    assert c == Client({}, false, false) && Synthetic(cfg, c, k.vk, p) == {m};
    var seen := s.(clients := s.clients[id := c], keyPress := s.keyPress[k := false]);
    var armed := Rearm(cfg, seen, k.vk, k.flags, {m});
    WrappedSend(cfg, armed, id, c, k, m);
    assert seen.keyPress[k := true] == s.keyPress[k := true];
    assert Passthrough(cfg, s, id, p) == Send(cfg, armed, id, c, k.vk, p, {m});
  }

  lemma RunOne(cfg: Config, s: State, e: Event)
    ensures Run(cfg, s, [e]) == Apply(cfg, s, e)
  {
    assert [e][..0] == [];
  }

  lemma RunTwo(cfg: Config, s: State, e: Event, e': Event)
    ensures Run(cfg, s, [e, e']) == Apply(cfg, Apply(cfg, s, e), e')
  {
    assert [e, e'][..1] == [e];
    RunOne(cfg, s, e);
  }

  lemma NotHeld(cfg: Config, s: State, k: Kpid)
    requires IsPressed(s.keyPress, k) && CodeOf(cfg, k) !in s.held
    ensures s.held != PressedCodes(cfg, s.keyPress)
  {
    assert CodeOf(cfg, k) in PressedCodes(cfg, s.keyPress);
  }

  lemma RawAlone(cfg: Config, k: Kpid, m: Mod)
    requires cfg.keyboard && CodeOf(cfg, k) == RawCode(m) && ModOf(k.vk).None?
    ensures !ExactAfter(cfg, [Receive(0, AskingPacket(k, m))])
  {
    RunOne(cfg, START, Receive(0, AskingPacket(k, m)));
    WrappedPress(cfg, START, 0, k, m);
    NotHeld(cfg, Passthrough(cfg, START, 0, AskingPacket(k, m)), k);
  }

  lemma RawBeside(cfg: Config, k: Kpid, k': Kpid, m: Mod)
    requires cfg.keyboard && CodeOf(cfg, k) == RawCode(m) && ModOf(k'.vk).None? && k != k'
    ensures !ExactAfter(cfg, [Receive(0, KeyPacket(k, false)), Receive(1, AskingPacket(k', m))])
  {
    var s := Passthrough(cfg, START, 0, KeyPacket(k, false));
    RunTwo(cfg, START, Receive(0, KeyPacket(k, false)), Receive(1, AskingPacket(k', m)));
    FreshPress(cfg, START, 0, k);
    WrappedPress(cfg, s, 1, k', m);
    NotHeld(cfg, Passthrough(cfg, s, 1, AskingPacket(k', m)), k);
  }

  /**
   A key on a modifier's code, and a press with that modifier synthesized: the code is let go of under the
   pressed key.
   */
  lemma RawCodeIsLost(cfg: Config, k: Kpid, k': Kpid, m: Mod) returns (events: seq<Event>)
    requires cfg.keyboard && CodeOf(cfg, k) == RawCode(m) && ModOf(k'.vk).None?
    ensures Over({k, k'}, events) && !ExactAfter(cfg, events)
  {
    if k == k' {
      events := [Receive(0, AskingPacket(k, m))];
      RawAlone(cfg, k, m);
    } else {
      events := [Receive(0, KeyPacket(k, false)), Receive(1, AskingPacket(k', m))];
      RawBeside(cfg, k, k', m);
    }
  }

  /**
   The host's view is exact in every run just when the bindings keep the keys apart, and either no key is
   bound to the code of a synthetic modifier or all keys are modifiers, for which none is synthesized.
   */
  lemma {:induction false} ExactIffDistinct(cfg: Config, keys: set<Kpid>)
    requires cfg.keyboard
    ensures AlwaysExact(cfg, keys) <==> Distinct(cfg, keys) && Harmless(cfg, keys)
  {
    if Distinct(cfg, keys) && Harmless(cfg, keys) {
      forall events | Over(keys, events)
        ensures ExactAfter(cfg, events)
      {
        RunExact(cfg, keys, events);
      }
    } else if !Distinct(cfg, keys) {
      var k, k' :| k in keys && k' in keys && CodeOf(cfg, k) == CodeOf(cfg, k') && k != k';
      SharedCodeIsLost(cfg, k, k');
      var events := [Receive(0, KeyPacket(k, false)), Receive(1, KeyPacket(k', false)), Receive(0, KeyPacket(k, true))];
      assert Over(keys, events);
    } else {
      var k :| k in keys && CodeOf(cfg, k) in Raw(SHORTCUT);
      var k' :| k' in keys && ModOf(k'.vk).None?;
      var m :| m in SHORTCUT && RawCode(m) == CodeOf(cfg, k);
      var events := RawCodeIsLost(cfg, k, k', m);
      assert Over(keys, events);
    }
  }

  ghost function StillHeld(cfg: Config, held: set<Code>, keyPress: map<Kpid, bool>): set<Code> {
    held - PressedCodes(cfg, keyPress)
  }

  /** Releasing one entry, whether or not another shares its code, leaves the same to be released. */
  lemma StillHeldKey(cfg: Config, held: set<Code>, keyPress: map<Kpid, bool>, k: Kpid)
    requires IsPressed(keyPress, k)
    ensures StillHeld(cfg, held - {CodeOf(cfg, k)}, keyPress[k := false]) == StillHeld(cfg, held, keyPress)
  {
    PressedCodesSet(cfg, keyPress, k, false);
    assert CodeOf(cfg, k) in PressedCodes(cfg, keyPress);
  }

  /** The reset loop's progress: entries no longer in `keys` read released, all others as before. */
  ghost predicate Visited(before: map<Kpid, bool>, now: map<Kpid, bool>, keys: set<Kpid>) {
    now.Keys == before.Keys && forall k :: k in now ==> now[k] == (k in keys && before[k])
  }

  lemma AllVisited(cfg: Config, before: map<Kpid, bool>, now: map<Kpid, bool>, held: set<Code>)
    requires Visited(before, now, {})
    ensures PressedCodes(cfg, now) == {}
    ensures now == map k | k in before :: false
    ensures StillHeld(cfg, held, now) == held
  {
  }

  predicate OnlyReleases(before: seq<Update>, now: seq<Update>) {
    before <= now && forall i :: |before| <= i < |now| ==> now[i].release
  }

  class KeyboardInput {
    const cfg: Config
    var keyPress: map<Kpid, bool>
    var repeatId: Option<nat>
    var pending: set<Timer>
    var running: Option<Timer>
    var nextId: nat
    var clients: map<nat, Client>
    var log: seq<Update>

    ghost function View(): State
      reads this
    {
      State(keyPress, repeatId, pending, running, nextId, clients, Hold({}, log))
    }

    constructor (cfg: Config)
      ensures this.cfg == cfg && View() == START
    {
      this.cfg := cfg;
      keyPress, repeatId, pending, running, nextId, clients, log := map[], None, {}, None, 0, map[], [];
    }

    /** The platform call. */
    method KeyboardUpdate(code: Code, release: bool, flags: Byte)
      modifies `log
      ensures log == old(log) + [Update(code, release, flags)]
      ensures Hold({}, log) == HoldOne(old(Hold({}, log)), Update(code, release, flags))
    {
      var u := Update(code, release, flags);
      HoldAppend({}, log, [u]);
      HoldOnly(Hold({}, log), u);
      log := log + [u];
    }

    /** Presses or releases the synthetic modifiers, in the same order both times. */
    method UpdateModifiers(release: bool, flags: Byte, synthetic: set<Mod>)
      modifies `log
      ensures log == old(log) + Wrapping(synthetic, release, flags)
    {
      if Shift in synthetic { KeyboardUpdate(VKEY_SHIFT, release, flags); }
      if Ctrl in synthetic { KeyboardUpdate(VKEY_CONTROL, release, flags); }
      if Alt in synthetic { KeyboardUpdate(VKEY_MENU, release, flags); }
    }

    method SendKeyAndModifiers(keyCode: Byte, release: bool, flags: Byte, synthetic: set<Mod>)
      modifies `log
      ensures log == old(log) + Updates(MapKeycode(cfg, keyCode), release, flags, synthetic)
      ensures Hold({}, log) == Hold(old(Hold({}, log)), Updates(MapKeycode(cfg, keyCode), release, flags, synthetic))
    {
      ghost var before := log;
      if !release {
        UpdateModifiers(false, flags, synthetic);
      }
      KeyboardUpdate(MapKeycode(cfg, keyCode), release, flags);
      if !release {
        UpdateModifiers(true, flags, synthetic);
      }
      assert log == before + Updates(MapKeycode(cfg, keyCode), release, flags, synthetic);
      HoldAppend({}, before, Updates(MapKeycode(cfg, keyCode), release, flags, synthetic));
    }

    method Cancel(id: Option<nat>)
      modifies `pending
      ensures pending == Cancelled(old(pending), id)
    {
      pending := set t | t in pending && id != Some(t.id);
    }

    method PushRepeat(keyCode: Byte, flags: Byte, synthetic: set<Mod>)
      modifies `pending, `repeatId, `nextId
      ensures View() == StartTimer(old(View()), keyCode, flags, synthetic)
    {
      pending := pending + {Timer(nextId, keyCode, flags, synthetic)};
      repeatId := Some(nextId);
      nextId := nextId + 1;
    }

    method TrackClient(id: nat, keyCode: Byte, release: bool) returns (client: Client)
      modifies `clients
      ensures client == TrackAlt(ClientOf(old(View()), id), keyCode, release)
      ensures clients == old(clients)[id := client]
    {
      client := if id in clients then clients[id] else Client({}, false, false);
      if keyCode == VKEY_LMENU {
        client := client.(leftAlt := !release);
      } else if keyCode == VKEY_RMENU {
        client := client.(rightAlt := !release);
      }
      clients := clients[id := client];
    }

    method FindSynthetic(client: Client, keyCode: Byte, p: Packet) returns (synthetic: set<Mod>)
      ensures synthetic == Synthetic(cfg, client, keyCode, p)
    {
      var modifiers := p.modifiers;
      if cfg.rightAltIsWin && client.rightAlt && !client.leftAlt {
        modifiers := modifiers - {Alt};
      }
      synthetic := {};
      if !p.release && ModOf(keyCode).None? {
        synthetic := modifiers - client.shortcutFlags;
      }
    }

    method Receive(id: nat, p: Packet)
      requires running == None
      modifies this
      ensures View() == Apply(cfg, old(View()), Event.Receive(id, p))
    {
      if !cfg.keyboard {
        return;
      }
      var keyCode: Byte := p.keyCode % 0x100;
      var client := TrackClient(id, keyCode, p.release);
      var synthetic := FindSynthetic(client, keyCode, p);
      var k := Kpid(keyCode, p.flags);
      if k !in keyPress {
        keyPress := keyPress[k := false];
      }
      ghost var seen := old(View()).(clients := clients, keyPress := old(keyPress)[k := IsPressed(old(keyPress), k)]);
      assert View() == seen by {
        assert keyPress == old(keyPress)[k := IsPressed(old(keyPress), k)];
      }
      if !keyPress[k] {
        if !p.release {
          if client.shortcutFlags == SHORTCUT && IsShortcut(keyCode) {
            return;
          }
          ReplaceRepeat(keyCode, p.flags, synthetic);
        } else {
          return;
        }
      } else if !p.release {
        return;
      }
      SendAndTrack(id, client, keyCode, p, synthetic);
    }

    /** The end of passthrough: the entry, the host and the stream's modifiers change. */
    method SendAndTrack(id: nat, client: Client, keyCode: Byte, p: Packet, synthetic: set<Mod>)
      modifies this
      ensures View() == Send(cfg, old(View()), id, client, keyCode, p, synthetic)
    {
      keyPress := keyPress[Kpid(keyCode, p.flags) := !p.release];
      SendKeyAndModifiers(keyCode, p.release, p.flags, synthetic);
      clients := clients[id := client.(shortcutFlags :=
          UpdateShortcutFlags(client.shortcutFlags, MapKeycode(cfg, keyCode), p.release))];
    }

    method ReplaceRepeat(keyCode: Byte, flags: Byte, synthetic: set<Mod>)
      modifies `pending, `repeatId, `nextId
      ensures View() == Rearm(cfg, old(View()), keyCode, flags, synthetic)
    {
      if repeatId != None {
        Cancel(repeatId);
      }
      assert pending == Cancelled(old(pending), old(repeatId));
      if cfg.repeatDelay > 0 {
        PushRepeat(keyCode, flags, synthetic);
      }
    }

    method TakeTimer(t: Timer)
      requires running == None && t in pending
      modifies this
      ensures View() == Apply(cfg, old(View()), Event.TakeTimer(t))
    {
      pending, running := pending - {t}, Some(t);
    }

    method RepeatKey()
      requires running != None
      modifies this
      ensures View() == Apply(cfg, old(View()), Finish)
    {
      var t := running.value;
      running := None;
      var k := Kpid(t.keyCode, t.flags);
      if k !in keyPress {
        keyPress := keyPress[k := false];
      }
      if !keyPress[k] {
        repeatId := None;
        assert keyPress == old(keyPress)[k := false];
        return;
      }
      SendKeyAndModifiers(t.keyCode, false, t.flags, t.synthetic);
      PushRepeat(t.keyCode, t.flags, t.synthetic);
    }

    /** The cancel that a stream's end issues from its own thread. */
    method ResetRequest()
      modifies this
      ensures View() == Apply(cfg, old(View()), CancelRepeat)
    {
      Cancel(repeatId);
    }

    method ReleaseKey(key: Kpid)
      requires IsPressed(keyPress, key)
      modifies `keyPress, `log
      ensures keyPress == old(keyPress)[key := false]
      ensures log == old(log) + [Update(CodeOf(cfg, key), true, key.flags)]
      ensures StillHeld(cfg, Hold({}, log), keyPress) == old(StillHeld(cfg, Hold({}, log), keyPress))
    {
      StillHeldKey(cfg, Hold({}, log), keyPress, key);
      KeyboardUpdate(MapKeycode(cfg, key.vk), true, key.flags);
      keyPress := keyPress[key := false];
    }

    method ResetKeyboardKeys()
      requires running == None
      modifies `keyPress, `log
      ensures View() == Apply(cfg, old(View()), Reset)
      ensures OnlyReleases(old(log), log)
    {
      ReleasePressed();
      AllVisited(cfg, old(keyPress), keyPress, Hold({}, log));
    }

    /** The loop over the table. */
    method ReleasePressed()
      modifies `keyPress, `log
      ensures Visited(old(keyPress), keyPress, {}) && OnlyReleases(old(log), log)
      ensures StillHeld(cfg, Hold({}, log), keyPress) == StillHeld(cfg, old(Hold({}, log)), old(keyPress))
    {
      var keys := keyPress.Keys;
      while keys != {}
        invariant keys <= keyPress.Keys
        invariant Visited(old(keyPress), keyPress, keys)
        invariant StillHeld(cfg, Hold({}, log), keyPress) == StillHeld(cfg, old(Hold({}, log)), old(keyPress))
        invariant OnlyReleases(old(log), log)
        decreases |keys|
      {
        var key :| key in keys;
        if keyPress[key] {
          ReleaseKey(key);
        }
        keys := keys - {key};
      }
    }
  }
}
