/**
 What a key packet does: which code reaches the host, with which modifiers around it, which modifiers a stream
 is taken to hold, and when a key repeats. Key codes are written as numbers here.
 */
module KeyboardEffects {

  import opened Wrappers
  import opened Keyboard

  /** The codes of a modifier: either side of the keyboard, or neither in particular. */
  function Codes(m: Mod): set<int> {
    match m
    case Shift => {0x10, 0xA0, 0xA1}
    case Ctrl => {0x11, 0xA2, 0xA3}
    case Alt => {0x12, 0xA4, 0xA5}
  }

  predicate IsModifier(code: int) { exists m: Mod :: code in Codes(m) }

  function KeyOf(p: Packet): Kpid { Kpid(p.keyCode % 0x100, p.flags) }

  /** A key without a binding is sent as it is, a bound one as its binding, of which 16 bits are kept. */
  lemma BoundCode(cfg: Config, vk: Byte)
    ensures vk !in cfg.bindings ==> MapKeycode(cfg, vk) == vk
    ensures vk in cfg.bindings ==> (cfg.bindings[vk] - MapKeycode(cfg, vk)) % 0x1_0000 == 0
    ensures vk in cfg.bindings && 0 <= cfg.bindings[vk] < 0x1_0000 ==> MapKeycode(cfg, vk) == cfg.bindings[vk]
  {
  }

  lemma ModifierCodes(code: Code)
    ensures forall m: Mod :: ModOf(code) == Some(m) <==> code in Codes(m)
    ensures ModOf(code).None? <==> !IsModifier(code)
  {
    if ModOf(code).Some? {
      assert code in Codes(ModOf(code).value);
    }
  }

  // Modifiers over runs.

  ghost predicate Forwarded(cfg: Config, before: seq<Event>, e: Event, id: nat) {
    && e.Receive? && e.client == id
    && IsPressed(Run(cfg, START, before).keyPress, KeyOf(e.p))
         != IsPressed(Run(cfg, START, before + [e]).keyPress, KeyOf(e.p))
  }

  /** Whether the last packet of stream `id` that changed a key bound to modifier `m` pressed it. */
  ghost function HoldsMod(cfg: Config, events: seq<Event>, id: nat, m: Mod): bool
    decreases |events|
  {
    if events == [] then false
    else
      var before, e := events[..|events| - 1], events[|events| - 1];
      if Forwarded(cfg, before, e, id) && MapKeycode(cfg, KeyOf(e.p).vk) in Codes(m) then !e.p.release
      else HoldsMod(cfg, before, id, m)
  }

  /** What a stream is taken to hold is just that. */
  lemma {:induction false} ModsTracked(cfg: Config, events: seq<Event>, id: nat, m: Mod)
    ensures m in ClientOf(Run(cfg, START, events), id).shortcutFlags <==> HoldsMod(cfg, events, id, m)
    decreases |events|
  {
    if events != [] {
      var before, e := events[..|events| - 1], events[|events| - 1];
      assert before + [e] == events;
      ModsTracked(cfg, before, id, m);
      if e.Receive? && Run(cfg, START, before).running == None {
        FlagsStep(cfg, Run(cfg, START, before), e.client, e.p, id, m);
      }
    }
  }

  lemma FlagsStep(cfg: Config, s: State, from: nat, p: Packet, id: nat, m: Mod)
    ensures var s' := Passthrough(cfg, s, from, p);
            m in ClientOf(s', id).shortcutFlags
            <==> if from == id && IsPressed(s.keyPress, KeyOf(p)) != IsPressed(s'.keyPress, KeyOf(p))
                    && MapKeycode(cfg, KeyOf(p).vk) in Codes(m)
                 then !p.release else m in ClientOf(s, id).shortcutFlags
  {
    ModifierCodes(MapKeycode(cfg, KeyOf(p).vk));
  }

  /** Whether the last packet of stream `id` for key `vk` pressed it, forwarded or not. */
  ghost function LastPressed(cfg: Config, events: seq<Event>, id: nat, vk: Byte): bool
    decreases |events|
  {
    if events == [] then false
    else
      var before, e := events[..|events| - 1], events[|events| - 1];
      if e.Receive? && e.client == id && KeyOf(e.p).vk == vk && Run(cfg, START, before).running == None
      then !e.p.release
      else LastPressed(cfg, before, id, vk)
  }

  lemma AltStep(cfg: Config, s: State, from: nat, p: Packet, id: nat)
    requires cfg.keyboard
    ensures var c, c' := ClientOf(s, id), ClientOf(Passthrough(cfg, s, from, p), id);
            && (c'.leftAlt <==> if from == id && KeyOf(p).vk == 0xA4 then !p.release else c.leftAlt)
            && (c'.rightAlt <==> if from == id && KeyOf(p).vk == 0xA5 then !p.release else c.rightAlt)
  {
  }

  /** The two Alt keys are tracked by their own codes, 0xA4 and 0xA5. */
  lemma {:induction false} AltsTracked(cfg: Config, events: seq<Event>, id: nat)
    requires cfg.keyboard
    ensures var c := ClientOf(Run(cfg, START, events), id);
            && (c.leftAlt <==> LastPressed(cfg, events, id, 0xA4))
            && (c.rightAlt <==> LastPressed(cfg, events, id, 0xA5))
    decreases |events|
  {
    if events != [] {
      var before, e := events[..|events| - 1], events[|events| - 1];
      AltsTracked(cfg, before, id);
      if e.Receive? && Run(cfg, START, before).running == None {
        AltStep(cfg, Run(cfg, START, before), e.client, e.p, id);
      }
    }
  }

  // One packet.

  /** With all three modifiers held, F1 to F13 and N are for the host's user, not for its applications. */
  predicate Swallowed(s: State, id: nat, vk: Byte) {
    ClientOf(s, id).shortcutFlags == {Shift, Ctrl, Alt} && (0x70 <= vk <= 0x7C || vk == 0x4E)
  }

  /** The modifier is to be pressed around the key: asked for, not held by the stream, and the key is none itself. */
  predicate Missing(cfg: Config, c: Client, p: Packet, m: Mod) {
    && m in p.modifiers && m !in c.shortcutFlags && !IsModifier(p.keyCode % 0x100)
    && !(m == Alt && cfg.rightAltIsWin && c.rightAlt && !c.leftAlt)
  }

  /** A new press: the host gets the code between exactly the missing modifiers, and only this key repeats from now. */
  lemma {:induction false} PressArrives(cfg: Config, s: State, id: nat, p: Packet) returns (mods: set<Mod>)
    requires cfg.keyboard && OneTimer(s) && s.running == None && !p.release
    requires !IsPressed(s.keyPress, KeyOf(p)) && !Swallowed(s, id, KeyOf(p).vk)
    ensures forall m: Mod :: m in mods <==> Missing(cfg, ClientOf(s, id), p, m)
    ensures var s', k := Apply(cfg, s, Receive(id, p)), KeyOf(p);
            && s'.held == Hold(s.held, Updates(MapKeycode(cfg, k.vk), false, p.flags, mods))
            && s'.keyPress == s.keyPress[k := true] && s'.running == None
            && if cfg.repeatDelay > 0 then
                 s'.repeatId == Some(s.nextId) && s'.pending == {Timer(s.nextId, k.vk, p.flags, mods)}
               else s'.pending == {}
  {
    var k := KeyOf(p);
    var c := TrackAlt(ClientOf(s, id), k.vk, false);
    mods := Synthetic(cfg, c, k.vk, p);
    ModifierCodes(k.vk);
    MissingMods(cfg, ClientOf(s, id), p, mods);
    assert Cancelled(s.pending, s.repeatId) == {};
    assert s.keyPress[k := false][k := true] == s.keyPress[k := true];
  }

  lemma MissingMods(cfg: Config, c: Client, p: Packet, mods: set<Mod>)
    requires !p.release && mods == Synthetic(cfg, TrackAlt(c, p.keyCode % 0x100, false), p.keyCode % 0x100, p)
    ensures forall m: Mod :: m in mods <==> Missing(cfg, c, p, m)
  {
    ModifierCodes(p.keyCode % 0x100);
  }

  /** The calls of one press, spelled out. */
  lemma PressSpelled(code: Code, flags: Byte)
    ensures Updates(code, false, flags, {Shift, Ctrl, Alt})
            == [Update(0x10, false, flags), Update(0x11, false, flags), Update(0x12, false, flags),
                Update(code, false, flags),
                Update(0x10, true, flags), Update(0x11, true, flags), Update(0x12, true, flags)]
    ensures Updates(code, false, flags, {}) == [Update(code, false, flags)]
    ensures forall mods :: Updates(code, true, flags, mods) == [Update(code, true, flags)]
  {
  }

  /** A release of a pressed key reaches the host alone, under the code the key is bound to. */
  lemma {:induction false} ReleaseArrives(cfg: Config, s: State, id: nat, p: Packet)
    requires cfg.keyboard && s.running == None && p.release && IsPressed(s.keyPress, KeyOf(p))
    ensures var s', k := Apply(cfg, s, Receive(id, p)), KeyOf(p);
            && s'.held == s.held - {MapKeycode(cfg, k.vk)} && s'.keyPress == s.keyPress[k := false]
            && s'.pending == s.pending && s'.repeatId == s.repeatId && s'.running == None
  {
    PressIsWrapped(s.held, MapKeycode(cfg, KeyOf(p).vk), p.flags, {});
    assert s.keyPress[KeyOf(p) := true][KeyOf(p) := false] == s.keyPress[KeyOf(p) := false];
  }

  /** What repeats the table's entry, and a shortcut, reach nobody. */
  lemma {:induction false} RestIgnored(cfg: Config, s: State, id: nat, p: Packet)
    requires cfg.keyboard ==> (IsPressed(s.keyPress, KeyOf(p)) <==> !p.release)
                              || (!p.release && Swallowed(s, id, KeyOf(p).vk))
    ensures var s' := Apply(cfg, s, Receive(id, p));
            && s'.held == s.held && s'.pending == s.pending && s'.repeatId == s.repeatId && s'.running == s.running
            && forall k :: IsPressed(s'.keyPress, k) <==> IsPressed(s.keyPress, k)
  {
  }

  /** A timer presses the key again, with the same modifiers, and repeats as long as the key is pressed. */
  lemma {:induction false} TimerRepeats(cfg: Config, s: State)
    requires OneTimer(s) && s.running.Some?
    ensures var s', t := Apply(cfg, s, Finish), s.running.value;
            && s'.running == None
            && if IsPressed(s.keyPress, Kpid(t.keyCode, t.flags)) then
                 && s'.held == Hold(s.held, Updates(MapKeycode(cfg, t.keyCode), false, t.flags, t.synthetic))
                 && s'.repeatId == Some(s.nextId) && s'.pending == {Timer(s.nextId, t.keyCode, t.flags, t.synthetic)}
               else s'.held == s.held && s'.repeatId == None && s'.pending == {}
  {
  }
}
