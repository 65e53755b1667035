/** From physical input to trigger edges: the hook procedures, the key and mouse state machines, binding capture and
    the emergency stop. */
module Trigger {
  import opened Actions
  import Input

  datatype Config = Config(
    trigger: KeyChord, suppress: bool, acceptInjected: bool, acceptBench: bool, emergency: KeyChord)

  /** What the sink is told. */
  datatype Call = TriggerDown | TriggerUp | Emergency | Captured(chord: KeyChord)

  const KEYS: nat := 256
  const BUTTONS: nat := 5
  const TAG_BENCH: nat := 0x4942_434E

  const CAPTURE_OFF: nat := 0
  const CAPTURE_KEYS: nat := 1
  const CAPTURE_ALL: nat := 2

  type Flags = seq<bool>

  datatype State = State(
    phys: Flags, swallowUp: Flags, swallowMouse: Flags, trigDown: bool, trigSuppressed: bool,
    capVk: nat, capScan: nat, capExt: bool, capture: nat, calls: seq<Call>)

  predicate Shaped(s: State) { |s.phys| == |s.swallowUp| == KEYS && |s.swallowMouse| == BUTTONS }

  function ModsOf(ctrl: bool, shift: bool, alt: bool, win: bool): set<Mod> {
    (if ctrl then {Ctrl} else {}) + (if shift then {Shift} else {}) + (if alt then {Alt} else {})
    + (if win then {Win} else {})
  }

  /** The modifiers that are physically held, on either side of the keyboard. */
  function PhysMods(phys: Flags): set<Mod>
    requires |phys| == KEYS
  {
    ModsOf(phys[VK_LCONTROL] || phys[VK_RCONTROL], phys[VK_LSHIFT] || phys[VK_RSHIFT],
           phys[VK_LMENU] || phys[VK_RMENU], phys[VK_LWIN] || phys[VK_RWIN])
  }

  predicate KeyMatches(c: KeyChord, vk: nat, ext: bool) {
    c.device == Keyboard &&
    if c.code == VK_CONTROL then vk in {VK_LCONTROL, VK_RCONTROL, VK_CONTROL}
    else if c.code == VK_SHIFT then vk in {VK_LSHIFT, VK_RSHIFT, VK_SHIFT}
    else if c.code == VK_MENU then vk in {VK_LMENU, VK_RMENU, VK_MENU}
    else if c.code == VK_RETURN then vk == VK_RETURN && ext == c.extended
    else c.code == vk
  }

  predicate ButtonMatches(c: KeyChord, b: nat) { c.device == Mouse && c.code == b }

  /** The equality of chords that decides whether the trigger was changed: the scan code does not matter. */
  predicate SameChord(a: KeyChord, b: KeyChord) {
    a.device == b.device && a.code == b.code && a.mods == b.mods && (a.device != Keyboard || a.extended == b.extended)
  }

  function Tell(s: State, call: Call): State { s.(calls := s.calls + [call]) }

  // ---------------------------------------------------------------- keys

  /** While a binding is being captured. */
  function CaptureKey(s: State, wasDown: bool, down: bool, vk: nat, scan: nat, ext: bool): (State, bool)
    requires Shaped(s) && vk < KEYS
  {
    if down then
      if ModBitForVk(vk) != {} then
        var s1 := if wasDown then s else s.(capVk := vk, capScan := scan, capExt := ext);
        (s1.(swallowUp := s.swallowUp[vk := true]), true)
      else
        var chord := KeyChord(Keyboard, vk, scan, ext, PhysMods(s.phys));
        (Tell(s.(capVk := 0, capture := CAPTURE_OFF, swallowUp := s.swallowUp[vk := true]), Captured(chord)), true)
    else
      var s1 :=
        if s.capVk != vk then s
        else
          var chord := KeyChord(Keyboard, vk, s.capScan, s.capExt, PhysMods(s.phys));
          Tell(s.(capVk := 0, capture := CAPTURE_OFF), Captured(chord));
      (s1.(swallowUp := s.swallowUp[vk := false]), s.swallowUp[vk])
  }

  /** The trigger goes down: told to the sink, and swallowed if that is wanted and the engine is armed. */
  function PressTrigger(cfg: Config, s: State, armed: bool): (State, bool) {
    (Tell(s.(trigDown := true, trigSuppressed := cfg.suppress && armed), TriggerDown), cfg.suppress && armed)
  }

  function ReleaseTrigger(s: State): (State, bool) {
    (Tell(s.(trigDown := false, trigSuppressed := false), TriggerUp), s.trigSuppressed)
  }

  function TriggerKey(cfg: Config, s: State, down: bool, armed: bool): (State, bool)
    requires Shaped(s)
  {
    if down then
      if s.trigDown then (s, s.trigSuppressed)
      else if cfg.trigger.mods <= PhysMods(s.phys) then PressTrigger(cfg, s, armed)
      else (s, false)
    else if s.trigDown then ReleaseTrigger(s)
    else (s, false)
  }

  function HandleKey(cfg: Config, s0: State, down: bool, vk: nat, scan: nat, ext: bool, armed: bool): (r: (State, bool))
    requires Shaped(s0) && vk < KEYS
    ensures Shaped(r.0)
  {
    var wasDown := s0.phys[vk];
    var s := s0.(phys := s0.phys[vk := down]);
    if s.capture != CAPTURE_OFF then CaptureKey(s, wasDown, down, vk, scan, ext)
    else
      var owed := !down && s.swallowUp[vk];
      var s1 := if owed then s.(swallowUp := s.swallowUp[vk := false]) else s;
      if owed && !(s.trigDown && KeyMatches(cfg.trigger, vk, ext)) then (s1, true)
      else if down && !wasDown && KeyMatches(cfg.emergency, vk, ext) && cfg.emergency.mods <= PhysMods(s.phys) then
        (Tell(s1.(swallowUp := s1.swallowUp[vk := true]), Emergency), true)
      else if KeyMatches(cfg.trigger, vk, ext) then
        var (s2, swallow) := TriggerKey(cfg, s1, down, armed);
        (s2, owed || swallow)
      else (s1, owed)
  }

  // ---------------------------------------------------------------- mouse buttons and wheel

  predicate IsWheel(b: nat) { b >= BUTTONS }

  function CaptureButton(s: State, b: nat, down: bool, overOwn: bool): (State, bool)
    requires Shaped(s)
  {
    if (b == 0 && overOwn) || !down then (s, false)
    else
      var s1 := s.(capture := CAPTURE_OFF,
                   swallowMouse := if IsWheel(b) then s.swallowMouse else s.swallowMouse[b := true]);
      (Tell(s1, Captured(KeyChord(Mouse, b, 0, false, PhysMods(s.phys)))), true)
  }

  function TriggerButton(cfg: Config, s: State, b: nat, down: bool, armed: bool): (State, bool)
    requires Shaped(s)
  {
    var modsOk := cfg.trigger.mods <= PhysMods(s.phys);
    if IsWheel(b) then
      if down && modsOk then (Tell(Tell(s, TriggerDown), TriggerUp), cfg.suppress && armed) else (s, false)
    else if down then
      if !s.trigDown && modsOk then PressTrigger(cfg, s, armed) else (s, false)
    else if s.trigDown then ReleaseTrigger(s)
    else (s, false)
  }

  function HandleMouse(cfg: Config, s: State, b: nat, down: bool, armed: bool, overOwn: bool): (r: (State, bool))
    requires Shaped(s)
    ensures Shaped(r.0)
  {
    if s.capture == CAPTURE_ALL then CaptureButton(s, b, down, overOwn)
    else
      var owed := !IsWheel(b) && !down && s.swallowMouse[b];
      var s1 := if owed then s.(swallowMouse := s.swallowMouse[b := false]) else s;
      if owed && !(s.trigDown && ButtonMatches(cfg.trigger, b)) then (s1, true)
      else if down && ButtonMatches(cfg.emergency, b) && cfg.emergency.mods <= PhysMods(s.phys) then
        (Tell(if IsWheel(b) then s1 else s1.(swallowMouse := s1.swallowMouse[b := true]), Emergency), true)
      else if ButtonMatches(cfg.trigger, b) then
        var (s2, swallow) := TriggerButton(cfg, s1, b, down, armed);
        (s2, owed || swallow)
      else (s1, owed)
  }

  // ---------------------------------------------------------------- events

  /** armed: what the sink answers when asked. overOwn: whether the cursor is over the program's own window. */
  datatype Event =
    | Key(down: bool, vk: nat, scan: nat, ext: bool, injected: bool, tag: nat, armed: bool)
    | Button(b: nat, down: bool, injected: bool, tag: nat, armed: bool, overOwn: bool)
    | Raw(changes: seq<(nat, bool)>, tag: nat, armed: bool, overOwn: bool)
    | Hotkey
    | Reconfigure(cfg: Config)
    | BeginCapture(allowMouse: bool)
    | CancelCapture

  predicate Physical(cfg: Config, tag: nat, injected: bool) {
    if tag == TAG_BENCH then cfg.acceptBench else !injected || cfg.acceptInjected
  }

  /** An event of the program's own output. */
  predicate IsOurs(e: Event) { (e.Key? || e.Button? || e.Raw?) && e.tag == Input.TAG }

  function RawChanges(cfg: Config, s: State, changes: seq<(nat, bool)>, armed: bool, overOwn: bool): (r: State)
    requires Shaped(s)
    ensures Shaped(r)
    decreases |changes|
  {
    hide HandleMouse;
    if changes == [] then s
    else
      RawChanges(cfg, HandleMouse(cfg, s, changes[0].0, changes[0].1, armed, overOwn).0, changes[1..], armed, overOwn)
  }

  /** One event: the configuration and the state afterwards, and whether the event is kept from other programs. */
  function React(cfg: Config, s: State, e: Event): (r: (Config, State, bool))
    requires Shaped(s)
    ensures Shaped(r.1)
  {
    hide HandleKey, HandleMouse, RawChanges, SameChord;
    if IsOurs(e) then (cfg, s, false)
    else match e
      case Key(down, vk, scan, ext, injected, tag, armed) =>
        if Physical(cfg, tag, injected) then
          var (s1, swallow) := HandleKey(cfg, s, down, vk % KEYS, scan, ext, armed);
          (cfg, s1, swallow)
        else (cfg, s, false)
      case Button(b, down, injected, tag, armed, overOwn) =>
        if Physical(cfg, tag, injected) then
          var (s1, swallow) := HandleMouse(cfg, s, b, down, armed, overOwn);
          (cfg, s1, swallow)
        else (cfg, s, false)
      case Raw(changes, tag, armed, overOwn) =>
        if tag == TAG_BENCH && !cfg.acceptBench then (cfg, s, false)
        else (cfg, RawChanges(cfg, s, changes, armed, overOwn), false)
      case Hotkey => (cfg, Tell(s, Emergency), false)
      case Reconfigure(new_) =>
        if SameChord(new_.trigger, cfg.trigger) then (new_, s, false)
        else (new_, s.(trigDown := false, trigSuppressed := false), false)
      case BeginCapture(allowMouse) => (cfg, s.(capture := if allowMouse then CAPTURE_ALL else CAPTURE_KEYS), false)
      case CancelCapture => (cfg, s.(capture := CAPTURE_OFF), false)
  }

  // ---------------------------------------------------------------- the class

  class TriggerEngine {
    var cfg: Config
    const physKey: array<bool>
    const swallowUp: array<bool>
    const swallowMouse: array<bool>
    var trigDown: bool
    var trigSuppressed: bool
    var capVk: nat
    var capScan: nat
    var capExt: bool
    var capture: nat
    var calls: seq<Call>
    var observedOurs: nat

    ghost predicate Valid()
      reads this, physKey, swallowUp, swallowMouse
    {
      && physKey.Length == swallowUp.Length == KEYS && swallowMouse.Length == BUTTONS
      && physKey != swallowUp && physKey != swallowMouse && swallowUp != swallowMouse
    }

    ghost function Now(): (s: State)
      requires Valid()
      reads this, physKey, swallowUp, swallowMouse
      ensures Shaped(s)
    {
      State(physKey[..], swallowUp[..], swallowMouse[..], trigDown, trigSuppressed, capVk, capScan, capExt, capture,
            calls)
    }

    constructor (c: Config)
      ensures Valid() && cfg == c && !trigDown && calls == [] && capture == CAPTURE_OFF
      ensures fresh(physKey) && fresh(swallowUp) && fresh(swallowMouse)
    {
      cfg := c;
      physKey := new bool[KEYS](_ => false);
      swallowUp := new bool[KEYS](_ => false);
      swallowMouse := new bool[BUTTONS](_ => false);
      trigDown, trigSuppressed, capVk, capScan, capExt := false, false, 0, 0, false;
      capture, calls, observedOurs := CAPTURE_OFF, [], 0;
    }

    method Mods() returns (m: set<Mod>)
      requires Valid()
      ensures m == PhysMods(physKey[..])
    {
      ghost var p := physKey[..];
      assert p[VK_LCONTROL] == physKey[VK_LCONTROL] && p[VK_RCONTROL] == physKey[VK_RCONTROL];
      assert p[VK_LSHIFT] == physKey[VK_LSHIFT] && p[VK_RSHIFT] == physKey[VK_RSHIFT];
      assert p[VK_LMENU] == physKey[VK_LMENU] && p[VK_RMENU] == physKey[VK_RMENU];
      assert p[VK_LWIN] == physKey[VK_LWIN] && p[VK_RWIN] == physKey[VK_RWIN];
      m := ModsOf(physKey[VK_LCONTROL] || physKey[VK_RCONTROL], physKey[VK_LSHIFT] || physKey[VK_RSHIFT],
                  physKey[VK_LMENU] || physKey[VK_RMENU], physKey[VK_LWIN] || physKey[VK_RWIN]);
    }

    method Put(a: array<bool>, i: nat, v: bool)
      requires Valid() && i < a.Length
      modifies a
      ensures Valid() && a[..] == old(a[..])[i := v]
    {
      a[i] := v;
    }

    method TellSink(call: Call)
      requires Valid()
      modifies this`calls
      ensures Valid() && Now() == Tell(old(Now()), call)
    {
      calls := calls + [call];
    }

    method CaptureKeyEvent(wasDown: bool, down: bool, vk: nat, scan: nat, ext: bool) returns (swallow: bool)
      requires Valid() && vk < KEYS
      modifies this`capVk, this`capScan, this`capExt, this`capture, this`calls, swallowUp
      ensures Valid() && (Now(), swallow) == CaptureKey(old(Now()), wasDown, down, vk, scan, ext)
    {
      hide PhysMods, ModBitForVk;
      swallow := false;
      var mods := Mods();
      if down {
        if ModBitForVk(vk) != {} {
          if !wasDown { capVk, capScan, capExt := vk, scan, ext; }
          Put(swallowUp, vk, true);
          return true;
        }
        capVk, capture := 0, CAPTURE_OFF;
        Put(swallowUp, vk, true);
        TellSink(Captured(KeyChord(Keyboard, vk, scan, ext, mods)));
        return true;
      }
      if capVk == vk {
        capVk, capture := 0, CAPTURE_OFF;
        TellSink(Captured(KeyChord(Keyboard, vk, capScan, capExt, mods)));
      }
      assert swallowUp[..][vk] == swallowUp[vk];
      if swallowUp[vk] {
        Put(swallowUp, vk, false);
        swallow := true;
      } else {
        assert swallowUp[..][vk := false] == swallowUp[..];
      }
    }

    method TriggerKeyEvent(down: bool, armed: bool) returns (swallow: bool)
      requires Valid()
      modifies this`trigDown, this`trigSuppressed, this`calls
      ensures Valid() && (Now(), swallow) == TriggerKey(cfg, old(Now()), down, armed)
    {
      hide PhysMods;
      swallow := false;
      var mods := Mods();
      if down {
        if trigDown {
          if trigSuppressed { swallow := true; }
          return;
        }
        if cfg.trigger.mods <= mods {
          trigDown, trigSuppressed := true, cfg.suppress && armed;
          TellSink(TriggerDown);
          if trigSuppressed { swallow := true; }
        }
      } else if trigDown {
        trigDown := false;
        TellSink(TriggerUp);
        if trigSuppressed {
          swallow := true;
          trigSuppressed := false;
        }
      }
    }

    method HandleKeyEvent(down: bool, vk: nat, scan: nat, ext: bool, armed: bool) returns (swallow: bool)
      requires Valid() && vk < KEYS
      modifies this`trigDown, this`trigSuppressed, this`capVk, this`capScan, this`capExt, this`capture, this`calls
      modifies physKey, swallowUp
      ensures Valid() && (Now(), swallow) == HandleKey(cfg, old(Now()), down, vk, scan, ext, armed)
    {
      hide PhysMods, KeyMatches, CaptureKey, TriggerKey;
      var wasDown := physKey[vk];
      Put(physKey, vk, down);
      if capture != CAPTURE_OFF {
        swallow := CaptureKeyEvent(wasDown, down, vk, scan, ext);
        return;
      }
      swallow := false;
      if !down && swallowUp[vk] {
        Put(swallowUp, vk, false);
        swallow := true;
        if !(trigDown && KeyMatches(cfg.trigger, vk, ext)) { return; }
      }
      var mods := Mods();
      if down && !wasDown && KeyMatches(cfg.emergency, vk, ext) && cfg.emergency.mods <= mods {
        TellSink(Emergency);
        Put(swallowUp, vk, true);
        return true;
      }
      if KeyMatches(cfg.trigger, vk, ext) {
        var more := TriggerKeyEvent(down, armed);
        swallow := swallow || more;
      }
    }

    method CaptureButtonEvent(b: nat, down: bool, overOwn: bool) returns (swallow: bool)
      requires Valid()
      modifies this`capture, this`calls, swallowMouse
      ensures Valid() && (Now(), swallow) == CaptureButton(old(Now()), b, down, overOwn)
    {
      hide PhysMods;
      swallow := false;
      if b == 0 && overOwn { return; }
      if down {
        var mods := Mods();
        capture := CAPTURE_OFF;
        if !IsWheel(b) { Put(swallowMouse, b, true); }
        TellSink(Captured(KeyChord(Mouse, b, 0, false, mods)));
        swallow := true;
      }
    }

    method TriggerButtonEvent(b: nat, down: bool, armed: bool) returns (swallow: bool)
      requires Valid()
      modifies this`trigDown, this`trigSuppressed, this`calls
      ensures Valid() && (Now(), swallow) == TriggerButton(cfg, old(Now()), b, down, armed)
    {
      hide PhysMods;
      swallow := false;
      var mods := Mods();
      var modsOk := cfg.trigger.mods <= mods;
      if IsWheel(b) {
        if down && modsOk {
          TellSink(TriggerDown);
          TellSink(TriggerUp);
          if cfg.suppress && armed { swallow := true; }
        }
        return;
      }
      if down {
        if trigDown { return; }
        if modsOk {
          trigDown, trigSuppressed := true, cfg.suppress && armed;
          TellSink(TriggerDown);
          if trigSuppressed { swallow := true; }
        }
      } else if trigDown {
        trigDown := false;
        TellSink(TriggerUp);
        if trigSuppressed {
          swallow := true;
          trigSuppressed := false;
        }
      }
    }

    method HandleMouseEvent(b: nat, down: bool, armed: bool, overOwn: bool) returns (swallow: bool)
      requires Valid()
      modifies this`trigDown, this`trigSuppressed, this`capture, this`calls, swallowMouse
      ensures Valid() && (Now(), swallow) == HandleMouse(cfg, old(Now()), b, down, armed, overOwn)
    {
      hide PhysMods, CaptureButton, TriggerButton;
      if capture == CAPTURE_ALL {
        swallow := CaptureButtonEvent(b, down, overOwn);
        return;
      }
      swallow := false;
      if !IsWheel(b) && !down && swallowMouse[b] {
        Put(swallowMouse, b, false);
        swallow := true;
        if !(trigDown && ButtonMatches(cfg.trigger, b)) { return; }
      }
      var mods := Mods();
      if down && ButtonMatches(cfg.emergency, b) && cfg.emergency.mods <= mods {
        TellSink(Emergency);
        if !IsWheel(b) { Put(swallowMouse, b, true); }
        return true;
      }
      if ButtonMatches(cfg.trigger, b) {
        var more := TriggerButtonEvent(b, down, armed);
        swallow := swallow || more;
      }
    }

    method HandleRaw(changes: seq<(nat, bool)>, armed: bool, overOwn: bool)
      requires Valid()
      modifies this`trigDown, this`trigSuppressed, this`capture, this`calls, swallowMouse
      ensures Valid() && Now() == RawChanges(cfg, old(Now()), changes, armed, overOwn)
    {
      hide HandleMouse;
      for i := 0 to |changes|
        invariant Valid()
        invariant RawChanges(cfg, Now(), changes[i..], armed, overOwn)
               == RawChanges(cfg, old(Now()), changes, armed, overOwn)
      {
        assert changes[i..][1..] == changes[i + 1..];
        var swallow := HandleMouseEvent(changes[i].0, changes[i].1, armed, overOwn);
      }
    }

    method Reconfig(c: Config)
      requires Valid()
      modifies this`cfg, this`trigDown, this`trigSuppressed
      ensures Valid() && (cfg, Now(), false) == React(old(cfg), old(Now()), Reconfigure(c))
    {
      var changed := !SameChord(c.trigger, cfg.trigger);
      cfg := c;
      if changed { trigDown, trigSuppressed := false, false; }
    }

    /** The hook procedures, the raw input handler and the window messages. */
    method Process(e: Event) returns (swallow: bool)
      requires Valid()
      modifies this, physKey, swallowUp, swallowMouse
      ensures Valid() && (cfg, Now(), swallow) == React(old(cfg), old(Now()), e)
      ensures observedOurs == old(observedOurs) + if IsOurs(e) then 1 else 0
    {
      hide HandleKey, HandleMouse, RawChanges, SameChord;
      swallow := false;
      if IsOurs(e) {
        observedOurs := observedOurs + 1;
        return;
      }
      match e
      case Key(down, vk, scan, ext, injected, tag, armed) =>
        if Physical(cfg, tag, injected) { swallow := HandleKeyEvent(down, vk % KEYS, scan, ext, armed); }
      case Button(b, down, injected, tag, armed, overOwn) =>
        if Physical(cfg, tag, injected) { swallow := HandleMouseEvent(b, down, armed, overOwn); }
      case Raw(changes, tag, armed, overOwn) =>
        if !(tag == TAG_BENCH && !cfg.acceptBench) { HandleRaw(changes, armed, overOwn); }
      case Hotkey => TellSink(Emergency);
      case Reconfigure(c) => Reconfig(c);
      case BeginCapture(allowMouse) => capture := if allowMouse then CAPTURE_ALL else CAPTURE_KEYS;
      case CancelCapture => capture := CAPTURE_OFF;
    }
  }

  // ---------------------------------------------------------------- whole runs

  /** A run over a list of events, with the decision made about each. */
  function Run(cfg: Config, s: State, es: seq<Event>): (r: (Config, State, seq<bool>))
    requires Shaped(s)
    ensures |r.2| == |es|
    decreases |es|
  {
    hide React;
    if es == [] then (cfg, s, [])
    else
      var (cfg1, s1, swallow) := React(cfg, s, es[0]);
      var (cfg2, s2, more) := Run(cfg1, s1, es[1..]);
      (cfg2, s2, [swallow] + more)
  }

  /** The events of others. */
  function Others(es: seq<Event>): seq<Event>
    decreases |es|
  {
    if es == [] then [] else (if IsOurs(es[0]) then [] else [es[0]]) + Others(es[1..])
  }

  /** The decisions about the events of others. */
  function OthersDecisions(es: seq<Event>, ds: seq<bool>): seq<bool>
    requires |es| == |ds|
    decreases |es|
  {
    if es == [] then [] else (if IsOurs(es[0]) then [] else [ds[0]]) + OthersDecisions(es[1..], ds[1..])
  }

  /** The program never reacts to its own output: without its own events the state, every call to the sink and every
      decision about the events of others are the same, from any state and over any run. */
  lemma {:induction false} NoFeedback(cfg: Config, s: State, es: seq<Event>)
    requires Shaped(s)
    ensures var (with_, without) := (Run(cfg, s, es), Run(cfg, s, Others(es)));
            with_.0 == without.0 && with_.1 == without.1 && OthersDecisions(es, with_.2) == without.2
    decreases |es|
  {
    hide React, IsOurs;
    if es != [] {
      var (cfg1, s1, swallow) := React(cfg, s, es[0]);
      NoFeedback(cfg1, s1, es[1..]);
      if IsOurs(es[0]) {
        OursChangeNothing(cfg, s, es[0]);
        assert Others(es) == Others(es[1..]);
      } else {
        assert Others(es)[1..] == Others(es[1..]);
      }
    }
  }

  lemma OursChangeNothing(cfg: Config, s: State, e: Event)
    requires Shaped(s) && IsOurs(e)
    ensures React(cfg, s, e) == (cfg, s, false)
  {
  }

  // ---------------------------------------------------------------- edges alternate

  /** The trigger edges among the calls: true for Down, false for Up. */
  function Edges(calls: seq<Call>): seq<bool> {
    if calls == [] then []
    else
      var last := calls[|calls| - 1];
      Edges(calls[..|calls| - 1])
      + (if last == TriggerDown then [true] else if last == TriggerUp then [false] else [])
  }

  /** Down, Up, Down, Up, ... */
  ghost predicate Alternating(edges: seq<bool>) {
    forall i :: 0 <= i < |edges| ==> edges[i] == (i % 2 == 0)
  }

  predicate IsWheelChord(c: KeyChord) { c.device == Mouse && IsWheel(c.code) }

  /** The edges told so far alternate, and down says which comes next. A wheel is never down. */
  ghost predicate Tracks(trigger: KeyChord, calls: seq<Call>, down: bool) {
    && Alternating(Edges(calls)) && down == (|Edges(calls)| % 2 == 1) && (IsWheelChord(trigger) ==> !down)
  }

  lemma TellEdges(calls: seq<Call>, call: Call)
    ensures Edges(calls + [call])
         == Edges(calls) + (if call == TriggerDown then [true] else if call == TriggerUp then [false] else [])
  {
    assert (calls + [call])[..|calls|] == calls;
  }

  lemma OtherCallKeeps(trigger: KeyChord, calls: seq<Call>, down: bool, call: Call)
    requires Tracks(trigger, calls, down) && call != TriggerDown && call != TriggerUp
    ensures Tracks(trigger, calls + [call], down)
  {
    hide Edges;
    TellEdges(calls, call);
  }

  lemma DownKeeps(trigger: KeyChord, calls: seq<Call>)
    requires Tracks(trigger, calls, false) && !IsWheelChord(trigger)
    ensures Tracks(trigger, calls + [TriggerDown], true)
  {
    hide Edges;
    TellEdges(calls, TriggerDown);
  }

  lemma UpKeeps(trigger: KeyChord, calls: seq<Call>)
    requires Tracks(trigger, calls, true)
    ensures Tracks(trigger, calls + [TriggerUp], false)
  {
    hide Edges;
    TellEdges(calls, TriggerUp);
  }

  lemma NotchKeeps(trigger: KeyChord, calls: seq<Call>)
    requires Tracks(trigger, calls, false)
    ensures Tracks(trigger, calls + [TriggerDown] + [TriggerUp], false)
  {
    hide Edges;
    TellEdges(calls, TriggerDown);
    TellEdges(calls + [TriggerDown], TriggerUp);
  }

  lemma CaptureKeyTracks(trigger: KeyChord, s: State, wasDown: bool, down: bool, vk: nat, scan: nat, ext: bool)
    requires Shaped(s) && vk < KEYS && Tracks(trigger, s.calls, s.trigDown)
    ensures var r := CaptureKey(s, wasDown, down, vk, scan, ext).0; Tracks(trigger, r.calls, r.trigDown)
  {
    hide PhysMods, Tracks, ModBitForVk;
    OtherCallKeeps(trigger, s.calls, s.trigDown, Captured(KeyChord(Keyboard, vk, scan, ext, PhysMods(s.phys))));
    OtherCallKeeps(trigger, s.calls, s.trigDown,
                   Captured(KeyChord(Keyboard, vk, s.capScan, s.capExt, PhysMods(s.phys))));
  }

  lemma TriggerKeyTracks(cfg: Config, s: State, down: bool, armed: bool)
    requires Shaped(s) && Tracks(cfg.trigger, s.calls, s.trigDown) && cfg.trigger.device == Keyboard
    ensures var r := TriggerKey(cfg, s, down, armed).0; Tracks(cfg.trigger, r.calls, r.trigDown)
  {
    hide PhysMods, Tracks;
    if s.trigDown { UpKeeps(cfg.trigger, s.calls); } else { DownKeeps(cfg.trigger, s.calls); }
  }

  lemma KeyTracks(cfg: Config, s: State, down: bool, vk: nat, scan: nat, ext: bool, armed: bool)
    requires Shaped(s) && vk < KEYS && Tracks(cfg.trigger, s.calls, s.trigDown)
    ensures var r := HandleKey(cfg, s, down, vk, scan, ext, armed).0; Tracks(cfg.trigger, r.calls, r.trigDown)
  {
    hide PhysMods, Tracks, CaptureKey, TriggerKey;
    var s1 := s.(phys := s.phys[vk := down]);
    CaptureKeyTracks(cfg.trigger, s1, s.phys[vk], down, vk, scan, ext);
    OtherCallKeeps(cfg.trigger, s.calls, s.trigDown, Emergency);
    if cfg.trigger.device == Keyboard {
      TriggerKeyTracks(cfg, s1, down, armed);
      if !down && s.swallowUp[vk] {
        TriggerKeyTracks(cfg, s1.(swallowUp := s.swallowUp[vk := false]), down, armed);
      }
    }
  }

  lemma CaptureButtonTracks(trigger: KeyChord, s: State, b: nat, down: bool, overOwn: bool)
    requires Shaped(s) && Tracks(trigger, s.calls, s.trigDown)
    ensures var r := CaptureButton(s, b, down, overOwn).0; Tracks(trigger, r.calls, r.trigDown)
  {
    hide PhysMods, Tracks;
    OtherCallKeeps(trigger, s.calls, s.trigDown, Captured(KeyChord(Mouse, b, 0, false, PhysMods(s.phys))));
  }

  lemma TriggerButtonTracks(cfg: Config, s: State, b: nat, down: bool, armed: bool)
    requires Shaped(s) && Tracks(cfg.trigger, s.calls, s.trigDown) && ButtonMatches(cfg.trigger, b)
    ensures var r := TriggerButton(cfg, s, b, down, armed).0; Tracks(cfg.trigger, r.calls, r.trigDown)
  {
    hide PhysMods, Tracks;
    if IsWheel(b) {
      WheelIsUp(cfg.trigger, s.calls, s.trigDown);
      NotchKeeps(cfg.trigger, s.calls);
    } else if s.trigDown {
      UpKeeps(cfg.trigger, s.calls);
    } else {
      DownKeeps(cfg.trigger, s.calls);
    }
  }

  lemma WheelIsUp(trigger: KeyChord, calls: seq<Call>, down: bool)
    requires Tracks(trigger, calls, down) && IsWheelChord(trigger)
    ensures !down
  {
  }

  lemma MouseTracks(cfg: Config, s: State, b: nat, down: bool, armed: bool, overOwn: bool)
    requires Shaped(s) && Tracks(cfg.trigger, s.calls, s.trigDown)
    ensures var r := HandleMouse(cfg, s, b, down, armed, overOwn).0; Tracks(cfg.trigger, r.calls, r.trigDown)
  {
    hide PhysMods, Tracks, CaptureButton, TriggerButton, ButtonMatches;
    CaptureButtonTracks(cfg.trigger, s, b, down, overOwn);
    OtherCallKeeps(cfg.trigger, s.calls, s.trigDown, Emergency);
    if ButtonMatches(cfg.trigger, b) {
      TriggerButtonTracks(cfg, s, b, down, armed);
      if !IsWheel(b) && !down && s.swallowMouse[b] {
        TriggerButtonTracks(cfg, s.(swallowMouse := s.swallowMouse[b := false]), b, down, armed);
      }
    }
  }

  lemma {:induction false} RawTracks(cfg: Config, s: State, changes: seq<(nat, bool)>, armed: bool, overOwn: bool)
    requires Shaped(s) && Tracks(cfg.trigger, s.calls, s.trigDown)
    ensures var r := RawChanges(cfg, s, changes, armed, overOwn); Tracks(cfg.trigger, r.calls, r.trigDown)
    decreases |changes|
  {
    hide HandleMouse, Tracks;
    if changes != [] {
      MouseTracks(cfg, s, changes[0].0, changes[0].1, armed, overOwn);
      RawTracks(cfg, HandleMouse(cfg, s, changes[0].0, changes[0].1, armed, overOwn).0, changes[1..], armed, overOwn);
    }
  }

  lemma SameChordTracks(a: KeyChord, b: KeyChord, calls: seq<Call>, down: bool)
    requires SameChord(a, b) && Tracks(b, calls, down)
    ensures Tracks(a, calls, down)
  {
  }

  lemma ReactTracks(cfg: Config, s: State, e: Event)
    requires Shaped(s) && Tracks(cfg.trigger, s.calls, s.trigDown)
    requires e.Reconfigure? ==> SameChord(e.cfg.trigger, cfg.trigger)
    ensures var r := React(cfg, s, e); Tracks(r.0.trigger, r.1.calls, r.1.trigDown)
    ensures var r := React(cfg, s, e); r.0 == if e.Reconfigure? then e.cfg else cfg
  {
    hide HandleKey, HandleMouse, RawChanges, SameChord, Tracks;
    match e
    case Key(down, vk, scan, ext, _, _, armed) => KeyTracks(cfg, s, down, vk % KEYS, scan, ext, armed);
    case Button(b, down, _, _, armed, overOwn) => MouseTracks(cfg, s, b, down, armed, overOwn);
    case Raw(changes, _, armed, overOwn) => RawTracks(cfg, s, changes, armed, overOwn);
    case Reconfigure(c) => SameChordTracks(c.trigger, cfg.trigger, s.calls, s.trigDown);
    case Hotkey => OtherCallKeeps(cfg.trigger, s.calls, s.trigDown, Emergency);
    case _ =>
  }

  /** While the configured trigger stays the same chord, the sink is told Down, Up, Down, Up, ..., through
      auto-repeat, capture, wheel notches, emergency stops and every other change of configuration. */
  lemma {:induction false} EdgesAlternate(cfg: Config, s: State, es: seq<Event>)
    requires Shaped(s) && Tracks(cfg.trigger, s.calls, s.trigDown)
    requires forall e :: e in es && e.Reconfigure? ==> SameChord(e.cfg.trigger, cfg.trigger)
    ensures var r := Run(cfg, s, es); Tracks(r.0.trigger, r.1.calls, r.1.trigDown)
    decreases |es|
  {
    hide React, Tracks;
    if es != [] {
      var (cfg1, s1, swallow) := React(cfg, s, es[0]);
      assert es[0] in es;
      ReactTracks(cfg, s, es[0]);
      SameTrigger(cfg.trigger, cfg1.trigger, es);
      EdgesAlternate(cfg1, s1, es[1..]);
    }
  }

  lemma SameTrigger(a: KeyChord, b: KeyChord, es: seq<Event>)
    requires SameChord(b, a) && es != []
    requires forall e :: e in es && e.Reconfigure? ==> SameChord(e.cfg.trigger, a)
    ensures forall e :: e in es[1..] && e.Reconfigure? ==> SameChord(e.cfg.trigger, b)
  {
  }

  /** A corner of that: the release of a trigger key that is down is told to the sink exactly if no capture is under
      way. Otherwise the sink goes on believing it is down until it has been pressed and released once more. */
  lemma KeyReleaseToldIff(cfg: Config, s: State, vk: nat, scan: nat, ext: bool, armed: bool)
    requires Shaped(s) && vk < KEYS && s.trigDown && KeyMatches(cfg.trigger, vk, ext)
    ensures var r := HandleKey(cfg, s, false, vk, scan, ext, armed).0;
            && (r.calls == s.calls + [TriggerUp] && !r.trigDown <==> s.capture == CAPTURE_OFF)
            && (s.capture != CAPTURE_OFF ==> r.trigDown)
  {
    hide PhysMods, KeyMatches, ModBitForVk;
  }

  /** The release of a trigger button is told exactly unless the capture takes mouse buttons too. */
  lemma ButtonReleaseToldIff(cfg: Config, s: State, b: nat, armed: bool, overOwn: bool)
    requires Shaped(s) && b < BUTTONS && s.trigDown && ButtonMatches(cfg.trigger, b)
    ensures var r := HandleMouse(cfg, s, b, false, armed, overOwn).0;
            && (r.calls == s.calls + [TriggerUp] && !r.trigDown <==> s.capture != CAPTURE_ALL)
            && (s.capture == CAPTURE_ALL ==> r.trigDown)
  {
    hide PhysMods;
  }

  const IDLE_STATE := State(seq(KEYS, _ => false), seq(KEYS, _ => false), seq(BUTTONS, _ => false), false, false,
                            0, 0, false, CAPTURE_OFF, [])

  /** F6 is the trigger: it goes down, a capture begins, it goes up; the sink has been told of the Down alone. */
  lemma CaptureHidesTheRelease()
    ensures var cfg := Config(KeyChord(Keyboard, 0x75, 0, false, {}), false, false, false,
                              KeyChord(NoDevice, 0, 0, false, {}));
            var down, up := Key(true, 0x75, 0x40, false, false, 0, true), Key(false, 0x75, 0x40, false, false, 0, true);
            var r := Run(cfg, IDLE_STATE, [down, BeginCapture(false), up]).1;
            r.calls == [TriggerDown] && r.trigDown
  {
    hide PhysMods, ModBitForVk, Run;
    var cfg := Config(KeyChord(Keyboard, 0x75, 0, false, {}), false, false, false,
                      KeyChord(NoDevice, 0, 0, false, {}));
    var down, up := Key(true, 0x75, 0x40, false, false, 0, true), Key(false, 0x75, 0x40, false, false, 0, true);
    var s1 := React(cfg, IDLE_STATE, down).1;
    assert s1.calls == [TriggerDown] && s1.trigDown && s1.capVk == 0;
    var s2 := React(cfg, s1, BeginCapture(false)).1;
    var s3 := React(cfg, s2, up).1;
    assert s3.calls == [TriggerDown] && s3.trigDown;
    RunThree(cfg, IDLE_STATE, down, BeginCapture(false), up);
  }

  lemma RunThree(cfg: Config, s: State, a: Event, b: Event, c: Event)
    requires Shaped(s) && !a.Reconfigure? && !b.Reconfigure? && !c.Reconfigure?
    ensures Run(cfg, s, [a, b, c]).1 == React(cfg, React(cfg, React(cfg, s, a).1, b).1, c).1
  {
    hide React;
    var s1 := React(cfg, s, a).1;
    var s2 := React(cfg, s1, b).1;
    KeepsConfig(cfg, s, a);
    KeepsConfig(cfg, s1, b);
    RunFirst(cfg, s, a, [b, c]);
    RunFirst(cfg, s1, b, [c]);
    RunFirst(cfg, s2, c, []);
    assert [a] + [b, c] == [a, b, c] && [b] + [c] == [b, c] && [c] + [] == [c];
  }

  lemma RunFirst(cfg: Config, s: State, e: Event, es: seq<Event>)
    requires Shaped(s)
    ensures var r := React(cfg, s, e); Run(cfg, s, [e] + es).1 == Run(r.0, r.1, es).1
    ensures es == [] ==> Run(cfg, s, [e] + es).1 == React(cfg, s, e).1
  {
    hide React;
    assert ([e] + es)[1..] == es;
  }

  lemma KeepsConfig(cfg: Config, s: State, e: Event)
    requires Shaped(s) && !e.Reconfigure?
    ensures React(cfg, s, e).0 == cfg
  {
    hide HandleKey, HandleMouse, RawChanges;
  }

  // ---------------------------------------------------------------- the emergency stop

  /** A key event makes the sink's emergency stop go off exactly when it is a fresh physical press that completes the
      emergency chord, whatever the trigger is doing; capture alone suspends it. */
  lemma EmergencyIff(cfg: Config, s: State, e: Event)
    requires Shaped(s) && e.Key?
    ensures var vk := e.vk % KEYS;
            React(cfg, s, e).1.calls == s.calls + [Emergency] <==>
              && !IsOurs(e) && Physical(cfg, e.tag, e.injected) && s.capture == CAPTURE_OFF
              && e.down && !s.phys[vk] && KeyMatches(cfg.emergency, vk, e.ext)
              && cfg.emergency.mods <= PhysMods(s.phys[vk := true])
  {
    hide PhysMods, KeyMatches, ModBitForVk, CaptureKey, TriggerKey;
    var vk := e.vk % KEYS;
    var t := s.(phys := s.phys[vk := e.down]);
    OneMoreCall(s.calls);
    CaptureIsNoEmergency(t, s.phys[vk], e.down, vk, e.scan, e.ext);
    TriggerIsNoEmergency(cfg, t, e.down, e.armed);
    TriggerIsNoEmergency(cfg, t.(swallowUp := t.swallowUp[vk := false]), e.down, e.armed);
  }

  /** A mouse button or a wheel notch sets it off exactly when it goes down, physically, and completes the chord; there
      is no test for a fresh press, so a second DOWN sets it off again. Only a capture of mouse buttons suspends it. */
  lemma EmergencyButtonIff(cfg: Config, s: State, e: Event)
    requires Shaped(s) && e.Button?
    ensures React(cfg, s, e).1.calls == s.calls + [Emergency] <==>
              && !IsOurs(e) && Physical(cfg, e.tag, e.injected) && s.capture != CAPTURE_ALL
              && e.down && ButtonMatches(cfg.emergency, e.b) && cfg.emergency.mods <= PhysMods(s.phys)
  {
    hide PhysMods, ButtonMatches, CaptureButton, TriggerButton;
    OneMoreCall(s.calls);
    CaptureButtonIsNoEmergency(s, e.b, e.down, e.overOwn);
    TriggerButtonIsNoEmergency(cfg, s, e.b, e.down, e.armed);
    if !IsWheel(e.b) {
      TriggerButtonIsNoEmergency(cfg, s.(swallowMouse := s.swallowMouse[e.b := false]), e.b, e.down, e.armed);
    }
  }

  lemma CaptureButtonIsNoEmergency(s: State, b: nat, down: bool, overOwn: bool)
    requires Shaped(s)
    ensures CaptureButton(s, b, down, overOwn).0.calls != s.calls + [Emergency]
  {
    hide PhysMods;
    OneMoreCall(s.calls);
  }

  lemma TriggerButtonIsNoEmergency(cfg: Config, s: State, b: nat, down: bool, armed: bool)
    requires Shaped(s)
    ensures TriggerButton(cfg, s, b, down, armed).0.calls != s.calls + [Emergency]
  {
    hide PhysMods;
    OneMoreCall(s.calls);
    if IsWheel(b) { assert |s.calls + [TriggerDown] + [TriggerUp]| == |s.calls| + 2; }
  }

  lemma CaptureIsNoEmergency(s: State, wasDown: bool, down: bool, vk: nat, scan: nat, ext: bool)
    requires Shaped(s) && vk < KEYS
    ensures CaptureKey(s, wasDown, down, vk, scan, ext).0.calls != s.calls + [Emergency]
  {
    hide PhysMods, ModBitForVk;
    OneMoreCall(s.calls);
  }

  lemma TriggerIsNoEmergency(cfg: Config, s: State, down: bool, armed: bool)
    requires Shaped(s)
    ensures TriggerKey(cfg, s, down, armed).0.calls != s.calls + [Emergency]
  {
    hide PhysMods;
    OneMoreCall(s.calls);
  }

  lemma OneMoreCall(calls: seq<Call>)
    ensures forall x: Call {:trigger calls + [x]} :: (calls + [x])[|calls|] == x && |calls + [x]| == |calls| + 1
  {
  }
}
