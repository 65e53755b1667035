/** When the sink is told of a trigger press or of a captured chord, and which events are kept from other programs. */
module TriggerEdges {
  import opened Actions
  import opened Trigger
  import Input

  // ---------------------------------------------------------------- which keys count

  /** Left-hand and right-hand key of a modifier. */
  function Sides(m: Mod): (nat, nat) {
    match m
    case Ctrl => (VK_LCONTROL, VK_RCONTROL)
    case Shift => (VK_LSHIFT, VK_RSHIFT)
    case Alt => (VK_LMENU, VK_RMENU)
    case Win => (VK_LWIN, VK_RWIN)
  }

  /** A modifier is held exactly if its key is down on one side of the keyboard. */
  lemma ModIsHeldIff(phys: Flags, m: Mod)
    requires |phys| == KEYS
    ensures m in PhysMods(phys) <==> phys[Sides(m).0] || phys[Sides(m).1]
  {
  }

  /** A key matches a chord if it is that key, or a side of the modifier that the chord names without a side; of the two
      Enter keys only the right one does. */
  lemma KeyMatchesIff(c: KeyChord, vk: nat, ext: bool)
    ensures KeyMatches(c, vk, ext) <==>
              && c.device == Keyboard && (c.code == VK_RETURN ==> ext == c.extended)
              && (|| vk == c.code
                  || (c.code == VK_CONTROL && (vk == Sides(Ctrl).0 || vk == Sides(Ctrl).1))
                  || (c.code == VK_SHIFT && (vk == Sides(Shift).0 || vk == Sides(Shift).1))
                  || (c.code == VK_MENU && (vk == Sides(Alt).0 || vk == Sides(Alt).1)))
  {
  }

  // ---------------------------------------------------------------- key presses

  /** An event that counts: not the program's own output, and physical, unless injected events are accepted too; those
      of the benchmark count when they are asked for. */
  predicate Counts(cfg: Config, tag: nat, injected: bool) {
    && tag != Input.TAG
    && (tag == TAG_BENCH ==> cfg.acceptBench) && (tag != TAG_BENCH && injected ==> cfg.acceptInjected)
  }

  /** A fresh press that completes the emergency chord, outside capture. */
  predicate KeyEmergency(cfg: Config, s: State, e: Trigger.Event)
    requires Shaped(s) && e.Key?
  {
    var vk := e.vk % KEYS;
    && s.capture == CAPTURE_OFF && e.down && !s.phys[vk] && KeyMatches(cfg.emergency, vk, e.ext)
    && cfg.emergency.mods <= PhysMods(s.phys[vk := true])
  }

  /** A press of the trigger key, outside capture, with all modifiers of the trigger held, while the trigger is up. */
  predicate KeyPress(cfg: Config, s: State, e: Trigger.Event)
    requires Shaped(s) && e.Key?
  {
    var vk := e.vk % KEYS;
    && s.capture == CAPTURE_OFF && e.down && KeyMatches(cfg.trigger, vk, e.ext) && !s.trigDown
    && cfg.trigger.mods <= PhysMods(s.phys[vk := true])
  }

  lemma OneMore(calls: seq<Call>, x: Call, y: Call)
    ensures calls + [x] == calls + [y] <==> x == y
    ensures calls != calls + [x]
  {
    assert (calls + [x])[|calls|] == x && (calls + [y])[|calls|] == y;
  }

  /** A key event tells the sink of a trigger press if and only if it counts, presses the trigger, and is not the
      emergency stop. From then on the trigger is down, and it is suppressed exactly if that is wanted and the engine
      is armed. */
  lemma KeyPressToldIff(cfg: Config, s: State, e: Trigger.Event)
    requires Shaped(s) && e.Key?
    ensures var r := React(cfg, s, e).1;
            && (r.calls == s.calls + [TriggerDown] <==>
                  Counts(cfg, e.tag, e.injected) && KeyPress(cfg, s, e) && !KeyEmergency(cfg, s, e))
            && (r.calls == s.calls + [TriggerDown] ==> r.trigDown && r.trigSuppressed == (cfg.suppress && e.armed))
  {
    hide PhysMods, KeyMatches, ModBitForVk, CaptureKey, TriggerKey;
    OneMore(s.calls, TriggerDown, Emergency);
    var vk := e.vk % KEYS;
    var t := s.(phys := s.phys[vk := e.down]);
    CaptureTellsNoPress(t, s.phys[vk], e.down, vk, e.scan, e.ext);
    TriggerKeyTells(cfg, t, e.down, e.armed);
    TriggerKeyTells(cfg, t.(swallowUp := t.swallowUp[vk := false]), e.down, e.armed);
  }

  lemma CaptureTellsNoPress(s: State, wasDown: bool, down: bool, vk: nat, scan: nat, ext: bool)
    requires Shaped(s) && vk < KEYS
    ensures CaptureKey(s, wasDown, down, vk, scan, ext).0.calls != s.calls + [TriggerDown]
  {
    hide PhysMods, ModBitForVk;
    OneMore(s.calls, TriggerDown, Captured(KeyChord(Keyboard, vk, scan, ext, PhysMods(s.phys))));
    OneMore(s.calls, TriggerDown, Captured(KeyChord(Keyboard, vk, s.capScan, s.capExt, PhysMods(s.phys))));
  }

  lemma TriggerKeyTells(cfg: Config, s: State, down: bool, armed: bool)
    requires Shaped(s)
    ensures var r := TriggerKey(cfg, s, down, armed).0;
            && (r.calls == s.calls + [TriggerDown] <==> down && !s.trigDown && cfg.trigger.mods <= PhysMods(s.phys))
            && (r.calls == s.calls + [TriggerDown] ==> r.trigDown && r.trigSuppressed == (cfg.suppress && armed))
  {
    hide PhysMods;
    OneMore(s.calls, TriggerDown, TriggerUp);
  }

  /** A key event is kept from other programs if and only if it counts and: it is a DOWN during capture, or the UP of a
      key whose DOWN was kept; or it sets off the emergency stop; or it is of the trigger key and the trigger is down
      and suppressed, or it is a told press while suppression is wanted and the engine is armed. */
  lemma KeySwallowedIff(cfg: Config, s: State, e: Trigger.Event)
    requires Shaped(s) && e.Key?
    ensures var vk := e.vk % KEYS;
            React(cfg, s, e).2 <==>
              && Counts(cfg, e.tag, e.injected)
              && (|| (s.capture != CAPTURE_OFF && e.down)
                  || (!e.down && s.swallowUp[vk])
                  || KeyEmergency(cfg, s, e)
                  || (s.capture == CAPTURE_OFF && KeyMatches(cfg.trigger, vk, e.ext) && s.trigDown && s.trigSuppressed)
                  || (KeyPress(cfg, s, e) && cfg.suppress && e.armed))
  {
    hide PhysMods, KeyMatches, ModBitForVk;
  }

  /** Whose UP is to be kept: exactly a key whose last DOWN was kept by a capture or by the emergency stop. */
  lemma OwedKeys(cfg: Config, s: State, e: Trigger.Event)
    requires Shaped(s) && e.Key?
    ensures var vk := e.vk % KEYS;
            var owed := e.down && (s.swallowUp[vk] || s.capture != CAPTURE_OFF || KeyEmergency(cfg, s, e));
            React(cfg, s, e).1.swallowUp
            == if Counts(cfg, e.tag, e.injected) then s.swallowUp[vk := owed] else s.swallowUp
  {
    hide PhysMods, KeyMatches, ModBitForVk;
  }

  // ---------------------------------------------------------------- buttons and wheel

  predicate ButtonEmergency(cfg: Config, s: State, e: Trigger.Event)
    requires Shaped(s) && e.Button?
  {
    && s.capture != CAPTURE_ALL && e.down && ButtonMatches(cfg.emergency, e.b)
    && cfg.emergency.mods <= PhysMods(s.phys)
  }

  /** A press of the trigger button, or a notch of the trigger wheel, outside a capture of the mouse, with all modifiers
      held; a button must be up. */
  predicate ButtonPress(cfg: Config, s: State, e: Trigger.Event)
    requires Shaped(s) && e.Button?
  {
    && s.capture != CAPTURE_ALL && e.down && cfg.trigger.device == Mouse && cfg.trigger.code == e.b
    && cfg.trigger.mods <= PhysMods(s.phys) && (e.b < BUTTONS ==> !s.trigDown)
  }

  /** What a press tells: a notch is over at once. */
  function PressCalls(b: nat): seq<Call> { if b < BUTTONS then [TriggerDown] else [TriggerDown, TriggerUp] }

  /** The same for buttons, and for notches of the wheel, which are told as a press and a release. */
  lemma ButtonPressToldIff(cfg: Config, s: State, e: Trigger.Event)
    requires Shaped(s) && e.Button?
    ensures var r := React(cfg, s, e).1;
            && (r.calls == s.calls + PressCalls(e.b) <==>
                  Counts(cfg, e.tag, e.injected) && ButtonPress(cfg, s, e) && !ButtonEmergency(cfg, s, e))
            && (r.calls == s.calls + PressCalls(e.b) && e.b < BUTTONS ==>
                  r.trigDown && r.trigSuppressed == (cfg.suppress && e.armed))
  {
    hide PhysMods, PressCalls, HandleMouse;
    MouseTells(cfg, s, e);
    NoPress(s.calls, e.b, Emergency);
  }

  lemma MouseTells(cfg: Config, s: State, e: Trigger.Event)
    requires Shaped(s) && e.Button?
    ensures var r := HandleMouse(cfg, s, e.b, e.down, e.armed, e.overOwn).0;
            && (r.calls == s.calls + PressCalls(e.b) <==> ButtonPress(cfg, s, e) && !ButtonEmergency(cfg, s, e))
            && (r.calls == s.calls + PressCalls(e.b) && e.b < BUTTONS ==>
                  r.trigDown && r.trigSuppressed == (cfg.suppress && e.armed))
  {
    hide PhysMods, PressCalls, CaptureButton, TriggerButton;
    NoPress(s.calls, e.b, Emergency);
    CaptureButtonTellsNoPress(s, e.b, e.down, e.overOwn);
    TriggerButtonTells(cfg, s, e.b, e.down, e.armed);
    if e.b < BUTTONS {
      TriggerButtonTells(cfg, s.(swallowMouse := s.swallowMouse[e.b := false]), e.b, e.down, e.armed);
    }
  }

  lemma NoPress(calls: seq<Call>, b: nat, x: Call)
    requires x != TriggerDown
    ensures calls + [x] != calls + PressCalls(b) && calls + PressCalls(b) != calls
  {
    OneMore(calls, TriggerDown, x);
    assert |calls + PressCalls(b)| == |calls| + |PressCalls(b)|;
  }

  lemma CaptureButtonTellsNoPress(s: State, b: nat, down: bool, overOwn: bool)
    requires Shaped(s)
    ensures CaptureButton(s, b, down, overOwn).0.calls != s.calls + PressCalls(b)
  {
    hide PhysMods, PressCalls;
    NoPress(s.calls, b, Captured(KeyChord(Mouse, b, 0, false, PhysMods(s.phys))));
  }

  lemma TriggerButtonTells(cfg: Config, s: State, b: nat, down: bool, armed: bool)
    requires Shaped(s)
    ensures var r := TriggerButton(cfg, s, b, down, armed).0;
            && (r.calls == s.calls + PressCalls(b) <==>
                  down && cfg.trigger.mods <= PhysMods(s.phys) && (b < BUTTONS ==> !s.trigDown))
            && (r.calls == s.calls + PressCalls(b) && b < BUTTONS ==>
                  r.trigDown && r.trigSuppressed == (cfg.suppress && armed))
  {
    hide PhysMods;
    NoPress(s.calls, b, TriggerUp);
    assert s.calls + [TriggerDown] + [TriggerUp] == s.calls + [TriggerDown, TriggerUp];
  }

  /** A button event is kept from other programs if and only if it counts and: it is captured; or it is the UP of a
      button whose DOWN was kept; or it sets off the emergency stop; or it is the UP of a suppressed trigger; or it is a
      told press while suppression is wanted and the engine is armed. */
  lemma ButtonSwallowedIff(cfg: Config, s: State, e: Trigger.Event)
    requires Shaped(s) && e.Button?
    ensures React(cfg, s, e).2 <==>
              && Counts(cfg, e.tag, e.injected)
              && (|| (s.capture == CAPTURE_ALL && e.down && !(e.b == 0 && e.overOwn))
                  || (s.capture != CAPTURE_ALL && e.b < BUTTONS && !e.down && s.swallowMouse[e.b])
                  || ButtonEmergency(cfg, s, e)
                  || (s.capture != CAPTURE_ALL && ButtonMatches(cfg.trigger, e.b) && e.b < BUTTONS && !e.down
                      && s.trigDown && s.trigSuppressed)
                  || (ButtonPress(cfg, s, e) && cfg.suppress && e.armed))
  {
    hide PhysMods;
  }

  /** So is a button's; with a capture of the mouse that is under way, none is given back. */
  lemma OwedButtons(cfg: Config, s: State, e: Trigger.Event)
    requires Shaped(s) && e.Button?
    ensures var owed := e.b < BUTTONS && e.down && (TakesButton(s, e) || ButtonEmergency(cfg, s, e));
            var given := e.b < BUTTONS && !e.down && s.capture != CAPTURE_ALL;
            React(cfg, s, e).1.swallowMouse
            == if Counts(cfg, e.tag, e.injected) && (owed || given) then s.swallowMouse[e.b := owed] else s.swallowMouse
  {
    hide PhysMods;
  }

  // ---------------------------------------------------------------- raw input

  /** The changes of a raw input event, as events of their own. */
  function Buttons(changes: seq<(nat, bool)>, armed: bool, overOwn: bool): seq<Trigger.Event>
    decreases |changes|
  {
    if changes == [] then []
    else [Button(changes[0].0, changes[0].1, false, 0, armed, overOwn)] + Buttons(changes[1..], armed, overOwn)
  }

  /** Raw input, which knows no injected events, tells the sink what button events one after another would; it keeps
      nothing from other programs. */
  lemma RawIsButtons(cfg: Config, s: State, changes: seq<(nat, bool)>, tag: nat, armed: bool, overOwn: bool)
    requires Shaped(s)
    ensures var (c, t, swallow) := React(cfg, s, Raw(changes, tag, armed, overOwn));
            && c == cfg && !swallow
            && t == if Counts(cfg, tag, false) then Run(cfg, s, Buttons(changes, armed, overOwn)).1 else s
  {
    hide RawChanges, Run;
    ChangesAreButtons(cfg, s, changes, armed, overOwn);
  }

  lemma {:induction false} ChangesAreButtons(cfg: Config, s: State, changes: seq<(nat, bool)>, armed: bool,
                                             overOwn: bool)
    requires Shaped(s)
    ensures RawChanges(cfg, s, changes, armed, overOwn) == Run(cfg, s, Buttons(changes, armed, overOwn)).1
    decreases |changes|
  {
    hide HandleMouse, React, Run;
    if changes == [] {
      NoRun(cfg, s, Buttons(changes, armed, overOwn));
    } else {
      var e := Button(changes[0].0, changes[0].1, false, 0, armed, overOwn);
      OneButton(cfg, s, e);
      RunFirst(cfg, s, e, Buttons(changes[1..], armed, overOwn));
      ChangesAreButtons(cfg, React(cfg, s, e).1, changes[1..], armed, overOwn);
    }
  }

  lemma NoRun(cfg: Config, s: State, es: seq<Trigger.Event>)
    requires Shaped(s) && es == []
    ensures Run(cfg, s, es).1 == s
  {
  }

  lemma OneButton(cfg: Config, s: State, e: Trigger.Event)
    requires Shaped(s) && e.Button? && e.tag == 0 && !e.injected
    ensures React(cfg, s, e).0 == cfg && React(cfg, s, e).1 == HandleMouse(cfg, s, e.b, e.down, e.armed, e.overOwn).0
  {
    hide HandleMouse;
  }

  // ---------------------------------------------------------------- suppression lasts as long as the press

  /** Whether the trigger is suppressed does not change while it is down, whatever event comes. */
  lemma SuppressedAsPressed(cfg: Config, s: State, e: Trigger.Event)
    requires Shaped(s) && s.trigDown && React(cfg, s, e).1.trigDown && !e.Raw?
    ensures React(cfg, s, e).1.trigSuppressed == s.trigSuppressed
  {
    hide PhysMods, KeyMatches, ModBitForVk, SameChord;
  }

  // ---------------------------------------------------------------- capture

  /** The sink has been told of a chord. */
  predicate ToldChord(before: seq<Call>, after: seq<Call>) { |after| > |before| && after[|before|].Captured? }

  /** During capture a key event tells the sink of a chord if and only if it counts and is the DOWN of a key that is no
      modifier, or the UP of the modifier that went down last; the chord has the modifiers that are still held, and
      the capture is over. */
  lemma KeyCapturedIff(cfg: Config, s: State, e: Trigger.Event)
    requires Shaped(s) && e.Key?
    ensures var vk := e.vk % KEYS;
            var (r, mods) := (React(cfg, s, e).1, PhysMods(s.phys[vk := e.down]));
            var told := Counts(cfg, e.tag, e.injected) && s.capture != CAPTURE_OFF
                        && if e.down then ModBitForVk(vk) == {} else s.capVk == vk;
            var chord := if e.down then KeyChord(Keyboard, vk, e.scan, e.ext, mods)
                         else KeyChord(Keyboard, vk, s.capScan, s.capExt, mods);
            && (ToldChord(s.calls, r.calls) <==> told)
            && (told ==> r.calls == s.calls + [Captured(chord)] && r.capture == CAPTURE_OFF)
  {
    hide PhysMods, KeyMatches, ModBitForVk, TriggerKey, CaptureKey, ToldChord;
    var vk := e.vk % KEYS;
    var t := s.(phys := s.phys[vk := e.down]);
    CaptureKeyTells(t, s.phys[vk], e.down, vk, e.scan, e.ext);
    NoChord(s.calls, Emergency);
    TriggerCapturesNothing(cfg, t, e.down, e.armed);
    TriggerCapturesNothing(cfg, t.(swallowUp := t.swallowUp[vk := false]), e.down, e.armed);
  }

  lemma CaptureKeyTells(s: State, wasDown: bool, down: bool, vk: nat, scan: nat, ext: bool)
    requires Shaped(s) && vk < KEYS
    ensures var r := CaptureKey(s, wasDown, down, vk, scan, ext).0;
            var told := if down then ModBitForVk(vk) == {} else s.capVk == vk;
            var chord := if down then KeyChord(Keyboard, vk, scan, ext, PhysMods(s.phys))
                         else KeyChord(Keyboard, vk, s.capScan, s.capExt, PhysMods(s.phys));
            && (ToldChord(s.calls, r.calls) <==> told)
            && (told ==> r.calls == s.calls + [Captured(chord)] && r.capture == CAPTURE_OFF)
  {
    hide PhysMods, ModBitForVk;
  }

  lemma NoChord(calls: seq<Call>, x: Call)
    requires !x.Captured?
    ensures !ToldChord(calls, calls + [x]) && !ToldChord(calls, calls)
  {
  }

  lemma TriggerCapturesNothing(cfg: Config, s: State, down: bool, armed: bool)
    requires Shaped(s)
    ensures !ToldChord(s.calls, TriggerKey(cfg, s, down, armed).0.calls)
  {
    hide PhysMods;
  }

  /** So does a button or a notch if and only if it counts, goes down, and the capture takes the mouse, except for a
      left click on the program's own window. */
  lemma ButtonCapturedIff(cfg: Config, s: State, e: Trigger.Event)
    requires Shaped(s) && e.Button?
    ensures var (r, chord) := (React(cfg, s, e).1, KeyChord(Mouse, e.b, 0, false, PhysMods(s.phys)));
            var told := Counts(cfg, e.tag, e.injected) && TakesButton(s, e);
            && (ToldChord(s.calls, r.calls) <==> told)
            && (told ==> r.calls == s.calls + [Captured(chord)] && r.capture == CAPTURE_OFF)
  {
    hide PhysMods, HandleMouse, ToldChord;
    NoChord(s.calls, Emergency);
    MouseCaptures(cfg, s, e);
  }

  predicate TakesButton(s: State, e: Trigger.Event)
    requires e.Button?
  {
    s.capture == CAPTURE_ALL && e.down && !(e.b == 0 && e.overOwn)
  }

  lemma MouseCaptures(cfg: Config, s: State, e: Trigger.Event)
    requires Shaped(s) && e.Button?
    ensures var r := HandleMouse(cfg, s, e.b, e.down, e.armed, e.overOwn).0;
            var chord := KeyChord(Mouse, e.b, 0, false, PhysMods(s.phys));
            && (ToldChord(s.calls, r.calls) <==> TakesButton(s, e))
            && (TakesButton(s, e) ==> r.calls == s.calls + [Captured(chord)] && r.capture == CAPTURE_OFF)
  {
    hide PhysMods, TriggerButton, ToldChord, CaptureButton;
    CaptureButtonTells(s, e.b, e.down, e.overOwn);
    NoChord(s.calls, Emergency);
    TriggerButtonCapturesNothing(cfg, s, e.b, e.down, e.armed);
    if e.b < BUTTONS {
      TriggerButtonCapturesNothing(cfg, s.(swallowMouse := s.swallowMouse[e.b := false]), e.b, e.down, e.armed);
    }
  }

  lemma CaptureButtonTells(s: State, b: nat, down: bool, overOwn: bool)
    requires Shaped(s)
    ensures var r := CaptureButton(s, b, down, overOwn).0;
            var told := down && !(b == 0 && overOwn);
            && (ToldChord(s.calls, r.calls) <==> told)
            && (told ==> r.calls == s.calls + [Captured(KeyChord(Mouse, b, 0, false, PhysMods(s.phys)))]
                         && r.capture == CAPTURE_OFF)
  {
    hide PhysMods;
  }

  lemma TriggerButtonCapturesNothing(cfg: Config, s: State, b: nat, down: bool, armed: bool)
    requires Shaped(s)
    ensures !ToldChord(s.calls, TriggerButton(cfg, s, b, down, armed).0.calls)
  {
    hide PhysMods;
  }
}
