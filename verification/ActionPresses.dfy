/** What a compiled action does to the keyboard and the mouse, said of the events it sends: the modifiers go down, the
    key or the button is pressed and released, or the wheel turned, as often as wanted and on time, and the modifiers
    go up. */
module ActionPresses {
  import opened Input
  import opened Actions

  // ---------------------------------------------------------------- what the events of a chord are

  /** The key that stands for a modifier. */
  function LeftKey(m: Mod): nat {
    match m
    case Ctrl => VK_LCONTROL
    case Shift => VK_LSHIFT
    case Alt => VK_LMENU
    case Win => VK_LWIN
  }

  /** The modifiers of a chord, without the one that its own key is. */
  function ModsToHold(c: KeyChord): set<Mod> { if c.device == Keyboard then c.mods - ModBitForVk(c.code) else c.mods }

  function KeysToHold(c: KeyChord): set<nat> { set m | m in ModsToHold(c) :: LeftKey(m) }

  /** The event for a modifier going down or up. */
  predicate IsModEvent(a: InputAction, layout: Layout, e: Input, m: Mod, up: bool) {
    && e.KeyInput? && e.vk == LeftKey(m) && e.up == up && e.tag == TAG
    && (e.scan, e.extended) == VkToScan(layout, LeftKey(m)) && e.scancode == (a.keyMode == ScanCode && e.scan != 0)
  }

  /** Digits and the decimal point of the keypad share their scan codes with the navigation keys. */
  predicate OnKeypad(vk: nat) { 0x60 <= vk <= 0x69 || vk == 0x6E }

  /** The chord's own key, with its scan code or the layout's, sent by scan code if that is wanted and there is one. */
  predicate IsKeyEvent(a: InputAction, layout: Layout, e: Input, up: bool) {
    var c := a.chord;
    && e.KeyInput? && e.vk == c.code && e.up == up && e.tag == TAG
    && e.scan == (if c.scan != 0 then c.scan else VkToScan(layout, c.code).0)
    && e.extended == (if c.scan != 0 || c.code == VK_RETURN then c.extended else VkToScan(layout, c.code).1)
    && (e.scancode <==> a.keyMode == ScanCode && !OnKeypad(c.code) && e.scan != 0)
  }

  /** Button b and no other is pressed, or released. */
  predicate IsButtonEvent(e: Input, b: nat, up: bool)
    requires b < 5
  {
    && e.MouseInput? && e.tag == TAG && Wheel !in e.flags && HWheel !in e.flags
    && forall x: nat :: x < 5 ==> PressesButton(e, x) == (x == b && !up) && ReleasesButton(e, x) == (x == b && up)
  }

  /** A 32-bit word as a signed number. */
  function Signed(word: nat): int { if word < 0x8000_0000 then word else word - 0x1_0000_0000 }

  /** A notch on the axis of the chord: codes 5 and 6 are up and down, 7 and 8 left and right. */
  predicate IsNotch(a: InputAction, e: Input) {
    && e.MouseInput? && e.tag == TAG && e.flags == {if a.chord.code <= 6 then Wheel else HWheel}
    && (-0x8000_0000 < a.wheelDelta < 0x8000_0000 ==>
          Signed(e.data) == if a.chord.code == 5 || a.chord.code == 8 then a.wheelDelta else -a.wheelDelta)
  }

  /** The press, or the release, that the action is about; a mouse chord with an unknown code has an empty event. */
  predicate IsMainEvent(a: InputAction, layout: Layout, e: Input, up: bool) {
    if a.chord.device == Keyboard then IsKeyEvent(a, layout, e, up)
    else if a.chord.IsWheel() then IsNotch(a, e)
    else if a.chord.code < 5 then IsButtonEvent(e, a.chord.code, up)
    else e == MouseInput({}, 0, TAG)
  }

  lemma PressIsMain(a: InputAction, layout: Layout, down: bool)
    requires a.chord.device != NoDevice
    ensures IsMainEvent(a, layout, PressInput(a, layout, down), !down)
  {
    if a.chord.device == Mouse && a.chord.code <= 8 { ButtonIsMain(a, down); }
  }

  lemma ButtonIsMain(a: InputAction, down: bool)
    requires a.chord.device == Mouse && a.chord.code <= 8
    ensures var e := MakeMouseInput(ButtonOfCode(a.chord.code), down, a.wheelDelta, TAG);
            if a.chord.code < 5 then IsButtonEvent(e, a.chord.code, !down) else IsNotch(a, e)
  {
    var d := a.wheelDelta;
    if 0 < d < 0x8000_0000 { assert -d % DWORD_WRAP == 0x1_0000_0000 - d; }
    if -0x8000_0000 < d < 0 { assert d % DWORD_WRAP == 0x1_0000_0000 + d; }
  }

  // ---------------------------------------------------------------- the presses, one after another

  /** How many events a press has. */
  function EventsPerPress(a: InputAction): nat { if a.chord.IsWheel() then 1 else 2 }

  function TicksPerPress(a: InputAction, freq: nat): nat {
    UsToTicks(a.repeatGapUs, freq) + if a.chord.IsWheel() then 0 else UsToTicks(a.downTimeUs, freq)
  }

  lemma {:induction false} TimeOfPress(a: InputAction, freq: nat, r: nat)
    ensures PressTime(a, freq, r) == r * TicksPerPress(a, freq)
  {
    hide UsToTicks;
    if r > 0 {
      TimeOfPress(a, freq, r - 1);
      NextPress(a, freq, r - 1);
      assert r * TicksPerPress(a, freq) == (r - 1) * TicksPerPress(a, freq) + TicksPerPress(a, freq);
    } else {
      NextPress(a, freq, 0);
    }
  }

  /** Press r of an action, from event i on: the DOWN and, after the hold time, the UP, or the notch. */
  predicate IsPressAt(a: InputAction, layout: Layout, freq: nat, evs: seq<Event>, i: nat, r: nat) {
    && i + EventsPerPress(a) <= |evs|
    && evs[i].t == r * TicksPerPress(a, freq) && IsMainEvent(a, layout, evs[i].input, false)
    && (!a.chord.IsWheel() ==>
          && evs[i + 1].t == r * TicksPerPress(a, freq) + UsToTicks(a.downTimeUs, freq)
          && IsMainEvent(a, layout, evs[i + 1].input, true))
  }

  ghost predicate ArePresses(a: InputAction, layout: Layout, freq: nat, evs: seq<Event>, n: nat) {
    && |evs| == n * EventsPerPress(a)
    && forall r: nat {:trigger IsPressAt(a, layout, freq, evs, r * EventsPerPress(a), r)} ::
         r < n ==> IsPressAt(a, layout, freq, evs, r * EventsPerPress(a), r)
  }

  /** The events of modifiers, all at the same time. */
  ghost predicate AreModEvents(a: InputAction, layout: Layout, evs: seq<Event>, t: int, up: bool) {
    forall e :: e in evs ==> e.t == t && exists k :: IsModEvent(a, layout, e.input, k, up)
  }

  lemma {:induction false} PressesAt(a: InputAction, layout: Layout, freq: nat, n: nat, r: nat)
    requires a.chord.device != NoDevice && r < n
    ensures var evs := Presses(a, layout, freq, n);
            |evs| == n * EventsPerPress(a) && IsPressAt(a, layout, freq, evs, r * EventsPerPress(a), r)
  {
    hide *;
    ManyPresses(a, layout, freq, n - 1);
    ManyPresses(a, layout, freq, n);
    PressStep(a, layout, freq, n - 1);
    var (evs, more) := (Presses(a, layout, freq, n - 1), Press(a, layout, freq, n - 1));
    if r < n - 1 {
      PressesAt(a, layout, freq, n - 1, r);
      StillPressAt(a, layout, freq, evs, more, r * EventsPerPress(a), r);
    } else {
      OnePressAt(a, layout, freq, evs, r);
    }
  }

  lemma {:induction false} ManyPresses(a: InputAction, layout: Layout, freq: nat, n: nat)
    ensures |Presses(a, layout, freq, n)| == n * EventsPerPress(a)
  {
    hide UsToTicks, PressInput, PressTime;
    if n > 0 { ManyPresses(a, layout, freq, n - 1); }
  }

  lemma StillPressAt(a: InputAction, layout: Layout, freq: nat, evs: seq<Event>, more: seq<Event>, i: nat, r: nat)
    requires IsPressAt(a, layout, freq, evs, i, r)
    ensures IsPressAt(a, layout, freq, evs + more, i, r)
  {
    hide UsToTicks, IsMainEvent, TicksPerPress;
  }

  lemma OnePressAt(a: InputAction, layout: Layout, freq: nat, evs: seq<Event>, r: nat)
    requires a.chord.device != NoDevice && |evs| == r * EventsPerPress(a)
    ensures IsPressAt(a, layout, freq, evs + Press(a, layout, freq, r), r * EventsPerPress(a), r)
  {
    hide UsToTicks, PressInput, PressTime, TicksPerPress, IsMainEvent;
    TimeOfPress(a, freq, r);
    PressIsMain(a, layout, true);
    PressIsMain(a, layout, false);
  }

  /** The schedule of a compiled action: its modifiers go down at once; then come n presses, as many as wanted between
      1 and 3, each the DOWN of the chord's own key or button and its UP after the hold time, or one notch of its wheel,
      at distances of hold and gap; then as many modifiers go up. */
  lemma ProgramPresses(a: InputAction, layout: Layout, freq: nat)
      returns (downs: seq<Event>, presses: seq<Event>, ups: seq<Event>, n: nat)
    requires a.chord.device != NoDevice
    ensures 1 <= n <= 3 && (1 <= a.repeat <= 3 ==> n == a.repeat) && (a.repeat > 3 ==> n == 3)
    ensures Scheduled(Program(a, layout, freq).steps) == downs + presses + ups && |downs| == |ups|
    ensures AreModEvents(a, layout, downs, 0, false) && ArePresses(a, layout, freq, presses, n)
    ensures AreModEvents(a, layout, ups, Program(a, layout, freq).span, true)
  {
    hide *;
    n := HowMany(a);
    ProgramIsItsTimeline(a, layout, freq);
    TimelineIs(a, layout, freq);
    ModsDownAreMods(a, layout, 0);
    ModsUpAreMods(a, layout, 4);
    AsManyUp(a, layout);
    var end := EndTime(a, freq);
    downs, ups := Stamp(0, ModsDown(a, layout, 0)), Stamp(end, ModsUp(a, layout, 4));
    presses := Presses(a, layout, freq, n);
    AllPresses(a, layout, freq, n);
    Stamped(a, layout, ModsDown(a, layout, 0), 0, false);
    Stamped(a, layout, ModsUp(a, layout, 4), end, true);
  }

  lemma HowMany(a: InputAction) returns (n: nat)
    ensures n == Repeat(a)
    ensures 1 <= n <= 3 && (1 <= a.repeat <= 3 ==> n == a.repeat) && (a.repeat > 3 ==> n == 3)
  {
    n := Repeat(a);
  }

  lemma AllPresses(a: InputAction, layout: Layout, freq: nat, n: nat)
    requires a.chord.device != NoDevice && n >= 1
    ensures ArePresses(a, layout, freq, Presses(a, layout, freq, n), n)
  {
    hide IsPressAt, Presses, EventsPerPress;
    PressesAt(a, layout, freq, n, 0);
    forall r: nat | r < n ensures IsPressAt(a, layout, freq, Presses(a, layout, freq, n), r * EventsPerPress(a), r) {
      PressesAt(a, layout, freq, n, r);
    }
  }

  lemma Stamped(a: InputAction, layout: Layout, es: seq<Input>, t: int, up: bool)
    requires forall e :: e in es ==> exists k :: IsModEvent(a, layout, e, k, up)
    ensures AreModEvents(a, layout, Stamp(t, es), t, up)
  {
    hide IsModEvent;
    var evs := Stamp(t, es);
    forall e | e in evs ensures e.t == t && exists k :: IsModEvent(a, layout, e.input, k, up) {
      var i :| 0 <= i < |evs| && evs[i] == e;
      assert es[i] in es;
    }
  }

  lemma ModEventIs(a: InputAction, layout: Layout, i: nat, up: bool)
    requires i < 4
    ensures forall e :: e in ModEvent(a, layout, i, up) ==> exists k :: IsModEvent(a, layout, e, k, up)
    ensures |ModEvent(a, layout, i, up)| == if HoldsMod(a.chord, i) then 1 else 0
  {
    var k := ModKey(i).0;
    assert LeftKey(k) == ModKey(i).1;
    assert forall e :: e in ModEvent(a, layout, i, up) ==> IsModEvent(a, layout, e, k, up);
  }

  lemma {:induction false} ModsDownAreMods(a: InputAction, layout: Layout, i: nat)
    ensures forall e :: e in ModsDown(a, layout, i) ==> exists k :: IsModEvent(a, layout, e, k, false)
    decreases 4 - i
  {
    hide ModEvent, IsModEvent;
    if i < 4 {
      ModEventIs(a, layout, i, false);
      ModsDownAreMods(a, layout, i + 1);
    }
  }

  lemma {:induction false} ModsUpAreMods(a: InputAction, layout: Layout, i: nat)
    requires i <= 4
    ensures forall e :: e in ModsUp(a, layout, i) ==> exists k :: IsModEvent(a, layout, e, k, true)
  {
    hide ModEvent, IsModEvent;
    if i > 0 {
      ModEventIs(a, layout, i - 1, true);
      ModsUpAreMods(a, layout, i - 1);
    }
  }

  lemma AsManyUp(a: InputAction, layout: Layout)
    ensures |ModsDown(a, layout, 0)| == |ModsUp(a, layout, 4)|
  {
    hide ModEvent, HoldsMod;
    ManyDown(a, layout, 0);
    ManyUp(a, layout, 4);
  }

  function ManyMods(c: KeyChord, i: nat, j: nat): nat
    requires i <= j
    decreases j - i
  {
    if i == j then 0 else (if HoldsMod(c, i) then 1 else 0) + ManyMods(c, i + 1, j)
  }

  lemma {:induction false} ManyDown(a: InputAction, layout: Layout, i: nat)
    requires i <= 4
    ensures |ModsDown(a, layout, i)| == ManyMods(a.chord, i, 4)
    decreases 4 - i
  {
    hide ModEvent, HoldsMod;
    if i < 4 {
      ModEventIs(a, layout, i, false);
      ManyDown(a, layout, i + 1);
    }
  }

  lemma {:induction false} ManySnoc(c: KeyChord, i: nat, j: nat)
    requires i <= j
    ensures ManyMods(c, i, j + 1) == ManyMods(c, i, j) + (if HoldsMod(c, j) then 1 else 0)
    decreases j - i
  {
    hide HoldsMod;
    if i < j { ManySnoc(c, i + 1, j); }
  }

  lemma {:induction false} ManyUp(a: InputAction, layout: Layout, i: nat)
    requires i <= 4
    ensures |ModsUp(a, layout, i)| == ManyMods(a.chord, 0, i)
  {
    hide ModEvent, HoldsMod;
    if i > 0 {
      ModEventIs(a, layout, i - 1, true);
      ManyUp(a, layout, i - 1);
      ManySnoc(a.chord, 0, i - 1);
    }
  }

  // ---------------------------------------------------------------- what is held at each press

  /** Exactly the modifiers of the chord are held. */
  ghost predicate HoldsItsMods(h: Held, c: KeyChord) { h.mouse == {} && h.keys.Keys == KeysToHold(c) }

  /** The inputs of the first n presses. */
  function Taps(a: InputAction, layout: Layout, n: nat): (es: seq<Input>)
    ensures |es| == n * EventsPerPress(a)
  {
    if n == 0 then []
    else
      Taps(a, layout, n - 1)
      + (if a.chord.IsWheel() then [PressInput(a, layout, true)]
         else [PressInput(a, layout, true), PressInput(a, layout, false)])
  }

  lemma {:induction false} InputsOfPresses(a: InputAction, layout: Layout, freq: nat, n: nat)
    ensures InputsOf(Presses(a, layout, freq, n)) == Taps(a, layout, n)
  {
    hide *;
    TapsIs(a, layout, n);
    if n > 0 {
      InputsOfPresses(a, layout, freq, n - 1);
      PressStep(a, layout, freq, n - 1);
      InputsJoin(Presses(a, layout, freq, n - 1), Press(a, layout, freq, n - 1));
      InputsOfPress(a, layout, freq, n - 1);
    } else {
      TimelineIs(a, layout, freq);
      assert InputsOf(Presses(a, layout, freq, 0)) == [];
    }
  }

  /** The inputs of one press. */
  function Tap(a: InputAction, layout: Layout): seq<Input> {
    if a.chord.IsWheel() then [PressInput(a, layout, true)]
    else [PressInput(a, layout, true), PressInput(a, layout, false)]
  }

  lemma TapsIs(a: InputAction, layout: Layout, n: nat)
    ensures Taps(a, layout, n) == if n == 0 then [] else Taps(a, layout, n - 1) + Tap(a, layout)
  {
  }

  lemma InputsOfPress(a: InputAction, layout: Layout, freq: nat, r: nat)
    ensures InputsOf(Press(a, layout, freq, r)) == Tap(a, layout)
  {
    hide PressInput, PressTime, UsToTicks;
  }

  lemma InputsJoin(a: seq<Event>, b: seq<Event>)
    ensures InputsOf(a + b) == InputsOf(a) + InputsOf(b)
  {
    hide InputsOf;
  }

  lemma {:induction false} TapsPrefix(a: InputAction, layout: Layout, n: nat, r: nat)
    requires r <= n
    ensures r * EventsPerPress(a) <= n * EventsPerPress(a)
    ensures Taps(a, layout, n)[..r * EventsPerPress(a)] == Taps(a, layout, r)
  {
    hide PressInput;
    if r < n { TapsPrefix(a, layout, n - 1, r); }
  }

  /** A press and its release leave what was held as it was. */
  lemma TapKeeps(a: InputAction, layout: Layout, h: Held)
    requires HoldsItsMods(h, a.chord) && (a.chord.device == Keyboard ==> a.chord.code < 256)
    requires a.chord.device != NoDevice
    ensures var down := Track(h, PressInput(a, layout, true));
            if a.chord.IsWheel() then down == h else Track(down, PressInput(a, layout, false)) == h
  {
    hide MetaOf, ScanOf, KeysToHold;
    if a.chord.device == Keyboard { KeyTapKeeps(a, layout, h); }
  }

  lemma KeyTapKeeps(a: InputAction, layout: Layout, h: Held)
    requires HoldsItsMods(h, a.chord) && a.chord.device == Keyboard && a.chord.code < 256
    ensures Track(Track(h, PressInput(a, layout, true)), PressInput(a, layout, false)) == h
  {
    hide TrackMouse, MetaOf, ScanOf;
    var (vk, down) := (a.chord.code, PressInput(a, layout, true));
    assert vk !in h.keys;
    assert h.keys[vk := MetaOf(down)] - {vk} == h.keys;
  }

  lemma {:induction false} TapsKeep(a: InputAction, layout: Layout, h: Held, n: nat)
    requires HoldsItsMods(h, a.chord) && (a.chord.device == Keyboard ==> a.chord.code < 256)
    requires a.chord.device != NoDevice
    ensures TrackAll(h, Taps(a, layout, n)) == h
  {
    hide PressInput, Track, TrackAll, HoldsItsMods;
    if n > 0 {
      TapsKeep(a, layout, h, n - 1);
      TapKeeps(a, layout, h);
      var (down, up) := (PressInput(a, layout, true), PressInput(a, layout, false));
      var tap := if a.chord.IsWheel() then [down] else [down, up];
      TrackAllAppend(h, Taps(a, layout, n - 1), tap);
      TrackOne(h, down);
      if !a.chord.IsWheel() {
        TrackAllCons(h, down, [up]);
        TrackOne(Track(h, down), up);
        assert [down] + [up] == tap;
      }
    } else {
      NoTaps(h, Taps(a, layout, n));
    }
  }

  lemma NoTaps(h: Held, es: seq<Input>)
    requires es == []
    ensures TrackAll(h, es) == h
  {
  }

  /** The keys of modifiers i to 3. */
  function KeysFromMod(c: KeyChord, i: nat): set<nat> { set j: nat | i <= j < 4 && HoldsMod(c, j) :: ModKey(j).1 }

  lemma ModDownTracks(a: InputAction, layout: Layout, i: nat, h: Held)
    requires i < 4
    ensures var r := TrackAll(h, ModEvent(a, layout, i, false));
            r.mouse == h.mouse && r.keys.Keys == h.keys.Keys + if HoldsMod(a.chord, i) then {ModKey(i).1} else {}
  {
    if HoldsMod(a.chord, i) {
      var e := ModEvent(a, layout, i, false)[0];
      assert ModEvent(a, layout, i, false) == [e];
      TrackOne(h, e);
    }
  }

  lemma {:induction false} ModsDownTrack(a: InputAction, layout: Layout, i: nat, h: Held)
    ensures var r := TrackAll(h, ModsDown(a, layout, i));
            r.mouse == h.mouse && r.keys.Keys == h.keys.Keys + KeysFromMod(a.chord, i)
    decreases 4 - i
  {
    hide ModEvent, Track, TrackAll, HoldsMod, ModKey;
    if i < 4 {
      ModDownTracks(a, layout, i, h);
      var h1 := TrackAll(h, ModEvent(a, layout, i, false));
      ModsDownTrack(a, layout, i + 1, h1);
      TrackAllAppend(h, ModEvent(a, layout, i, false), ModsDown(a, layout, i + 1));
      assert KeysFromMod(a.chord, i)
          == KeysFromMod(a.chord, i + 1) + if HoldsMod(a.chord, i) then {ModKey(i).1} else {};
    } else {
      NoTaps(h, ModsDown(a, layout, i));
    }
  }

  lemma AllMods(c: KeyChord)
    ensures KeysFromMod(c, 0) == KeysToHold(c)
  {
    assert ModKey(0) == (Ctrl, VK_LCONTROL) && ModKey(1) == (Shift, VK_LSHIFT);
    assert ModKey(2) == (Alt, VK_LMENU) && ModKey(3) == (Win, VK_LWIN);
    assert ModBitForVk(MainVk(c)) == if c.device == Keyboard then ModBitForVk(c.code) else {};
    forall j: nat | j < 4 ensures HoldsMod(c, j) <==> ModKey(j).0 in ModsToHold(c) {
    }
    forall m: Mod ensures exists j: nat :: j < 4 && ModKey(j) == (m, LeftKey(m)) {
      match m
      case Ctrl => assert ModKey(0) == (m, LeftKey(m));
      case Shift => assert ModKey(1) == (m, LeftKey(m));
      case Alt => assert ModKey(2) == (m, LeftKey(m));
      case Win => assert ModKey(3) == (m, LeftKey(m));
    }
  }

  /** When the chord's own key or button goes down, or its wheel turns, exactly its modifiers are held: the m inputs
      before the presses, and every press that is over, make it so. For every mouse chord, and every virtual key. */
  lemma HeldAtEachPress(a: InputAction, layout: Layout, freq: nat) returns (m: nat, n: nat)
    requires a.chord.device != NoDevice && (a.chord.device == Keyboard ==> a.chord.code < 256)
    ensures var flat := Program(a, layout, freq).flat;
            |flat| == m + n * EventsPerPress(a) + m && n >= 1
            && forall r: nat {:trigger r * EventsPerPress(a)} :: r < n ==>
                 && m + r * EventsPerPress(a) <= |flat|
                 && HoldsItsMods(TrackAll(NOTHING, flat[..m + r * EventsPerPress(a)]), a.chord)
  {
    hide *;
    n := HowMany(a);
    var (d, u) := (ModsDown(a, layout, 0), ModsUp(a, layout, 4));
    m := |d|;
    FlatIsTimeline(a, layout, freq);
    InputsOfPresses(a, layout, freq, n);
    AsManyUp(a, layout);
    ModsHeld(a, layout);
    var h := TrackAll(NOTHING, d);
    forall r: nat {:trigger r * EventsPerPress(a)} | r < n
      ensures m + r * EventsPerPress(a) <= |Program(a, layout, freq).flat|
              && HoldsItsMods(TrackAll(NOTHING, Program(a, layout, freq).flat[..m + r * EventsPerPress(a)]), a.chord)
    {
      TapsPrefix(a, layout, n, r);
      assert (d + Taps(a, layout, n) + u)[..m + r * EventsPerPress(a)] == d + Taps(a, layout, r);
      TrackAllAppend(NOTHING, d, Taps(a, layout, r));
      TapsKeep(a, layout, h, r);
    }
  }

  lemma ModsHeld(a: InputAction, layout: Layout)
    ensures HoldsItsMods(TrackAll(NOTHING, ModsDown(a, layout, 0)), a.chord)
  {
    hide KeysFromMod, KeysToHold, TrackAll, ModsDown;
    ModsDownTrack(a, layout, 0, NOTHING);
    AllMods(a.chord);
    assert NOTHING.keys.Keys + KeysFromMod(a.chord, 0) == KeysFromMod(a.chord, 0);
  }

  // ---------------------------------------------------------------- scan codes

  /** What a key's make code is, on any layout: a byte, none for keys with an E1 prefix; extended with an E0 prefix. The
      arrows and the block above them, the right-hand Ctrl and Alt, the Windows keys, Divide and NumLock are extended in
      any case, letters, digits and function keys only by the layout. */
  lemma ScanCodes(layout: Layout, vk: nat)
    ensures var (scan, ext) := VkToScan(layout, vk);
            && scan < 256
            && (vk !in {VK_CONTROL, VK_SHIFT, VK_MENU} ==>
                  && (layout(vk) / 256 % 256 == 0xE0 ==> ext && scan == layout(vk) % 256)
                  && (layout(vk) / 256 % 256 == 0xE1 ==> scan == 0)
                  && (layout(vk) < 256 ==> scan == layout(vk)))
            && (0x21 <= vk <= 0x28 || vk in {0x2D, 0x2E, 0x6F, 0x90, VK_LWIN, VK_RWIN, VK_RCONTROL, VK_RMENU} ==> ext)
            && (0x30 <= vk <= 0x5A || 0x60 <= vk <= 0x6E || 0x70 <= vk <= 0x87 ==>
                  ext == (layout(vk) / 256 % 256 == 0xE0))
            && (vk in {VK_LSHIFT, VK_LCONTROL, VK_LMENU} ==> ext == (layout(vk) / 256 % 256 == 0xE0))
            && VkToScan(layout, VK_CONTROL) == VkToScan(layout, VK_LCONTROL)
            && VkToScan(layout, VK_SHIFT) == VkToScan(layout, VK_LSHIFT)
            && VkToScan(layout, VK_MENU) == VkToScan(layout, VK_LMENU)
  {
  }
}
