/** What an action is, and how it is compiled into the steps that the scheduler walks: each step is one SendInput
    call at a fixed offset from the start of the action. */
module Actions {
  import opened Input

  datatype Mod = Ctrl | Shift | Alt | Win
  datatype Device = NoDevice | Keyboard | Mouse

  /** One key or mouse button, with the modifiers around it. */
  datatype KeyChord = KeyChord(device: Device, code: nat, scan: nat, extended: bool, mods: set<Mod>) {
    predicate IsWheel() { device == Mouse && 5 <= code <= 8 }
  }

  datatype InputAction = InputAction(
    chord: KeyChord, downTimeUs: nat, repeat: nat, repeatGapUs: nat, wheelDelta: int, keyMode: KeyInjectMode)

  datatype Step = Step(offset: int, inputs: seq<Input>)

  datatype ActionProgram = ActionProgram(
    steps: seq<Step>, span: int, inputsPerAction: nat, flat: seq<Input>, error: string)
  {
    predicate Ok() { error == "" && steps != [] }
  }

  const MAX_STEP_INPUTS: nat := 16
  const NO_PROGRAM := ActionProgram([], 0, 0, [], "no action key/button assigned")

  // ---------------------------------------------------------------- keys

  const VK_RETURN: nat := 0x0D
  const VK_SHIFT: nat := 0x10
  const VK_CONTROL: nat := 0x11
  const VK_MENU: nat := 0x12
  const VK_LWIN: nat := 0x5B
  const VK_RWIN: nat := 0x5C
  const VK_NUMPAD0: nat := 0x60
  const VK_NUMPAD9: nat := 0x69
  const VK_DECIMAL: nat := 0x6E
  const VK_LSHIFT: nat := 0xA0
  const VK_RSHIFT: nat := 0xA1
  const VK_LCONTROL: nat := 0xA2
  const VK_RCONTROL: nat := 0xA3
  const VK_LMENU: nat := 0xA4
  const VK_RMENU: nat := 0xA5

  /** Keys that are E0-prefixed whatever the layout says: the navigation block, the right-hand modifiers, the
      Windows and menu keys, Divide, NumLock, PrintScreen, and the volume, media and browser keys. */
  predicate DefaultExtended(vk: nat) {
    || 0x21 <= vk <= 0x28 || 0x2C <= vk <= 0x2E || 0x5B <= vk <= 0x5D || vk == 0x6F || vk == 0x90
    || vk == 0xA3 || 0xA5 <= vk <= 0xA7 || 0xAD <= vk <= 0xB3
  }

  function ModBitForVk(vk: nat): set<Mod> {
    if vk in {VK_CONTROL, VK_LCONTROL, VK_RCONTROL} then {Ctrl}
    else if vk in {VK_SHIFT, VK_LSHIFT, VK_RSHIFT} then {Shift}
    else if vk in {VK_MENU, VK_LMENU, VK_RMENU} then {Alt}
    else if vk in {VK_LWIN, VK_RWIN} then {Win}
    else {}
  }

  /** What MapVirtualKey answers for each virtual key on the active keyboard layout. */
  type Layout = nat -> nat

  function VkToScan(layout: Layout, vk0: nat): (nat, bool) {
    var vk := if vk0 == VK_CONTROL then VK_LCONTROL else if vk0 == VK_SHIFT then VK_LSHIFT
              else if vk0 == VK_MENU then VK_LMENU else vk0;
    var sc := layout(vk);
    var prefix := sc / 256 % 256;
    (if prefix == 0xE1 then 0 else sc % 256, prefix == 0xE0 || DefaultExtended(vk))
  }

  function ModKey(i: nat): (Mod, nat) {
    if i == 0 then (Ctrl, VK_LCONTROL) else if i == 1 then (Shift, VK_LSHIFT)
    else if i == 2 then (Alt, VK_LMENU) else (Win, VK_LWIN)
  }

  // ---------------------------------------------------------------- the timeline of one action

  datatype Event = Event(t: int, input: Input)

  /** Microseconds to clock ticks, rounded to the nearest tick. */
  function UsToTicks(us: nat, freq: nat): (t: nat)
    ensures us as real * freq as real / 1000000.0 - 0.5 < t as real <= us as real * freq as real / 1000000.0 + 0.5
  {
    var x := us as real * freq as real / 1000000.0 + 0.5;
    NotNegative(us as real * freq as real);
    x.Floor
  }

  lemma NotNegative(x: real)
    requires x >= 0.0
    ensures x / 1000000.0 >= 0.0
  {
  }

  function Repeat(a: InputAction): nat { if a.repeat < 1 then 1 else if a.repeat > 3 then 3 else a.repeat }

  function MainVk(c: KeyChord): nat { if c.device == Keyboard then c.code else 0 }

  predicate HoldsMod(c: KeyChord, i: nat) { ModKey(i).0 in c.mods && ModKey(i).0 !in ModBitForVk(MainVk(c)) }

  function ModEvent(a: InputAction, layout: Layout, i: nat, up: bool): seq<Input> {
    if !HoldsMod(a.chord, i) then []
    else
      var (scan, ext) := VkToScan(layout, ModKey(i).1);
      [MakeKeyInput(ModKey(i).1, scan, ext, up, a.keyMode, TAG)]
  }

  /** Modifiers i, i + 1, ... going down. */
  function ModsDown(a: InputAction, layout: Layout, i: nat): seq<Input>
    decreases 4 - i
  {
    if i >= 4 then [] else ModEvent(a, layout, i, false) + ModsDown(a, layout, i + 1)
  }

  /** Modifiers i - 1, i - 2, ... going up. */
  function ModsUp(a: InputAction, layout: Layout, i: nat): seq<Input> {
    if i == 0 then [] else ModEvent(a, layout, i - 1, true) + ModsUp(a, layout, i - 1)
  }

  function ButtonOfCode(code: nat): MouseButton
    requires code <= 8
  {
    [Left, Right, Middle, X1, X2, WheelUp, WheelDown, WheelLeft, WheelRight][code]
  }

  function PressInput(a: InputAction, layout: Layout, down: bool): Input {
    var c := a.chord;
    if c.device == Mouse then
      if c.code <= 8 then MakeMouseInput(ButtonOfCode(c.code), down, a.wheelDelta, TAG) else MouseInput({}, 0, TAG)
    else
      var (scan, ext) := ScanOf(c, layout);
      var numpad := VK_NUMPAD0 <= c.code <= VK_NUMPAD9 || c.code == VK_DECIMAL;
      MakeKeyInput(c.code, scan, ext, !down, if numpad then VirtualKey else a.keyMode, TAG)
  }

  function ScanOf(c: KeyChord, layout: Layout): (nat, bool) {
    var (scan, ext) :=
      if c.device == Keyboard && c.scan == 0 then VkToScan(layout, c.code) else (c.scan, c.extended);
    (scan, if c.device == Keyboard && c.code == VK_RETURN then c.extended else ext)
  }

  /** Press r starts a full hold and gap after press r - 1; a wheel notch has no hold. */
  function PressTime(a: InputAction, freq: nat, r: nat): nat {
    var gap := UsToTicks(a.repeatGapUs, freq);
    r * (if a.chord.IsWheel() then gap else UsToTicks(a.downTimeUs, freq) + gap)
  }

  function Press(a: InputAction, layout: Layout, freq: nat, r: nat): seq<Event> {
    var t := PressTime(a, freq, r);
    if a.chord.IsWheel() then [Event(t, PressInput(a, layout, true))]
    else [Event(t, PressInput(a, layout, true)),
          Event(t + UsToTicks(a.downTimeUs, freq), PressInput(a, layout, false))]
  }

  function Presses(a: InputAction, layout: Layout, freq: nat, n: nat): seq<Event> {
    if n == 0 then [] else Presses(a, layout, freq, n - 1) + Press(a, layout, freq, n - 1)
  }

  /** When the last press ends. */
  function EndTime(a: InputAction, freq: nat): nat {
    PressTime(a, freq, Repeat(a) - 1) + (if a.chord.IsWheel() then 0 else UsToTicks(a.downTimeUs, freq))
  }

  function Stamp(t: int, inputs: seq<Input>): (evs: seq<Event>)
    ensures |evs| == |inputs|
    ensures forall i :: 0 <= i < |evs| ==> evs[i] == Event(t, inputs[i])
  {
    if inputs == [] then [] else [Event(t, inputs[0])] + Stamp(t, inputs[1..])
  }

  /** Modifiers down, the presses, modifiers up in the opposite order. */
  function Timeline(a: InputAction, layout: Layout, freq: nat): seq<Event> {
    Stamp(0, ModsDown(a, layout, 0)) + Presses(a, layout, freq, Repeat(a))
    + Stamp(EndTime(a, freq), ModsUp(a, layout, 4))
  }

  // ---------------------------------------------------------------- grouping into steps

  function Grouped(steps: seq<Step>, e: Event): seq<Step> {
    var last := |steps| - 1;
    if steps == [] || steps[last].offset != e.t || |steps[last].inputs| >= MAX_STEP_INPUTS then
      steps + [Step(e.t, [e.input])]
    else
      steps[..last] + [Step(e.t, steps[last].inputs + [e.input])]
  }

  function Group(evs: seq<Event>): seq<Step> {
    if evs == [] then [] else Grouped(Group(evs[..|evs| - 1]), evs[|evs| - 1])
  }

  function FlatInputs(steps: seq<Step>): seq<Input> {
    if steps == [] then [] else FlatInputs(steps[..|steps| - 1]) + steps[|steps| - 1].inputs
  }

  /** Each input of a program with the time at which its step is due. */
  function Scheduled(steps: seq<Step>): seq<Event> {
    if steps == [] then []
    else Scheduled(steps[..|steps| - 1]) + Stamp(steps[|steps| - 1].offset, steps[|steps| - 1].inputs)
  }

  /** What compileAction returns. */
  function Program(a: InputAction, layout: Layout, freq: nat): ActionProgram {
    if a.chord.device == NoDevice then NO_PROGRAM
    else
      var steps := Group(Timeline(a, layout, freq));
      var flat := FlatInputs(steps);
      ActionProgram(steps, if steps == [] then 0 else steps[|steps| - 1].offset, |flat|, flat, "")
  }

  // ---------------------------------------------------------------- compileAction

  method AppendMods(v: seq<Input>, a: InputAction, layout: Layout, up: bool) returns (r: seq<Input>)
    ensures r == v + if up then ModsUp(a, layout, 4) else ModsDown(a, layout, 0)
  {
    hide ModEvent;
    r := v;
    if !up {
      for i := 0 to 4
        invariant r + ModsDown(a, layout, i) == v + ModsDown(a, layout, 0)
      {
        r := r + ModEvent(a, layout, i, false);
      }
      assert r + ModsDown(a, layout, 4) == r;
    } else {
      for i := 4 downto 0
        invariant r + ModsUp(a, layout, i) == v + ModsUp(a, layout, 4)
      {
        r := r + ModEvent(a, layout, i, true);
      }
      assert r + ModsUp(a, layout, 0) == r;
    }
  }

  method BuildTimeline(a: InputAction, layout: Layout, freq: nat) returns (evs: seq<Event>)
    ensures evs == Timeline(a, layout, freq)
  {
    hide *;
    TimelineIs(a, layout, freq);
    var repeat := Repeat(a);
    var hold, gap := UsToTicks(a.downTimeUs, freq), UsToTicks(a.repeatGapUs, freq);
    var t := 0;
    var tmp := AppendMods([], a, layout, false);
    evs := Stamp(0, tmp);
    ghost var start := evs;
    var r := 0;
    while r < repeat
      invariant r <= repeat && evs == start + Presses(a, layout, freq, r)
      invariant t == if r < repeat then PressTime(a, freq, r) else EndTime(a, freq)
    {
      ghost var before := evs;
      PressStep(a, layout, freq, r);
      if a.chord.IsWheel() {
        evs := evs + [Event(t, PressInput(a, layout, true))];
      } else {
        evs := evs + [Event(t, PressInput(a, layout, true))];
        t := t + hold;
        evs := evs + [Event(t, PressInput(a, layout, false))];
      }
      if r + 1 < repeat { t := t + gap; }
      assert evs == before + Press(a, layout, freq, r);
      r := r + 1;
    }
    tmp := AppendMods([], a, layout, true);
    evs := evs + Stamp(t, tmp);
  }

  lemma PressStep(a: InputAction, layout: Layout, freq: nat, r: nat)
    ensures var t, hold := PressTime(a, freq, r), UsToTicks(a.downTimeUs, freq);
            Press(a, layout, freq, r) == if a.chord.IsWheel() then [Event(t, PressInput(a, layout, true))]
              else [Event(t, PressInput(a, layout, true)), Event(t + hold, PressInput(a, layout, false))]
    ensures Presses(a, layout, freq, r + 1) == Presses(a, layout, freq, r) + Press(a, layout, freq, r)
    ensures PressTime(a, freq, r + 1) == PressTime(a, freq, r) + UsToTicks(a.repeatGapUs, freq)
                                         + (if a.chord.IsWheel() then 0 else UsToTicks(a.downTimeUs, freq))
    ensures r + 1 == Repeat(a) ==>
              EndTime(a, freq) == PressTime(a, freq, r)
                                  + (if a.chord.IsWheel() then 0 else UsToTicks(a.downTimeUs, freq))
  {
    hide UsToTicks, PressInput;
  }

  lemma TimelineIs(a: InputAction, layout: Layout, freq: nat)
    ensures Timeline(a, layout, freq)
         == Stamp(0, ModsDown(a, layout, 0)) + Presses(a, layout, freq, Repeat(a))
            + Stamp(EndTime(a, freq), ModsUp(a, layout, 4))
    ensures Presses(a, layout, freq, 0) == [] && PressTime(a, freq, 0) == 0 && Repeat(a) >= 1
  {
  }

  lemma NextPress(a: InputAction, freq: nat, r: nat)
    ensures PressTime(a, freq, r + 1) == PressTime(a, freq, r) + UsToTicks(a.repeatGapUs, freq)
                                         + (if a.chord.IsWheel() then 0 else UsToTicks(a.downTimeUs, freq))
    ensures PressTime(a, freq, 0) == 0
  {
    hide UsToTicks;
  }

  method CompileAction(a: InputAction, layout: Layout, freq: nat) returns (p: ActionProgram)
    ensures p == Program(a, layout, freq)
  {
    hide Timeline, Grouped;
    if a.chord.device == NoDevice { return NO_PROGRAM; }
    var evs := BuildTimeline(a, layout, freq);
    var steps: seq<Step> := [];
    for i := 0 to |evs|
      invariant steps == Group(evs[..i])
    {
      assert evs[..i + 1][..i] == evs[..i];
      steps := AddEvent(steps, evs[i]);
    }
    assert evs[..|evs|] == evs;
    var count, flat := 0, [];
    for i := 0 to |steps|
      invariant flat == FlatInputs(steps[..i]) && count == |flat|
    {
      assert steps[..i + 1][..i] == steps[..i];
      count := count + |steps[i].inputs|;
      flat := flat + steps[i].inputs;
    }
    assert steps[..|steps|] == steps;
    p := ActionProgram(steps, if steps == [] then 0 else steps[|steps| - 1].offset, count, flat, "");
  }

  method AddEvent(steps: seq<Step>, e: Event) returns (r: seq<Step>)
    ensures r == Grouped(steps, e)
  {
    r := steps;
    if r == [] || r[|r| - 1].offset != e.t || |r[|r| - 1].inputs| >= MAX_STEP_INPUTS {
      r := r + [Step(e.t, [])];
      assert r[..|r| - 1] == steps && [] + [e.input] == [e.input];
    }
    var last := |r| - 1;
    r := r[..last] + [r[last].(inputs := r[last].inputs + [e.input])];
  }

  // ---------------------------------------------------------------- programs are well formed

  ghost predicate InOrder(evs: seq<Event>) {
    forall i, j :: 0 <= i < j < |evs| ==> evs[i].t <= evs[j].t
  }

  ghost predicate Within(evs: seq<Event>, lo: int, hi: int) {
    forall i :: 0 <= i < |evs| ==> lo <= evs[i].t <= hi
  }

  ghost predicate StrictlyLater(steps: seq<Step>) {
    forall i, j :: 0 <= i < j < |steps| ==> steps[i].offset < steps[j].offset
  }

  lemma InOrderAppend(a: seq<Event>, b: seq<Event>, lo: int, mid: int, hi: int)
    requires InOrder(a) && InOrder(b) && Within(a, lo, mid) && Within(b, mid, hi)
    ensures InOrder(a + b) && (lo <= mid <= hi ==> Within(a + b, lo, hi))
  {
  }

  lemma {:induction false} PressesInOrder(a: InputAction, layout: Layout, freq: nat, n: nat)
    ensures var evs := Presses(a, layout, freq, n);
            InOrder(evs) && Within(evs, 0, PressTime(a, freq, n))
            && |evs| == n * (if a.chord.IsWheel() then 1 else 2)
  {
    hide PressInput, UsToTicks;
    NextPress(a, freq, 0);
    if n > 0 {
      PressesInOrder(a, layout, freq, n - 1);
      NextPress(a, freq, n - 1);
      var last := Press(a, layout, freq, n - 1);
      assert InOrder(last) && Within(last, PressTime(a, freq, n - 1), PressTime(a, freq, n));
      hide PressTime, Press;
      InOrderAppend(Presses(a, layout, freq, n - 1), last,
                    0, PressTime(a, freq, n - 1), PressTime(a, freq, n));
    }
  }

  /** The presses end at EndTime: the last gap is never waited for. */
  lemma PressesEnd(a: InputAction, layout: Layout, freq: nat)
    ensures var evs := Presses(a, layout, freq, Repeat(a));
            InOrder(evs) && Within(evs, 0, EndTime(a, freq)) && 0 < |evs| <= 6
            && evs[|evs| - 1].t == EndTime(a, freq) && evs[0].t == 0
  {
    hide PressInput, UsToTicks;
    var n := Repeat(a);
    PressesInOrder(a, layout, freq, n);
    PressesInOrder(a, layout, freq, n - 1);
    NextPress(a, freq, 0);
    FirstPress(a, layout, freq, n);
    var evs := Presses(a, layout, freq, n);
    forall i | 0 <= i < |evs| ensures evs[i].t <= evs[|evs| - 1].t {
      if i < |evs| - 1 { assert evs[i].t <= evs[|evs| - 1].t; }
    }
  }

  lemma {:induction false} FirstPress(a: InputAction, layout: Layout, freq: nat, n: nat)
    requires n > 0
    ensures var evs := Presses(a, layout, freq, n);
            |evs| > 0 && evs[0] == Event(0, PressInput(a, layout, true))
  {
    hide PressInput, UsToTicks;
    NextPress(a, freq, 0);
    if n > 1 { FirstPress(a, layout, freq, n - 1); }
  }

  lemma {:induction false} ModsAreFew(a: InputAction, layout: Layout, i: nat)
    requires i <= 4
    ensures |ModsDown(a, layout, i)| <= 4 - i && |ModsUp(a, layout, i)| <= i
    decreases 4 - i
  {
    if i < 4 { ModsAreFew(a, layout, i + 1); }
    ModsUpAreFew(a, layout, i);
  }

  lemma {:induction false} ModsUpAreFew(a: InputAction, layout: Layout, i: nat)
    ensures |ModsUp(a, layout, i)| <= i
  {
    if i > 0 { ModsUpAreFew(a, layout, i - 1); }
  }

  lemma TimelineShape(a: InputAction, layout: Layout, freq: nat)
    ensures var evs := Timeline(a, layout, freq);
            InOrder(evs) && 0 < |evs| <= 14 && evs[0].t == 0 && evs[|evs| - 1].t == EndTime(a, freq)
  {
    hide Presses, ModsDown, ModsUp, EndTime;
    var down, up, end := Stamp(0, ModsDown(a, layout, 0)), Stamp(EndTime(a, freq), ModsUp(a, layout, 4)),
                         EndTime(a, freq);
    var evs := Presses(a, layout, freq, Repeat(a));
    ModsAreFew(a, layout, 0);
    ModsUpAreFew(a, layout, 4);
    PressesEnd(a, layout, freq);
    InOrderAppend(down, evs, 0, 0, end);
    InOrderAppend(down + evs, up, 0, end, end);
  }

  /** Offsets rise strictly, and every step sends between one and n inputs. */
  ghost predicate Tidy(steps: seq<Step>, n: nat) {
    StrictlyLater(steps) && forall i :: 0 <= i < |steps| ==> 0 < |steps[i].inputs| <= n
  }

  /** Events in time order, few enough, are grouped without loss: one step per time. */
  lemma {:induction false} GroupKeepsEvents(evs: seq<Event>)
    requires InOrder(evs) && |evs| <= MAX_STEP_INPUTS
    ensures var steps := Group(evs);
            Scheduled(steps) == evs && Tidy(steps, |evs|)
            && (evs != [] ==> steps != [] && steps[0].offset == evs[0].t
                              && steps[|steps| - 1].offset == evs[|evs| - 1].t)
  {
    hide *;
    if evs == [] {
      GroupNone(evs);
    } else {
      GroupStep(evs);
      var n := |evs| - 1;
      var init, e := evs[..n], evs[n];
      InOrderInit(evs);
      if n == 0 { GroupNone(init); } else { assert init[n - 1] == evs[n - 1] && init[0] == evs[0]; }
      GroupKeepsEvents(init);
      LastIsNotFull(Group(init), n);
      GroupedAdds(Group(init), e);
      GroupedStaysLater(Group(init), e, n);
      assert init + [e] == evs;
    }
  }

  lemma GroupNone(evs: seq<Event>)
    requires evs == []
    ensures Group(evs) == [] && Scheduled(Group(evs)) == evs && Tidy(Group(evs), 0)
  {
  }

  lemma InOrderInit(evs: seq<Event>)
    requires InOrder(evs) && evs != []
    ensures InOrder(evs[..|evs| - 1])
    ensures |evs| > 1 ==> evs[|evs| - 2].t <= evs[|evs| - 1].t
  {
  }

  lemma LastIsNotFull(steps: seq<Step>, n: nat)
    requires Tidy(steps, n) && n < MAX_STEP_INPUTS
    ensures steps != [] ==> |steps[|steps| - 1].inputs| < MAX_STEP_INPUTS
  {
  }

  lemma GroupStep(evs: seq<Event>)
    requires evs != []
    ensures Group(evs) == Grouped(Group(evs[..|evs| - 1]), evs[|evs| - 1])
  {
    hide Grouped;
  }

  lemma GroupedStaysLater(steps: seq<Step>, e: Event, n: nat)
    requires n < MAX_STEP_INPUTS
    requires Tidy(steps, n) && (steps != [] ==> steps[|steps| - 1].offset <= e.t)
    ensures var r := Grouped(steps, e);
            Tidy(r, n + 1) && r[0].offset == if steps == [] then e.t else steps[0].offset
  {
    var r, last := Grouped(steps, e), |steps| - 1;
    if steps != [] && |r| == |steps| {
      assert forall i :: 0 <= i < last ==> r[i] == steps[i];
      assert r[last].offset == steps[last].offset;
    }
  }

  lemma GroupedAdds(steps: seq<Step>, e: Event)
    requires steps != [] ==> |steps[|steps| - 1].inputs| < MAX_STEP_INPUTS
    ensures Scheduled(Grouped(steps, e)) == Scheduled(steps) + [e]
    ensures var r := Grouped(steps, e); r != [] && r[|r| - 1].offset == e.t
    ensures FlatInputs(Grouped(steps, e)) == FlatInputs(steps) + [e.input]
  {
    var last := |steps| - 1;
    if steps == [] || steps[last].offset != e.t {
      assert (steps + [Step(e.t, [e.input])])[..|steps|] == steps;
    } else {
      var r := steps[..last] + [Step(e.t, steps[last].inputs + [e.input])];
      assert r[..last] == steps[..last];
      assert Stamp(e.t, steps[last].inputs + [e.input]) == Stamp(e.t, steps[last].inputs) + [e];
      assert Scheduled(steps[..last]) + (Stamp(e.t, steps[last].inputs) + [e])
          == Scheduled(steps[..last]) + Stamp(e.t, steps[last].inputs) + [e];
    }
  }

  /** A program sends its timeline: the same events in the same order at the same times, one step for each
      distinct time, at most 14 inputs in all, offsets rising strictly from 0 to the span. */
  lemma ProgramIsItsTimeline(a: InputAction, layout: Layout, freq: nat)
    requires a.chord.device != NoDevice
    ensures var p := Program(a, layout, freq);
            && p.Ok() && p.steps != [] && Scheduled(p.steps) == Timeline(a, layout, freq)
            && StrictlyLater(p.steps) && p.steps[0].offset == 0
            && p.steps[|p.steps| - 1].offset == p.span == EndTime(a, freq)
            && 0 < p.inputsPerAction == |p.flat| <= 14
            && (forall i :: 0 <= i < |p.steps| ==> 0 < |p.steps[i].inputs| <= 14)
  {
    hide Timeline, EndTime;
    TimelineShape(a, layout, freq);
    var evs := Timeline(a, layout, freq);
    GroupKeepsEvents(evs);
    FlatIsScheduled(Group(evs));
  }

  lemma {:induction false} FlatIsScheduled(steps: seq<Step>)
    ensures |FlatInputs(steps)| == |Scheduled(steps)|
    ensures forall i :: 0 <= i < |Scheduled(steps)| ==> FlatInputs(steps)[i] == Scheduled(steps)[i].input
  {
    if steps != [] { FlatIsScheduled(steps[..|steps| - 1]); }
  }

  /** Without hold and gap everything happens at once: the program of MAX mode is a single step. */
  lemma NoHoldIsOneStep(a: InputAction, layout: Layout, freq: nat)
    requires a.chord.device != NoDevice && a.downTimeUs == 0 && a.repeatGapUs == 0
    ensures |Program(a, layout, freq).steps| == 1
  {
    hide *;
    ProgramIsItsTimeline(a, layout, freq);
    NoTime(a, freq);
    OneTime(Program(a, layout, freq).steps);
  }

  lemma OneTime(steps: seq<Step>)
    requires StrictlyLater(steps) && steps != [] && steps[0].offset == steps[|steps| - 1].offset
    ensures |steps| == 1
  {
  }

  lemma NoTime(a: InputAction, freq: nat)
    requires a.downTimeUs == 0 && a.repeatGapUs == 0
    ensures EndTime(a, freq) == 0
  {
    assert UsToTicks(0, freq) == 0;
  }

  // ---------------------------------------------------------------- programs leave no key down

  function InputsOf(evs: seq<Event>): (r: seq<Input>)
    ensures |r| == |evs| && forall i :: 0 <= i < |r| ==> r[i] == evs[i].input
  {
    if evs == [] then [] else [evs[0].input] + InputsOf(evs[1..])
  }

  /** The keys and the button that an action presses. */
  function KeysOf(a: InputAction): set<nat> {
    (set i: nat | i < 4 && HoldsMod(a.chord, i) :: ModKey(i).1)
    + (if a.chord.device == Keyboard then {a.chord.code % 256} else {})
  }

  function ButtonsOf(a: InputAction): set<nat> {
    if a.chord.device == Mouse && a.chord.code < 5 then {a.chord.code} else {}
  }

  /** An event that can change nothing outside the given keys and buttons. */
  ghost predicate Touches(e: Input, keys: set<nat>, buttons: set<nat>) {
    match e
    case KeyInput(vk, _, _, _, _, _) => vk % 256 in keys
    case MouseInput(flags, data, _) =>
      && (LeftDown in flags || LeftUp in flags ==> 0 in buttons)
      && (RightDown in flags || RightUp in flags ==> 1 in buttons)
      && (MiddleDown in flags || MiddleUp in flags ==> 2 in buttons)
      && (XDown in flags || XUp in flags ==>
            (data % 2 == 1 ==> 3 in buttons) && (data / 2 % 2 == 1 ==> 4 in buttons))
  }

  ghost predicate AllTouch(es: seq<Input>, keys: set<nat>, buttons: set<nat>) {
    forall e :: e in es ==> Touches(e, keys, buttons)
  }

  lemma MouseUntouched(m: set<nat>, flags: set<MouseFlag>, data: nat, keys: set<nat>, buttons: set<nat>)
    requires Touches(MouseInput(flags, data, TAG), keys, buttons)
    ensures TrackMouse(m, flags, data) - buttons == m - buttons
  {
  }

  lemma TrackUntouched(h: Held, e: Input, keys: set<nat>, buttons: set<nat>)
    requires Touches(e, keys, buttons)
    ensures Track(h, e).mouse - buttons == h.mouse - buttons
    ensures Track(h, e).keys - keys == h.keys - keys
  {
    match e
    case MouseInput(flags, data, tag) =>
      MouseUntouched(h.mouse, flags, data, keys, buttons);
    case KeyInput(_, _, _, _, _, _) =>
  }

  lemma {:induction false} TrackAllUntouched(h: Held, es: seq<Input>, keys: set<nat>, buttons: set<nat>)
    requires AllTouch(es, keys, buttons)
    ensures TrackAll(h, es).mouse - buttons == h.mouse - buttons
    ensures TrackAll(h, es).keys - keys == h.keys - keys
    decreases |es|
  {
    if es != [] {
      hide Track, Touches;
      TrackUntouched(h, es[0], keys, buttons);
      TrackAllUntouched(Track(h, es[0]), es[1..], keys, buttons);
    }
  }

  lemma ModEventTouches(a: InputAction, layout: Layout, i: nat, up: bool)
    requires i < 4
    ensures AllTouch(ModEvent(a, layout, i, up), KeysOf(a), ButtonsOf(a))
    ensures up ==> (forall e :: e in ModEvent(a, layout, i, up) ==> IsUp(e))
    ensures up && HoldsMod(a.chord, i) ==> ModKey(i).1 in UpKeys(ModEvent(a, layout, i, up))
  {
    if HoldsMod(a.chord, i) {
      var e := ModEvent(a, layout, i, up)[0];
      assert ModEvent(a, layout, i, up) == [e];
      assert e.vk % 256 == ModKey(i).1;
    }
  }

  lemma {:induction false} ModsDownTouch(a: InputAction, layout: Layout, i: nat)
    ensures AllTouch(ModsDown(a, layout, i), KeysOf(a), ButtonsOf(a))
    decreases 4 - i
  {
    hide Touches, KeysOf, ButtonsOf, ModEvent;
    if i < 4 {
      ModEventTouches(a, layout, i, false);
      ModsDownTouch(a, layout, i + 1);
    }
  }

  lemma {:induction false} ModsUpTouch(a: InputAction, layout: Layout, i: nat)
    requires i <= 4
    ensures AllTouch(ModsUp(a, layout, i), KeysOf(a), ButtonsOf(a))
    ensures forall e :: e in ModsUp(a, layout, i) ==> IsUp(e)
    ensures forall j: nat :: j < i && HoldsMod(a.chord, j) ==> ModKey(j).1 in UpKeys(ModsUp(a, layout, i))
  {
    hide Touches, KeysOf, ButtonsOf, ModEvent, IsUp, HoldsMod, ModKey;
    if i > 0 {
      ModEventTouches(a, layout, i - 1, true);
      ModsUpTouch(a, layout, i - 1);
      assert UpKeys(ModsUp(a, layout, i)) 
          >= UpKeys(ModEvent(a, layout, i - 1, true)) + UpKeys(ModsUp(a, layout, i - 1));
    }
  }

  lemma PressTouches(a: InputAction, layout: Layout, down: bool)
    requires a.chord.device != NoDevice
    ensures Touches(PressInput(a, layout, down), KeysOf(a), ButtonsOf(a))
  {
  }

  lemma ReleaseIsUp(a: InputAction, layout: Layout)
    requires a.chord.device == Keyboard || (a.chord.device == Mouse && a.chord.code < 5)
    ensures var up := PressInput(a, layout, false);
            IsUp(up) && ButtonsOf(a) <= UpButtons([up])
            && (a.chord.device == Keyboard ==> a.chord.code % 256 in UpKeys([up]))
  {
    var up := PressInput(a, layout, false);
    if a.chord.device == Mouse {
      assert ButtonOfCode(a.chord.code) == ButtonOfBit(a.chord.code);
      assert up == ButtonUp(a.chord.code);
    }
  }

  lemma {:induction false} PressesTouch(a: InputAction, layout: Layout, freq: nat, n: nat)
    requires a.chord.device != NoDevice
    ensures var evs := Presses(a, layout, freq, n);
            (forall i :: 0 <= i < |evs| ==> Touches(evs[i].input, KeysOf(a), ButtonsOf(a)))
            && (n > 0 && !a.chord.IsWheel() ==> evs != [] && evs[|evs| - 1].input == PressInput(a, layout, false))
  {
    hide *;
    PressTouches(a, layout, true);
    PressTouches(a, layout, false);
    TimelineIs(a, layout, freq);
    if n > 0 {
      PressesTouch(a, layout, freq, n - 1);
      PressStep(a, layout, freq, n - 1);
    }
  }

  lemma FlatIsTimeline(a: InputAction, layout: Layout, freq: nat)
    requires a.chord.device != NoDevice
    ensures Program(a, layout, freq).flat
         == ModsDown(a, layout, 0) + InputsOf(Presses(a, layout, freq, Repeat(a))) + ModsUp(a, layout, 4)
  {
    hide Presses, ModsDown, ModsUp, EndTime, Group;
    ProgramIsItsTimeline(a, layout, freq);
    FlatIsScheduled(Program(a, layout, freq).steps);
  }

  /** Splits the presses at the final release of the main key; a wheel or an unknown button has none. */
  ghost function LastRelease(a: InputAction, layout: Layout): seq<Input> {
    if a.chord.device == Keyboard || (a.chord.device == Mouse && a.chord.code < 5) then [PressInput(a, layout, false)]
    else []
  }

  lemma SplitPresses(a: InputAction, layout: Layout, freq: nat) returns (early: seq<Input>)
    requires a.chord.device != NoDevice
    ensures InputsOf(Presses(a, layout, freq, Repeat(a))) == early + LastRelease(a, layout)
    ensures AllTouch(early, KeysOf(a), ButtonsOf(a))
  {
    hide Touches, KeysOf, ButtonsOf, PressInput, Presses;
    PressesTouch(a, layout, freq, Repeat(a));
    var es := InputsOf(Presses(a, layout, freq, Repeat(a)));
    if LastRelease(a, layout) == [] {
      early := es;
    } else {
      early := es[..|es| - 1];
      assert es == early + [es[|es| - 1]];
    }
  }

  /** The events from the last release on are all UPs, and they cover everything the action pressed. */
  lemma TailCoversAll(a: InputAction, layout: Layout)
    requires a.chord.device != NoDevice
    ensures var tail := LastRelease(a, layout) + ModsUp(a, layout, 4);
            (forall e :: e in tail ==> IsUp(e))
            && KeysOf(a) <= UpKeys(tail) && ButtonsOf(a) <= UpButtons(tail)
            && AllTouch(tail, KeysOf(a), ButtonsOf(a))
  {
    hide Touches, PressInput, ModsUp, IsUp, HoldsMod, ModKey;
    ModsUpTouch(a, layout, 4);
    PressTouches(a, layout, false);
    if LastRelease(a, layout) != [] { ReleaseIsUp(a, layout); }
  }

  /** Whatever was held before, after one action none of its keys and buttons is held, and everything else is as
      it was; so an action run while none of its keys is held changes nothing. */
  lemma ProgramLeavesNothingHeld(a: InputAction, layout: Layout, freq: nat, h: Held)
    requires a.chord.device != NoDevice && ValidHeld(h)
    ensures TrackAll(h, Program(a, layout, freq).flat) == Held(h.mouse - ButtonsOf(a), h.keys - KeysOf(a))
  {
    var first := SplitFlat(a, layout, freq);
    var keys, buttons, tail := KeysOf(a), ButtonsOf(a), LastRelease(a, layout) + ModsUp(a, layout, 4);
    TailCoversAll(a, layout);
    ReleasedAfterwards(h, first, tail, keys, buttons);
  }

  lemma Joined(a: seq<Input>, b: seq<Input>, c: seq<Input>, d: seq<Input>, keys: set<nat>, buttons: set<nat>)
      returns (first: seq<Input>)
    requires AllTouch(a, keys, buttons) && AllTouch(b, keys, buttons)
    ensures a + (b + c) + d == first + (c + d) && AllTouch(first, keys, buttons)
  {
    hide Touches;
    first := a + b;
  }

  lemma SplitFlat(a: InputAction, layout: Layout, freq: nat) returns (first: seq<Input>)
    requires a.chord.device != NoDevice
    ensures Program(a, layout, freq).flat == first + (LastRelease(a, layout) + ModsUp(a, layout, 4))
    ensures AllTouch(first, KeysOf(a), ButtonsOf(a))
  {
    hide *;
    FlatIsTimeline(a, layout, freq);
    var early := SplitPresses(a, layout, freq);
    ModsDownTouch(a, layout, 0);
    first := Joined(ModsDown(a, layout, 0), early, LastRelease(a, layout), ModsUp(a, layout, 4),
                    KeysOf(a), ButtonsOf(a));
  }

  lemma ReleasedAfterwards(h: Held, first: seq<Input>, tail: seq<Input>, keys: set<nat>, buttons: set<nat>)
    requires ValidHeld(h) && AllTouch(first, keys, buttons) && AllTouch(tail, keys, buttons)
    requires (forall e :: e in tail ==> IsUp(e)) && keys <= UpKeys(tail) && buttons <= UpButtons(tail)
    ensures TrackAll(h, first + tail) == Held(h.mouse - buttons, h.keys - keys)
  {
    hide AllTouch, IsUp, TrackAll, UpKeys, UpButtons, ValidHeld;
    TrackAllUntouched(h, first, keys, buttons);
    TrackAllValid(h, first);
    TrackAllAppend(h, first, tail);
    var mid := TrackAll(h, first);
    UpsRemove(mid, tail);
    TrackAllUntouched(mid, tail, keys, buttons);
    OnlyItsKeys(mid, TrackAll(mid, tail), h, keys, UpKeys(tail), buttons, UpButtons(tail));
  }

  lemma OnlyItsKeys(mid: Held, end: Held, h: Held, keys: set<nat>, upKeys: set<nat>, buttons: set<nat>, ups: set<nat>)
    requires mid.mouse - buttons == h.mouse - buttons && mid.keys - keys == h.keys - keys
    requires end.mouse - buttons == mid.mouse - buttons && end.keys - keys == mid.keys - keys
    requires end == Held(mid.mouse - ups, mid.keys - upKeys) && keys <= upKeys && buttons <= ups
    ensures end == Held(h.mouse - buttons, h.keys - keys)
  {
    assert end.mouse == end.mouse - buttons;
    assert end.keys == end.keys - keys;
  }
}
