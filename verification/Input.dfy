/** The events handed to SendInput, how they are built, and what they do to the set of held keys and buttons. */
module Input {

  datatype MouseFlag =
    | LeftDown | LeftUp | RightDown | RightUp | MiddleDown | MiddleUp | XDown | XUp | Wheel | HWheel

  datatype Input =
    | MouseInput(flags: set<MouseFlag>, data: nat, tag: nat)
    | KeyInput(vk: nat, scan: nat, up: bool, extended: bool, scancode: bool, tag: nat)

  datatype MouseButton =
    | Left | Right | Middle | X1 | X2 | WheelUp | WheelDown | WheelLeft | WheelRight

  datatype KeyInjectMode = ScanCode | VirtualKey

  const TAG: nat := 0x494E_4643
  const XBUTTON1: nat := 1
  const XBUTTON2: nat := 2
  const DWORD_WRAP: nat := 0x1_0000_0000

  function MakeMouseInput(b: MouseButton, down: bool, wheelDelta: int, tag: nat): Input {
    match b
    case Left => MouseInput({if down then LeftDown else LeftUp}, 0, tag)
    case Right => MouseInput({if down then RightDown else RightUp}, 0, tag)
    case Middle => MouseInput({if down then MiddleDown else MiddleUp}, 0, tag)
    case X1 => MouseInput({if down then XDown else XUp}, XBUTTON1, tag)
    case X2 => MouseInput({if down then XDown else XUp}, XBUTTON2, tag)
    case WheelUp => MouseInput({Wheel}, wheelDelta % DWORD_WRAP, tag)
    case WheelDown => MouseInput({Wheel}, -wheelDelta % DWORD_WRAP, tag)
    case WheelRight => MouseInput({HWheel}, wheelDelta % DWORD_WRAP, tag)
    case WheelLeft => MouseInput({HWheel}, -wheelDelta % DWORD_WRAP, tag)
  }

  function MakeKeyInput(vk: nat, scan: nat, extended: bool, up: bool, mode: KeyInjectMode, tag: nat): Input {
    KeyInput(vk, scan, up, extended, mode == ScanCode && scan != 0, tag)
  }

  // ---------------------------------------------------------------- what is held

  /** mouse: positions of the set bits of the button mask. keys: the held virtual keys with the metadata recorded
      when each went down. */
  datatype Held = Held(mouse: set<nat>, keys: map<nat, nat>)

  const NOTHING := Held({}, map[])

  ghost predicate ValidHeld(h: Held) {
    && (forall b :: b in h.mouse ==> b < 5)
    && (forall vk :: vk in h.keys ==> 1 <= vk < 256)
  }

  /** scan | 0x100 (extended) | 0x200 (sent by virtual key) */
  function MetaOf(e: Input): nat
    requires e.KeyInput?
  {
    e.scan % 256 + (if e.extended then 0x100 else 0) + (if e.scancode then 0 else 0x200)
  }

  function SetBit(m: set<nat>, bit: nat, down: bool): set<nat> {
    if down then m + {bit} else m - {bit}
  }

  function SetBitIf(m: set<nat>, c: bool, bit: nat, down: bool): set<nat> {
    if c then SetBit(m, bit, down) else m
  }

  function TrackMouse(m: set<nat>, flags: set<MouseFlag>, data: nat): set<nat> {
    var m1 := SetBitIf(m, LeftDown in flags, 0, true);
    var m2 := SetBitIf(m1, LeftUp in flags, 0, false);
    var m3 := SetBitIf(m2, RightDown in flags, 1, true);
    var m4 := SetBitIf(m3, RightUp in flags, 1, false);
    var m5 := SetBitIf(m4, MiddleDown in flags, 2, true);
    var m6 := SetBitIf(m5, MiddleUp in flags, 2, false);
    var x := XDown in flags || XUp in flags;
    var m7 := SetBitIf(m6, x && data % 2 == 1, 3, XDown in flags);
    SetBitIf(m7, x && data / 2 % 2 == 1, 4, XDown in flags)
  }

  function Track(h: Held, e: Input): Held {
    match e
    case MouseInput(flags, data, _) => h.(mouse := TrackMouse(h.mouse, flags, data))
    case KeyInput(vk16, _, up, _, _, _) =>
      var vk := vk16 % 256;
      if vk == 0 then h
      else if !up && vk !in h.keys then h.(keys := h.keys[vk := MetaOf(e)])
      else if up && vk in h.keys then h.(keys := h.keys - {vk})
      else h
  }

  function TrackAll(h: Held, es: seq<Input>): Held
    decreases |es|
  {
    if es == [] then h else TrackAll(Track(h, es[0]), es[1..])
  }

  lemma {:induction false} TrackAllAppend(h: Held, a: seq<Input>, b: seq<Input>)
    ensures TrackAll(h, a + b) == TrackAll(TrackAll(h, a), b)
    decreases |a|
  {
    if a == [] {
      assert a + b == b;
    } else {
      assert (a + b)[1..] == a[1..] + b;
      TrackAllAppend(Track(h, a[0]), a[1..], b);
    }
  }

  lemma TrackSnoc(h: Held, es: seq<Input>, i: nat)
    requires i < |es|
    ensures TrackAll(h, es[..i + 1]) == Track(TrackAll(h, es[..i]), es[i])
  {
    assert es[..i + 1] == es[..i] + [es[i]];
    TrackAllAppend(h, es[..i], [es[i]]);
    assert [es[i]][1..] == [];
  }

  lemma {:induction false} TrackAllValid(h: Held, es: seq<Input>)
    requires ValidHeld(h)
    ensures ValidHeld(TrackAll(h, es))
    decreases |es|
  {
    if es != [] { TrackAllValid(Track(h, es[0]), es[1..]); }
  }

  // ---------------------------------------------------------------- what a press and a release are

  function DownFlag(b: nat): MouseFlag
    requires b < 5
  {
    [LeftDown, RightDown, MiddleDown, XDown, XDown][b]
  }

  function UpFlag(b: nat): MouseFlag
    requires b < 5
  {
    [LeftUp, RightUp, MiddleUp, XUp, XUp][b]
  }

  /** The two extra buttons share their flags; the data says which of them is meant. */
  predicate Selects(data: nat, b: nat) { (b == 3 ==> data % 2 == 1) && (b == 4 ==> data / 2 % 2 == 1) }

  /** An event presses button b. One that has both flags releases it, unless it is an extra button. */
  predicate PressesButton(e: Input, b: nat)
    requires b < 5
  {
    e.MouseInput? && DownFlag(b) in e.flags && Selects(e.data, b) && (b < 3 ==> UpFlag(b) !in e.flags)
  }

  predicate ReleasesButton(e: Input, b: nat)
    requires b < 5
  {
    e.MouseInput? && UpFlag(b) in e.flags && Selects(e.data, b) && (b >= 3 ==> DownFlag(b) !in e.flags)
  }

  predicate PressesKey(e: Input, vk: nat) { e.KeyInput? && e.vk % 256 == vk && !e.up }

  predicate ReleasesKey(e: Input, vk: nat) { e.KeyInput? && e.vk % 256 == vk && e.up }

  /** Nothing from event i on releases the button. */
  predicate ButtonKept(es: seq<Input>, b: nat, i: nat)
    requires b < 5
  {
    forall j :: i <= j < |es| ==> !ReleasesButton(es[j], b)
  }

  predicate KeyKept(es: seq<Input>, vk: nat, i: nat) { forall j :: i <= j < |es| ==> !ReleasesKey(es[j], vk) }

  /** The last event that presses or releases the button presses it, or there is none and it was down before. */
  ghost predicate ButtonStaysDown(was: bool, es: seq<Input>, b: nat)
    requires b < 5
  {
    || (was && ButtonKept(es, b, 0))
    || exists i: nat :: i < |es| && PressesButton(es[i], b) && ButtonKept(es, b, i + 1)
  }

  ghost predicate KeyStaysDown(was: bool, es: seq<Input>, vk: nat) {
    || (was && KeyKept(es, vk, 0))
    || exists i: nat :: i < |es| && PressesKey(es[i], vk) && KeyKept(es, vk, i + 1)
  }

  lemma ButtonStep1(h: Held, e: Input, b: nat)
    requires b < 5
    ensures b in Track(h, e).mouse <==> PressesButton(e, b) || (b in h.mouse && !ReleasesButton(e, b))
  {
  }

  lemma KeyStep1(h: Held, e: Input, vk: nat)
    requires 1 <= vk < 256
    ensures vk in Track(h, e).keys <==> PressesKey(e, vk) || (vk in h.keys && !ReleasesKey(e, vk))
    ensures vk in h.keys && vk in Track(h, e).keys ==> Track(h, e).keys[vk] == h.keys[vk]
    ensures vk !in h.keys && vk in Track(h, e).keys ==> Track(h, e).keys[vk] == MetaOf(e)
  {
  }

  /** A button is recorded as held if and only if the last event that presses or releases it presses it. */
  lemma {:induction false} ButtonHeldIff(h: Held, es: seq<Input>, b: nat)
    requires b < 5
    ensures b in TrackAll(h, es).mouse <==> ButtonStaysDown(b in h.mouse, es, b)
    decreases |es|
  {
    hide PressesButton, ReleasesButton, Track;
    if es == [] {
    } else {
      var (init, n) := (es[..|es| - 1], |es| - 1);
      ButtonHeldIff(h, init, b);
      assert es[..n + 1] == es;
      TrackSnoc(h, es, n);
      ButtonStep1(TrackAll(h, init), es[n], b);
      ButtonSnoc(b in h.mouse, es, b);
    }
  }

  lemma ButtonSnoc(was: bool, es: seq<Input>, b: nat)
    requires b < 5 && es != []
    ensures var (init, e) := (es[..|es| - 1], es[|es| - 1]);
            ButtonStaysDown(was, es, b) <==>
              PressesButton(e, b) || (ButtonStaysDown(was, init, b) && !ReleasesButton(e, b))
  {
    var (init, e) := (es[..|es| - 1], es[|es| - 1]);
    PressIsNoRelease(e, b);
    hide PressesButton, ReleasesButton;
    if PressesButton(e, b) {
      assert ButtonKept(es, b, |es|);
    } else if ButtonStaysDown(was, init, b) && !ReleasesButton(e, b) {
      if !(was && ButtonKept(init, b, 0)) {
        var i: nat :| i < |init| && PressesButton(init[i], b) && ButtonKept(init, b, i + 1);
        assert PressesButton(es[i], b) && ButtonKept(es, b, i + 1);
      }
    }
  }

  lemma PressIsNoRelease(e: Input, b: nat)
    requires b < 5
    ensures !(PressesButton(e, b) && ReleasesButton(e, b))
  {
  }

  /** So is a key. */
  lemma {:induction false} KeyHeldIff(h: Held, es: seq<Input>, vk: nat)
    requires 1 <= vk < 256
    ensures vk in TrackAll(h, es).keys <==> KeyStaysDown(vk in h.keys, es, vk)
    decreases |es|
  {
    hide PressesKey, ReleasesKey, Track;
    if es == [] {
    } else {
      var (init, n) := (es[..|es| - 1], |es| - 1);
      KeyHeldIff(h, init, vk);
      assert es[..n + 1] == es;
      TrackSnoc(h, es, n);
      KeyStep1(TrackAll(h, init), es[n], vk);
      KeySnoc(vk in h.keys, es, vk);
    }
  }

  lemma KeySnoc(was: bool, es: seq<Input>, vk: nat)
    requires es != []
    ensures var (init, e) := (es[..|es| - 1], es[|es| - 1]);
            KeyStaysDown(was, es, vk) <==> PressesKey(e, vk) || (KeyStaysDown(was, init, vk) && !ReleasesKey(e, vk))
  {
    var (init, e) := (es[..|es| - 1], es[|es| - 1]);
    assert !(PressesKey(e, vk) && ReleasesKey(e, vk));
    hide PressesKey, ReleasesKey;
    if PressesKey(e, vk) {
      assert KeyKept(es, vk, |es|);
    } else if KeyStaysDown(was, init, vk) && !ReleasesKey(e, vk) {
      if !(was && KeyKept(init, vk, 0)) {
        var i: nat :| i < |init| && PressesKey(init[i], vk) && KeyKept(init, vk, i + 1);
        assert PressesKey(es[i], vk) && KeyKept(es, vk, i + 1);
      }
    }
  }

  /** The metadata say how a key was sent: the low byte of its scan code, and two flags. */
  predicate Describes(meta: nat, e: Input)
    requires e.KeyInput?
  {
    meta % 256 == e.scan % 256 && (meta / 256 % 2 == 1) == e.extended && (meta / 512 % 2 == 0) == e.scancode
  }

  lemma MetaDescribes(e: Input)
    requires e.KeyInput?
    ensures Describes(MetaOf(e), e)
  {
  }

  /** The metadata of a held key are those of the press with which the hold began: no later event has released the key,
      and it was not down before that press. */
  lemma {:induction false} MetaIsOfThePress(h: Held, es: seq<Input>, vk: nat) returns (i: nat)
    requires 1 <= vk < 256 && vk in TrackAll(h, es).keys && !(vk in h.keys && KeyKept(es, vk, 0))
    ensures i < |es| && PressesKey(es[i], vk) && KeyKept(es, vk, i + 1)
    ensures !KeyStaysDown(vk in h.keys, es[..i], vk) && Describes(TrackAll(h, es).keys[vk], es[i])
    decreases |es|
  {
    hide PressesKey, ReleasesKey, Track, Describes;
    KeyHeldIff(h, es, vk);
    var n: nat := |es| - 1;
    var init := es[..n];
    assert es[..n + 1] == es;
    TrackSnoc(h, es, n);
    var before := TrackAll(h, init);
    KeyStep1(before, es[n], vk);
    if vk in before.keys {
      PressReleases(es[n], vk);
      i := MetaIsOfThePress(h, init, vk);
      assert init[..i] == es[..i];
    } else {
      i := n;
      KeyHeldIff(h, init, vk);
      MetaOfPress(es[n], vk);
    }
  }

  /** A key that was down before, and is not released, keeps its metadata. */
  lemma {:induction false} MetaStays(h: Held, es: seq<Input>, vk: nat)
    requires 1 <= vk < 256 && vk in h.keys && KeyKept(es, vk, 0)
    ensures vk in TrackAll(h, es).keys && TrackAll(h, es).keys[vk] == h.keys[vk]
    decreases |es|
  {
    hide PressesKey, ReleasesKey, Track;
    if es == [] {
    } else {
      var n: nat := |es| - 1;
      MetaStays(h, es[..n], vk);
      assert es[..n + 1] == es;
      TrackSnoc(h, es, n);
      KeyStep1(TrackAll(h, es[..n]), es[n], vk);
    }
  }

  lemma PressReleases(e: Input, vk: nat)
    ensures !(PressesKey(e, vk) && ReleasesKey(e, vk))
  {
  }

  lemma MetaOfPress(e: Input, vk: nat)
    ensures PressesKey(e, vk) ==> Describes(MetaOf(e), e)
  {
    if PressesKey(e, vk) { MetaDescribes(e); }
  }

  // ---------------------------------------------------------------- releasing

  const MAX_RELEASE: nat := 64

  function ModeOfMeta(meta: nat): KeyInjectMode {
    if meta / 512 % 2 == 1 then VirtualKey else ScanCode
  }

  /** The UP event that ends a held key. */
  function KeyUp(vk: nat, meta: nat): Input {
    MakeKeyInput(vk, meta % 256, meta / 256 % 2 == 1, true, ModeOfMeta(meta), TAG)
  }

  function ButtonOfBit(b: nat): MouseButton
    requires b < 5
  {
    if b == 0 then Left else if b == 1 then Right else if b == 2 then Middle else if b == 3 then X1 else X2
  }

  function ButtonUp(b: nat): Input
    requires b < 5
  {
    MakeMouseInput(ButtonOfBit(b), false, 0, TAG)
  }

  function KeyUps(keys: map<nat, nat>, vk: nat): seq<Input>
    decreases 256 - vk
  {
    if vk >= 256 then []
    else (if vk in keys then [KeyUp(vk, keys[vk])] else []) + KeyUps(keys, vk + 1)
  }

  function ButtonUps(mouse: set<nat>, b: nat): seq<Input>
    decreases 5 - b
  {
    if b >= 5 then []
    else (if b in mouse then [ButtonUp(b)] else []) + ButtonUps(mouse, b + 1)
  }

  function Cap(es: seq<Input>): seq<Input> {
    if |es| <= MAX_RELEASE then es else es[..MAX_RELEASE]
  }

  /** Keys first, in ascending order, then buttons; no more than fit the buffer. */
  function ReleaseList(h: Held): seq<Input> {
    Cap(KeyUps(h.keys, 0) + ButtonUps(h.mouse, 0))
  }

  /** The UP that ends a held key carries its virtual key, scan code, extended flag and scan-code flag, exactly
      when the scan code fits in the byte that is recorded. */
  lemma UpMatchesDownIff(vk: nat, scan: nat, extended: bool, mode: KeyInjectMode)
    requires 1 <= vk < 256
    ensures var down := MakeKeyInput(vk, scan, extended, false, mode, TAG);
            KeyUp(vk, MetaOf(down)) == down.(up := true) <==> scan < 256
  {
    var down := MakeKeyInput(vk, scan, extended, false, mode, TAG);
    var meta := MetaOf(down);
    assert meta % 256 == scan % 256;
    assert meta / 256 % 2 == (if extended then 1 else 0);
    assert meta / 512 % 2 == (if down.scancode then 0 else 1);
  }

  // ---------------------------------------------------------------- releasing leaves nothing held

  function Size(h: Held): nat { |h.keys| + |h.mouse| }

  function KeysFrom(keys: map<nat, nat>, vk: nat): map<nat, nat> {
    map k | k in keys && k >= vk :: keys[k]
  }

  function ButtonsFrom(mouse: set<nat>, b: nat): set<nat> {
    set x | x in mouse && x >= b
  }

  lemma KeyUpTracks(h: Held, vk: nat, meta: nat)
    requires 1 <= vk < 256
    ensures Track(h, KeyUp(vk, meta)) == h.(keys := h.keys - {vk})
  {
    if vk !in h.keys { assert h.keys - {vk} == h.keys; }
  }

  lemma KeyStep(keys: map<nat, nat>, vk: nat)
    requires vk in keys
    ensures KeysFrom(keys, vk) - {vk} == KeysFrom(keys, vk + 1)
    ensures |KeysFrom(keys, vk)| == |KeysFrom(keys, vk + 1)| + 1
  {
    assert KeysFrom(keys, vk) == KeysFrom(keys, vk + 1)[vk := keys[vk]];
  }

  lemma TrackAllCons(h: Held, e: Input, es: seq<Input>)
    ensures TrackAll(h, [e] + es) == TrackAll(Track(h, e), es)
  {
    hide Track;
    assert ([e] + es)[1..] == es;
  }

  lemma KeyUpsStep(keys: map<nat, nat>, vk: nat)
    ensures KeyUps(keys, vk) == if vk >= 256 then []
                                else if vk in keys then [KeyUp(vk, keys[vk])] + KeyUps(keys, vk + 1)
                                else KeyUps(keys, vk + 1)
  {
    hide KeyUp;
  }

  lemma {:induction false} KeyUpsRelease(mouse: set<nat>, keys: map<nat, nat>, vk: nat)
    requires forall k :: k in keys ==> 1 <= k < 256
    ensures TrackAll(Held(mouse, KeysFrom(keys, vk)), KeyUps(keys, vk)) == Held(mouse, map[])
    ensures |KeyUps(keys, vk)| == |KeysFrom(keys, vk)|
    decreases 256 - vk
  {
    var h := Held(mouse, KeysFrom(keys, vk));
    KeyUpsStep(keys, vk);
    if vk >= 256 {
      assert KeysFrom(keys, vk) == map[];
      assert TrackAll(h, []) == h;
    } else {
      KeyUpsRelease(mouse, keys, vk + 1);
      if vk in keys {
        KeyStep(keys, vk);
        KeyUpTracks(h, vk, keys[vk]);
        TrackAllCons(h, KeyUp(vk, keys[vk]), KeyUps(keys, vk + 1));
      } else {
        assert KeysFrom(keys, vk) == KeysFrom(keys, vk + 1);
      }
      hide Track, TrackAll, KeyUp, KeysFrom, KeyUps;
    }
  }

  lemma ButtonUpTracks(h: Held, b: nat)
    requires b < 5
    ensures Track(h, ButtonUp(b)) == h.(mouse := h.mouse - {b})
  {
  }

  lemma ButtonStep(mouse: set<nat>, b: nat)
    requires b in mouse
    ensures ButtonsFrom(mouse, b) - {b} == ButtonsFrom(mouse, b + 1)
    ensures |ButtonsFrom(mouse, b)| == |ButtonsFrom(mouse, b + 1)| + 1
  {
    assert ButtonsFrom(mouse, b) == ButtonsFrom(mouse, b + 1) + {b};
  }

  lemma {:induction false} ButtonUpsRelease(mouse: set<nat>, keys: map<nat, nat>, b: nat)
    requires forall x :: x in mouse ==> x < 5
    ensures TrackAll(Held(ButtonsFrom(mouse, b), keys), ButtonUps(mouse, b)) == Held({}, keys)
    ensures |ButtonUps(mouse, b)| == |ButtonsFrom(mouse, b)|
    decreases 5 - b
  {
    if b >= 5 {
      assert ButtonsFrom(mouse, b) == {};
    } else {
      ButtonUpsRelease(mouse, keys, b + 1);
      if b in mouse {
        ButtonStep(mouse, b);
        ButtonUpTracks(Held(ButtonsFrom(mouse, b), keys), b);
        TrackAllCons(Held(ButtonsFrom(mouse, b), keys), ButtonUp(b), ButtonUps(mouse, b + 1));
      } else {
        assert ButtonsFrom(mouse, b) == ButtonsFrom(mouse, b + 1);
        assert [] + ButtonUps(mouse, b + 1) == ButtonUps(mouse, b + 1);
      }
      hide Track, TrackAll, ButtonUp, ButtonsFrom;
    }
  }

  lemma UncappedReleases(h: Held)
    requires ValidHeld(h)
    ensures TrackAll(h, KeyUps(h.keys, 0) + ButtonUps(h.mouse, 0)) == NOTHING
    ensures |KeyUps(h.keys, 0) + ButtonUps(h.mouse, 0)| == Size(h)
  {
    assert KeysFrom(h.keys, 0) == h.keys && ButtonsFrom(h.mouse, 0) == h.mouse;
    KeyUpsRelease(h.mouse, h.keys, 0);
    ButtonUpsRelease(h.mouse, map[], 0);
    TrackAllAppend(h, KeyUps(h.keys, 0), ButtonUps(h.mouse, 0));
  }

  predicate IsUp(e: Input) {
    (e.KeyInput? && e.up) || exists b: nat :: b < 5 && e == ButtonUp(b)
  }

  lemma {:induction false} ReleaseListIsUps(h: Held, vk: nat, b: nat)
    ensures forall e :: e in KeyUps(h.keys, vk) ==> IsUp(e)
    ensures forall e :: e in ButtonUps(h.mouse, b) ==> IsUp(e)
    decreases 256 - vk, 5 - b
  {
    if vk < 256 {
      ReleaseListIsUps(h, vk + 1, b);
    } else if b < 5 {
      ReleaseListIsUps(h, vk, b + 1);
    }
  }

  lemma OneUpFreesOne(h: Held, e: Input)
    requires IsUp(e)
    ensures Size(Track(h, e)) >= Size(h) - 1
  {
    if e.KeyInput? {
      var vk := e.vk % 256;
      if vk in h.keys {
        assert h.keys.Keys == (h.keys - {vk}).Keys + {vk};
        assert |h.keys.Keys| == |h.keys| && |(h.keys - {vk}).Keys| == |h.keys - {vk}|;
      }
    } else {
      var b: nat :| b < 5 && e == ButtonUp(b);
      ButtonUpTracks(h, b);
      assert h.mouse <= (h.mouse - {b}) + {b};
    }
  }

  lemma {:induction false} UpsFreeAtMostOneEach(h: Held, es: seq<Input>)
    requires forall e :: e in es ==> IsUp(e)
    ensures Size(TrackAll(h, es)) >= Size(h) - |es|
    decreases |es|
  {
    if es != [] {
      OneUpFreesOne(h, es[0]);
      UpsFreeAtMostOneEach(Track(h, es[0]), es[1..]);
    }
  }

  /** Releasing leaves nothing held exactly when at most 64 inputs are held: the buffer holds no more. */
  lemma ReleaseIsCompleteIff(h: Held)
    requires ValidHeld(h)
    ensures TrackAll(h, ReleaseList(h)) == NOTHING <==> Size(h) <= MAX_RELEASE
  {
    UncappedReleases(h);
    if Size(h) > MAX_RELEASE {
      ReleaseListIsUps(h, 0, 0);
      UpsFreeAtMostOneEach(h, ReleaseList(h));
    }
  }

  /** A release gives UP events alone, each for a key or a button that is held. */
  lemma ReleasesWhatIsHeld(h: Held, e: Input)
    requires ValidHeld(h) && e in ReleaseList(h)
    ensures || (exists vk :: vk in h.keys && ReleasesKey(e, vk) && e.vk == vk)
            || (exists b: nat :: b < 5 && b in h.mouse && ReleasesButton(e, b))
    ensures forall vk :: !PressesKey(e, vk)
    ensures forall b: nat :: b < 5 ==> !PressesButton(e, b)
  {
    hide KeyUp, ButtonUp, ReleasesKey, ReleasesButton, PressesKey, PressesButton;
    UpsAreOfHeld(h, 0, 0);
    if e in KeyUps(h.keys, 0) {
      var vk: nat :| vk in h.keys && e == KeyUp(vk, h.keys[vk]);
      KeyUpReleases(vk, h.keys[vk]);
    } else {
      assert e in ButtonUps(h.mouse, 0);
      var b: nat :| b < 5 && b in h.mouse && e == ButtonUp(b);
      ButtonUpReleases(b);
    }
  }

  lemma {:induction false} UpsAreOfHeld(h: Held, vk: nat, b: nat)
    ensures forall e :: e in KeyUps(h.keys, vk) ==> exists k: nat :: k in h.keys && e == KeyUp(k, h.keys[k])
    ensures forall e :: e in ButtonUps(h.mouse, b) ==> exists c: nat :: c < 5 && c in h.mouse && e == ButtonUp(c)
    decreases 256 - vk, 5 - b
  {
    hide KeyUp, ButtonUp;
    if vk < 256 {
      UpsAreOfHeld(h, vk + 1, b);
    } else if b < 5 {
      UpsAreOfHeld(h, vk, b + 1);
    }
  }

  lemma KeyUpReleases(vk: nat, meta: nat)
    requires 1 <= vk < 256
    ensures ReleasesKey(KeyUp(vk, meta), vk) && KeyUp(vk, meta).vk == vk
    ensures forall k :: !PressesKey(KeyUp(vk, meta), k)
    ensures forall b: nat :: b < 5 ==> !PressesButton(KeyUp(vk, meta), b)
  {
  }

  lemma ButtonUpReleases(b: nat)
    requires b < 5
    ensures forall c: nat :: c < 5 ==> (ReleasesButton(ButtonUp(b), c) <==> c == b) && !PressesButton(ButtonUp(b), c)
    ensures forall k :: !PressesKey(ButtonUp(b), k)
  {
  }

  lemma NothingToRelease(h: Held)
    requires ValidHeld(h)
    ensures ReleaseList(h) == [] <==> h == NOTHING
  {
    UncappedReleases(h);
  }

  // ---------------------------------------------------------------- releasing twice

  function UpKeys(es: seq<Input>): set<nat> {
    set e | e in es && e.KeyInput? :: e.vk % 256
  }

  function UpButtons(es: seq<Input>): set<nat> {
    set b: nat | b < 5 && ButtonUp(b) in es
  }

  lemma {:induction false} UpsRemove(h: Held, es: seq<Input>)
    requires ValidHeld(h) && forall e :: e in es ==> IsUp(e)
    ensures TrackAll(h, es) == Held(h.mouse - UpButtons(es), h.keys - UpKeys(es))
    decreases |es|
  {
    if es == [] {
      assert h.keys - {} == h.keys;
    } else {
      var e := es[0];
      OneUpRemoves(h, e);
      UpsRemove(Track(h, e), es[1..]);
      assert es == [e] + es[1..];
      assert UpKeys(es) == UpKeys([e]) + UpKeys(es[1..]);
      assert UpButtons(es) == UpButtons([e]) + UpButtons(es[1..]);
    }
  }

  lemma OneUpRemoves(h: Held, e: Input)
    requires ValidHeld(h) && IsUp(e)
    ensures Track(h, e) == Held(h.mouse - UpButtons([e]), h.keys - UpKeys([e])) && ValidHeld(Track(h, e))
  {
    if e.KeyInput? {
      assert UpKeys([e]) == {e.vk % 256} && UpButtons([e]) == {};
      if e.vk % 256 !in h.keys { assert h.keys - {e.vk % 256} == h.keys; }
    } else {
      var b: nat :| b < 5 && e == ButtonUp(b);
      ButtonUpTracks(h, b);
      assert UpButtons([e]) == {b} by { ButtonUpInjective(b); }
      assert UpKeys([e]) == {};
      assert h.keys - {} == h.keys;
    }
  }

  lemma ButtonUpInjective(b: nat)
    requires b < 5
    ensures forall c: nat :: c < 5 && ButtonUp(c) == ButtonUp(b) ==> c == b
  {
  }

  /** Tracking a release list again from its start changes nothing more: the retry of releaseAll may do so. */
  lemma ReleasingAgain(h: Held, es: seq<Input>, n: nat)
    requires ValidHeld(h) && n <= |es| && forall e :: e in es ==> IsUp(e)
    ensures TrackAll(TrackAll(h, es[..n]), es) == TrackAll(h, es)
  {
    UpsRemove(h, es[..n]);
    UpsRemove(h, es);
    TrackAllValid(h, es[..n]);
    UpsRemove(TrackAll(h, es[..n]), es);
    assert UpKeys(es[..n]) <= UpKeys(es) && UpButtons(es[..n]) <= UpButtons(es);
    assert h.keys - UpKeys(es[..n]) - UpKeys(es) == h.keys - UpKeys(es);
  }

  /** Each event of a release list frees one input. */
  lemma EachReleases(h: Held)
    requires ValidHeld(h)
    ensures Size(TrackAll(h, ReleaseList(h))) == Size(h) - |ReleaseList(h)|
  {
    hide Size, TrackAll;
    var all, l := KeyUps(h.keys, 0) + ButtonUps(h.mouse, 0), ReleaseList(h);
    UncappedReleases(h);
    ReleaseListIsUps(h, 0, 0);
    UpsFreeAtMostOneEach(h, l);
    assert all == l + all[|l|..];
    TrackAllAppend(h, l, all[|l|..]);
    UpsFreeAtMostOneEach(TrackAll(h, l), all[|l|..]);
    NothingHasNoSize();
  }

  lemma NothingHasNoSize()
    ensures Size(NOTHING) == 0
  {
  }

  /** A part of a release list has the effect of the whole exactly if it is the whole. */
  lemma PartReleasesAllIff(h: Held, ok: nat)
    requires ValidHeld(h) && ok <= |ReleaseList(h)|
    ensures TrackAll(h, ReleaseList(h)[..ok]) == TrackAll(h, ReleaseList(h)) <==> ok == |ReleaseList(h)|
  {
    hide Size, TrackAll, ReleaseList;
    var l := ReleaseList(h);
    EachReleases(h);
    AllUps(h);
    UpsFreeAtMostOneEach(h, l[..ok]);
    assert l[..|l|] == l;
  }

  lemma AllUps(h: Held)
    ensures forall e :: e in ReleaseList(h) ==> IsUp(e)
  {
    ReleaseListIsUps(h, 0, 0);
  }

  /** The keys 1 to n go down, one after another. */
  function Downs(n: nat): seq<Input> {
    if n == 0 then [] else Downs(n - 1) + [MakeKeyInput(n, 0, false, false, VirtualKey, TAG)]
  }

  ghost predicate HoldsUpTo(h: Held, n: nat) {
    h.mouse == {} && |h.keys| == n && forall vk :: vk in h.keys <==> 1 <= vk <= n
  }

  lemma {:induction false} DownsHold(n: nat)
    requires n < 256
    ensures HoldsUpTo(TrackAll(NOTHING, Downs(n)), n)
  {
    if n > 0 {
      hide TrackAll, Track, HoldsUpTo;
      DownsHold(n - 1);
      var (h, e) := (TrackAll(NOTHING, Downs(n - 1)), MakeKeyInput(n, 0, false, false, VirtualKey, TAG));
      TrackAllAppend(NOTHING, Downs(n - 1), [e]);
      TrackOne(h, e);
      OneMoreDown(h, n);
    }
  }

  lemma TrackOne(h: Held, e: Input)
    ensures TrackAll(h, [e]) == Track(h, e)
  {
  }

  lemma OneMoreDown(h: Held, n: nat)
    requires 1 <= n < 256 && HoldsUpTo(h, n - 1)
    ensures HoldsUpTo(Track(h, MakeKeyInput(n, 0, false, false, VirtualKey, TAG)), n)
  {
    hide TrackMouse, MetaOf;
    OneMoreKey(h.keys, n, MetaOf(MakeKeyInput(n, 0, false, false, VirtualKey, TAG)));
  }

  lemma OneMoreKey(keys: map<nat, nat>, n: nat, meta: nat)
    requires n !in keys
    ensures |keys[n := meta]| == |keys| + 1
  {
    assert keys[n := meta].Keys == keys.Keys + {n};
    assert |keys[n := meta].Keys| == |keys[n := meta]| && |keys.Keys| == |keys|;
  }

  /** 65 keys go down from nothing, and a release leaves one of them held. */
  lemma OneKeyTooMany()
    ensures var h := TrackAll(NOTHING, Downs(65));
            ValidHeld(h) && Size(h) == MAX_RELEASE + 1 && TrackAll(h, ReleaseList(h)) != NOTHING
  {
    DownsHold(65);
    hide TrackAll, Downs, ReleaseList;
    ReleaseIsCompleteIff(TrackAll(NOTHING, Downs(65)));
  }

  /** Nothing accepted, everything recorded as released: the left button is down, and Windows rejects both calls. */
  lemma RejectedRelease()
    ensures var h := Held({0}, map[]);
            ValidHeld(h) && TrackAll(h, ReleaseList(h)[..0]) == h && TrackAll(h, ReleaseList(h)) == NOTHING
  {
    var h := Held({0}, map[]);
    ReleaseIsCompleteIff(h);
    assert ReleaseList(h)[..0] == [];
  }

  // ---------------------------------------------------------------- few events hold little

  lemma OneEventOneKey(h: Held, e: Input)
    ensures |Track(h, e).keys| <= |h.keys| + 1
  {
    if e.KeyInput? {
      var vk := e.vk % 256;
      if e.up && vk in h.keys {
        assert h.keys == (h.keys - {vk})[vk := h.keys[vk]];
      }
    }
  }

  lemma {:induction false} KeysGrowSlowly(h: Held, es: seq<Input>)
    ensures |TrackAll(h, es).keys| <= |h.keys| + |es|
    decreases |es|
  {
    hide Track;
    if es != [] {
      OneEventOneKey(h, es[0]);
      KeysGrowSlowly(Track(h, es[0]), es[1..]);
    }
  }

  lemma FiveButtons(m: set<nat>)
    requires forall b :: b in m ==> b < 5
    ensures |m| <= 5
  {
    var all: set<nat> := {0, 1, 2, 3, 4};
    assert m <= all;
    assert all == m + (all - m);
  }

  /** From nothing, n events hold at most n keys and five buttons. */
  lemma FewEventsHoldLittle(es: seq<Input>)
    ensures Size(TrackAll(NOTHING, es)) <= |es| + 5
  {
    hide TrackAll;
    KeysGrowSlowly(NOTHING, es);
    TrackAllValid(NOTHING, es);
    FiveButtons(TrackAll(NOTHING, es).mouse);
  }
}
