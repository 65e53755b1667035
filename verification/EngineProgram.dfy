/** The engine's configuration, and the programs that the engine builds from it: hold and gap are shortened when an
    action would not end before the next one starts. */
module EngineProgram {
  import opened Input
  import opened Actions
  import Modes
  import PreciseWaiter

  datatype LatePolicy = Skip | CatchUp

  datatype EngineConfig = EngineConfig(
    action: InputAction, mode: Modes.ModeParams, maxMode: bool, cps: real, precision: PreciseWaiter.Precision,
    latePolicy: LatePolicy, maxBatchActions: nat, maxInflight: nat)

  const MIN_CPS := 0.01
  const MAX_CPS := 1000000.0

  /** Every configuration that makeEngineConfig builds has a rate in this range. */
  predicate InRange(c: EngineConfig) { MIN_CPS <= c.cps <= MAX_CPS }

  function Period(freq: nat, cps: real): real
    requires cps > 0.0
  {
    freq as real / cps
  }

  predicate TooLong(span: int, period: real) { span > 0 && span as real >= period * 0.9 }

  /** Hold and gap scaled down, in whole microseconds. */
  function Scaled(a: InputAction, f: real): InputAction
    requires f >= 0.0
  {
    assert a.downTimeUs as real * f >= 0.0 && a.repeatGapUs as real * f >= 0.0;
    a.(downTimeUs := (a.downTimeUs as real * f).Floor, repeatGapUs := (a.repeatGapUs as real * f).Floor)
  }

  /** The factor that would make the span half the period. */
  function HalfPeriodFactor(span: int, period: real): (f: real)
    requires span > 0 && period >= 0.0
    ensures f >= 0.0 && f * span as real == period * 0.5
  {
    QuotientSign(period * 0.5, span as real);
    period * 0.5 / span as real
  }

  lemma QuotientSign(a: real, b: real)
    requires a >= 0.0 && b > 0.0
    ensures a / b >= 0.0 && a / b * b == a
  {
  }

  predicate Clamps(c: EngineConfig, layout: Layout, freq: nat) {
    var p := Program(c.action, layout, freq);
    !c.maxMode && p.Ok() && c.cps > 0.0 && TooLong(p.span, Period(freq, c.cps))
  }

  lemma PeriodNotNegative(freq: nat, cps: real)
    requires cps > 0.0
    ensures Period(freq, cps) >= 0.0
    ensures freq > 0 ==> Period(freq, cps) > 0.0
  {
  }

  /** The program that timed mode runs. */
  function TimedProgram(c: EngineConfig, layout: Layout, freq: nat): ActionProgram {
    var p := Program(c.action, layout, freq);
    if Clamps(c, layout, freq) then
      PeriodNotNegative(freq, c.cps);
      Program(Scaled(c.action, HalfPeriodFactor(p.span, Period(freq, c.cps))), layout, freq)
    else p
  }

  /** The program that MAX mode runs. */
  function MaxProgram(c: EngineConfig, layout: Layout, freq: nat): ActionProgram {
    Program(c.action.(downTimeUs := 0, repeatGapUs := 0), layout, freq)
  }

  method RebuildProgram(c: EngineConfig, layout: Layout, freq: nat)
      returns (prog: ActionProgram, maxProg: ActionProgram, clamped: bool)
    ensures prog == TimedProgram(c, layout, freq) && maxProg == MaxProgram(c, layout, freq)
    ensures clamped == Clamps(c, layout, freq)
  {
    hide Program;
    prog := CompileAction(c.action, layout, freq);
    clamped := false;
    if !c.maxMode && prog.Ok() && c.cps > 0.0 {
      var period := freq as real / c.cps;
      PeriodNotNegative(freq, c.cps);
      if prog.span > 0 && prog.span as real >= period * 0.9 {
        prog := CompileAction(Scaled(c.action, HalfPeriodFactor(prog.span, period)), layout, freq);
        clamped := true;
      }
    }
    maxProg := CompileAction(c.action.(downTimeUs := 0, repeatGapUs := 0), layout, freq);
  }

  // ---------------------------------------------------------------- an action ends before the next one starts

  /** r holds and r - 1 gaps, or only the gaps for a wheel. */
  function TotalTicks(r: int, wheel: bool, hold: nat, gap: nat): int {
    if wheel then (r - 1) * gap else r * hold + (r - 1) * gap
  }

  /** The span of a program. */
  function Span(a: InputAction, freq: nat): int {
    TotalTicks(Repeat(a), a.chord.IsWheel(), UsToTicks(a.downTimeUs, freq), UsToTicks(a.repeatGapUs, freq))
  }

  lemma SpanIsEnd(a: InputAction, freq: nat)
    ensures EndTime(a, freq) == Span(a, freq)
  {
    hide UsToTicks;
    var hold, gap, r := UsToTicks(a.downTimeUs, freq), UsToTicks(a.repeatGapUs, freq), Repeat(a);
    assert (r - 1) * (hold + gap) == (r - 1) * hold + (r - 1) * gap;
    assert r * hold == (r - 1) * hold + hold;
  }

  /** One microsecond in ticks. */
  function PerUs(freq: nat): (r: real)
    ensures r >= 0.0
  {
    freq as real / 1000000.0
  }

  lemma TicksBound(us: nat, freq: nat)
    ensures us as real * PerUs(freq) - 0.5 < UsToTicks(us, freq) as real <= us as real * PerUs(freq) + 0.5
  {
    assert us as real * freq as real / 1000000.0 == us as real * PerUs(freq);
  }

  /** A product that proofs need not look into. */
  function Times(x: real, y: real): real { x * y }

  lemma TimesIs(x: real, y: real)
    ensures Times(x, y) == x * y
  {
  }

  /** Rounding twice, once at each compilation, adds at most half a tick and half a scaled tick to each duration. */
  lemma OneDuration(us: nat, f: real, freq: nat, shorter: nat)
    requires 0.0 <= f && shorter as real <= Times(f, us as real)
    ensures UsToTicks(shorter, freq) as real <= Times(f, UsToTicks(us, freq) as real + 0.5) + 0.5
  {
    hide UsToTicks, PerUs, Times;
    TicksBound(us, freq);
    TicksBound(shorter, freq);
    ScaledTicks(us as real, shorter as real, f, PerUs(freq), UsToTicks(us, freq) as real + 0.5);
  }

  lemma ScaledTicks(us: real, shorter: real, f: real, perUs: real, ticks: real)
    requires f >= 0.0 && perUs >= 0.0 && shorter <= Times(f, us) && us * perUs <= ticks
    ensures shorter * perUs <= Times(f, ticks)
  {
    Modes.MulLe(shorter, f * us, perUs);
    Modes.MulLe(us * perUs, ticks, f);
    assert f * us * perUs == us * perUs * f;
  }

  lemma ScaledIs(a: InputAction, f: real)
    requires f >= 0.0
    ensures var b := Scaled(a, f);
            && b == a.(downTimeUs := b.downTimeUs, repeatGapUs := b.repeatGapUs)
            && b.downTimeUs as real <= Times(f, a.downTimeUs as real)
            && b.repeatGapUs as real <= Times(f, a.repeatGapUs as real)
  {
  }

  /** With at most three holds and two gaps the error is at most 5/2 + 5/2 * f ticks. */
  lemma ScaledSpan(a: InputAction, freq: nat, f: real)
    requires f >= 0.0
    ensures Span(Scaled(a, f), freq) as real <= Times(f, Span(a, freq) as real) + 2.5 + 2.5 * f
  {
    var b := Scaled(a, f);
    ScaledIs(a, f);
    hide *;
    SpanIs(a, freq);
    SpanIs(b, freq);
    SameChordSameShape(a, b);
    OneDuration(a.downTimeUs, f, freq, b.downTimeUs);
    OneDuration(a.repeatGapUs, f, freq, b.repeatGapUs);
    SumOfDurations(UsToTicks(a.downTimeUs, freq), UsToTicks(a.repeatGapUs, freq),
                   UsToTicks(b.downTimeUs, freq), UsToTicks(b.repeatGapUs, freq), Repeat(a), f, a.chord.IsWheel());
  }

  lemma SpanIs(a: InputAction, freq: nat)
    ensures 1 <= Repeat(a) <= 3
    ensures Span(a, freq) == TotalTicks(Repeat(a), a.chord.IsWheel(), UsToTicks(a.downTimeUs, freq),
                                        UsToTicks(a.repeatGapUs, freq))
  {
  }

  lemma SameChordSameShape(a: InputAction, b: InputAction)
    requires b.chord == a.chord && b.repeat == a.repeat
    ensures Repeat(b) == Repeat(a) && b.chord.IsWheel() == a.chord.IsWheel()
  {
  }

  lemma SumOfDurations(hold: nat, gap: nat, hold': nat, gap': nat, r: nat, f: real, wheel: bool)
    requires 1 <= r <= 3 && f >= 0.0
    requires hold' as real <= Times(f, hold as real + 0.5) + 0.5 && gap' as real <= Times(f, gap as real + 0.5) + 0.5
    ensures TotalTicks(r, wheel, hold', gap') as real
         <= Times(f, TotalTicks(r, wheel, hold, gap) as real) + 2.5 + 2.5 * f
  {
    hide Times;
    var (h, g) := (hold as real, gap as real);
    TimesAdds(f, h, 0.5);
    TimesAdds(f, g, 0.5);
    TimesAdds(f, h, h);
    TimesAdds(f, g, g);
    TimesAdds(f, h + h, h);
    TimesAdds(f, h + h, g);
    TimesAdds(f, h + h + h, g + g);
    TimesHalf(f);
  }

  lemma TimesAdds(f: real, x: real, y: real)
    ensures Times(f, x + y) == Times(f, x) + Times(f, y)
  {
  }

  lemma TimesHalf(f: real)
    ensures Times(f, 0.5) == 0.5 * f && Times(f, 0.0) == 0.0
  {
  }

  lemma ProgramSpan(a: InputAction, layout: Layout, freq: nat)
    ensures var p := Program(a, layout, freq);
            p.span == if a.chord.device == NoDevice then 0 else Span(a, freq)
  {
    if a.chord.device != NoDevice {
      ProgramIsItsTimeline(a, layout, freq);
      SpanIsEnd(a, freq);
    }
  }

  /** With a period of at least 10 ticks the program that runs is shorter than nine tenths of it, whichever branch
      was taken and however the durations were truncated and rounded. */
  lemma SpanBelowPeriod(c: EngineConfig, layout: Layout, freq: nat)
    requires !c.maxMode && c.cps > 0.0 && Period(freq, c.cps) >= 10.0
    ensures TimedProgram(c, layout, freq).span as real < Period(freq, c.cps) * 0.9
  {
    hide *;
    if Clamps(c, layout, freq) {
      ClampedSpan(c, layout, freq);
      var period, s := Period(freq, c.cps), Span(c.action, freq);
      var f := HalfPeriodFactor(s, period);
      ScaledSpan(c.action, freq, f);
      assert Times(f, s as real) == f * s as real by { TimesIs(f, s as real); }
      FactorBound(period, s, f);
    } else {
      NotTooLong(c, layout, freq);
    }
  }

  lemma ClampedSpan(c: EngineConfig, layout: Layout, freq: nat)
    requires c.cps > 0.0 && Period(freq, c.cps) > 0.0 && Clamps(c, layout, freq)
    ensures var period, s := Period(freq, c.cps), Span(c.action, freq);
            && s > 0 && s as real >= period * 0.9
            && TimedProgram(c, layout, freq).span == Span(Scaled(c.action, HalfPeriodFactor(s, period)), freq)
  {
    hide Program, Scaled, Span, HalfPeriodFactor;
    ProgramSpan(c.action, layout, freq);
    var f := HalfPeriodFactor(Span(c.action, freq), Period(freq, c.cps));
    ProgramSpan(Scaled(c.action, f), layout, freq);
    ScaledIs(c.action, f);
  }

  lemma MulLt(a: real, b: real, p: real)
    requires p > 0.0
    ensures a > b ==> a * p > b * p
  {
    if a > b { assert (a - b) * p > 0.0; }
  }

  lemma FactorBound(period: real, s: int, f: real)
    requires period > 0.0 && s as real >= period * 0.9 && f >= 0.0 && f * s as real == period * 0.5
    ensures f * 0.9 <= 0.5
  {
    Modes.MulLe(period * 0.9, s as real, f);
    MulLt(f * 0.9, 0.5, period);
    assert f * 0.9 * period == period * 0.9 * f <= s as real * f == period * 0.5;
  }

  lemma NotTooLong(c: EngineConfig, layout: Layout, freq: nat)
    requires !c.maxMode && c.cps > 0.0 && Period(freq, c.cps) > 0.0 && !Clamps(c, layout, freq)
    ensures TimedProgram(c, layout, freq).span as real < Period(freq, c.cps) * 0.9
  {
    hide Program, Period;
    var p := Program(c.action, layout, freq);
    assert TimedProgram(c, layout, freq) == p;
    NoDeviceNoSpan(c.action, layout, freq);
    BelowNineTenths(p.span, Period(freq, c.cps));
  }

  lemma BelowNineTenths(span: int, period: real)
    requires period > 0.0 && (span == 0 || !TooLong(span, period))
    ensures span as real < period * 0.9
  {
    if span <= 0 { assert span as real <= 0.0; }
  }

  lemma NoDeviceNoSpan(a: InputAction, layout: Layout, freq: nat)
    ensures Program(a, layout, freq).Ok() || Program(a, layout, freq).span == 0
  {
    if a.chord.device != NoDevice { ProgramIsItsTimeline(a, layout, freq); }
  }

  /** A rate of at most 1,000,000 per second against a counter of at least 10 MHz gives such a period. */
  lemma PeriodOfTen(c: EngineConfig, freq: nat)
    requires InRange(c) && freq >= 10_000_000
    ensures Period(freq, c.cps) >= 10.0
  {
    var y := freq as real / c.cps;
    assert y * c.cps == freq as real;
    if y < 10.0 {
      assert y * c.cps < 10.0 * c.cps;
    }
  }

  /** A slower counter breaks the bound: at 500 kHz and 100,000 actions per second three presses of 2 us with gaps
      of 2 us are clamped, and the program is still as long as the period. */
  lemma ClampFallsShort(layout: Layout)
    ensures var a := InputAction(KeyChord(Mouse, 0, 0, false, {}), 4, 3, 4, 120, ScanCode);
            var freq := 500_000;
            var period := Period(freq, 100_000.0);
            && TooLong(Span(a, freq), period)
            && Span(Scaled(a, HalfPeriodFactor(Span(a, freq), period)), freq) as real == period
  {
    var a := InputAction(KeyChord(Mouse, 0, 0, false, {}), 4, 3, 4, 120, ScanCode);
    var freq := 500_000;
    var period := Period(freq, 100_000.0);
    assert period == 5.0;
    assert UsToTicks(4, freq) == 2;
    assert Span(a, freq) == 10;
    assert HalfPeriodFactor(10, period) == 0.25;
    var b := Scaled(a, 0.25);
    assert b.downTimeUs == 1 && b.repeatGapUs == 1;
    assert UsToTicks(1, freq) == 1;
  }

  // ---------------------------------------------------------------- exactly when it does

  /** The span of the program that timed mode runs, from the action, the counter and the rate alone. */
  function TimedSpan(c: EngineConfig, freq: nat): int
    requires c.cps > 0.0
  {
    if c.action.chord.device == NoDevice then 0
    else
      var s, period := Span(c.action, freq), Period(freq, c.cps);
      PeriodNotNegative(freq, c.cps);
      if TooLong(s, period) then Span(Scaled(c.action, HalfPeriodFactor(s, period)), freq) else s
  }

  lemma TimedSpanIs(c: EngineConfig, layout: Layout, freq: nat)
    requires !c.maxMode && c.cps > 0.0
    ensures TimedProgram(c, layout, freq).span == TimedSpan(c, freq)
  {
    hide Program, Span, TooLong, Scaled, HalfPeriodFactor;
    ProgramSpan(c.action, layout, freq);
    OkIffDevice(c.action, layout, freq);
    PeriodNotNegative(freq, c.cps);
    if Clamps(c, layout, freq) {
      SpanMeansPositive(Span(c.action, freq), Period(freq, c.cps));
      var f := HalfPeriodFactor(Span(c.action, freq), Period(freq, c.cps));
      ProgramSpan(Scaled(c.action, f), layout, freq);
      ScaledIs(c.action, f);
    }
  }

  lemma SpanMeansPositive(span: int, period: real)
    requires TooLong(span, period)
    ensures span > 0
  {
  }

  lemma OkIffDevice(a: InputAction, layout: Layout, freq: nat)
    ensures Program(a, layout, freq).Ok() <==> a.chord.device != NoDevice
  {
    if a.chord.device != NoDevice { ProgramIsItsTimeline(a, layout, freq); }
  }

  /** Every action ends strictly before the slot of the next one. */
  ghost predicate EndsInTime(c: EngineConfig, layout: Layout, freq: nat, t0: int)
    requires c.cps > 0.0
  {
    var period, span := Period(freq, c.cps), TimedProgram(c, layout, freq).span;
    forall k: nat :: Modes.SlotAt(t0, period, k) + span < Modes.SlotAt(t0, period, k + 1)
  }

  /** An action ends before the next one starts, as rebuildProgram intends, exactly if its span after the clamp is
      below the whole ticks of the period. */
  lemma EndsInTimeIff(c: EngineConfig, layout: Layout, freq: nat, t0: int)
    requires !c.maxMode && c.cps > 0.0 && freq > 0
    ensures EndsInTime(c, layout, freq, t0) <==> TimedSpan(c, freq) < Period(freq, c.cps).Floor
  {
    hide TimedProgram, TimedSpan, Period, Modes.SlotAt;
    PeriodNotNegative(freq, c.cps);
    TimedSpanIs(c, layout, freq);
    Modes.FitsIffBelowFloor(t0, Period(freq, c.cps), TimedSpan(c, freq));
  }

  const WIDE_PERIOD := 9.0

  /** A period of 9 ticks is enough for every action. */
  lemma NineTicksSuffice(c: EngineConfig, layout: Layout, freq: nat)
    requires !c.maxMode && c.cps > 0.0 && Period(freq, c.cps) >= WIDE_PERIOD
    ensures TimedProgram(c, layout, freq).span < Period(freq, c.cps).Floor
  {
    hide Clamps, TimedProgram, Period, Span, Scaled, HalfPeriodFactor, Times;
    if Clamps(c, layout, freq) {
      ClampedSpan(c, layout, freq);
      var period, s := Period(freq, c.cps), Span(c.action, freq);
      var f := HalfPeriodFactor(s, period);
      ScaledSpan(c.action, freq, f);
      TimesIs(f, s as real);
      FactorBound(period, s, f);
      BelowWholeTicks(Span(Scaled(c.action, f), freq), period, f);
    } else {
      NotTooLong(c, layout, freq);
      UnclampedBelow(TimedProgram(c, layout, freq).span, Period(freq, c.cps));
    }
  }

  lemma BelowWholeTicks(span: int, period: real, f: real)
    requires period >= WIDE_PERIOD && f * 0.9 <= 0.5 && span as real <= period * 0.5 + 2.5 + 2.5 * f
    ensures span < period.Floor
  {
    if period < 10.0 { assert period.Floor == 9; }
  }

  lemma UnclampedBelow(span: int, period: real)
    requires period >= WIDE_PERIOD && span as real < period * 0.9
    ensures span < period.Floor
  {
    assert period < period.Floor as real + 1.0;
  }

  /** No smaller bound will do: for every period between 80/9 and 9 ticks there is an action, held for 8 ticks, that
      is not clamped and that does not end before the next one starts. */
  lemma NineIsSharp(period: real, layout: Layout, t0: int) returns (c: EngineConfig, freq: nat)
    requires 80.0 / 9.0 < period < WIDE_PERIOD
    ensures InRange(c) && !c.maxMode && Period(freq, c.cps) == period && !EndsInTime(c, layout, freq, t0)
  {
    hide EndsInTime, TimedProgram;
    freq := 1_000_000;
    var a := InputAction(KeyChord(Mouse, 0, 0, false, {}), 8, 1, 0, 120, ScanCode);
    var cps := RateOf(freq as real, period);
    c := EngineConfig(a, Modes.ModeParams(Modes.Hold, 0, 0, 0), false, cps, PreciseWaiter.Standard, Skip, 1, 0);
    assert Span(a, freq) == 8 by {
      assert UsToTicks(8, freq) == 8 && UsToTicks(0, freq) == 0;
    }
    assert period.Floor == 8;
    EndsInTimeIff(c, layout, freq, t0);
  }

  lemma RateOf(freq: real, period: real) returns (cps: real)
    requires freq == 1000000.0 && 80.0 / 9.0 < period < WIDE_PERIOD
    ensures MIN_CPS <= cps <= MAX_CPS && freq / cps == period
  {
    cps := freq / period;
    Modes.QuotientBelowIff(freq, period, 1.0);
    Modes.QuotientAboveIff(freq, period, MAX_CPS);
    assert cps * period == freq;
    Modes.QuotientBelowIff(freq, cps, period);
    Modes.QuotientAboveIff(freq, cps, period);
    assert period * cps == cps * period;
  }

  /** The deadline of step j of action k in an epoch of fixed rate. */
  function Deadline(t0: int, period: real, k: nat, offset: int): int { Modes.SlotAt(t0, period, k) + offset }

  /** The last event of action k is due strictly before the first one of action k + 1; so over an epoch of fixed
      rate the deadlines rise strictly through all actions and all steps, and the UP of each action precedes the
      DOWN of the next. */
  lemma DeadlinesRise(c: EngineConfig, layout: Layout, freq: nat, t0: int, k: nat, i: nat, k': nat, i': nat)
    requires !c.maxMode && c.cps > 0.0 && Period(freq, c.cps) >= WIDE_PERIOD
    requires var steps := TimedProgram(c, layout, freq).steps; i < |steps| && i' < |steps|
    requires k < k' || (k == k' && i < i')
    ensures var steps := TimedProgram(c, layout, freq).steps;
            var period := Period(freq, c.cps);
            Deadline(t0, period, k, steps[i].offset) < Deadline(t0, period, k', steps[i'].offset)
  {
    hide TimedProgram, Period, Modes.SlotAt;
    var p, period := TimedProgram(c, layout, freq), Period(freq, c.cps);
    NineTicksSuffice(c, layout, freq);
    TimedIsCompiled(c, layout, freq);
    OffsetsWithinSpan(p, i);
    OffsetsWithinSpan(p, i');
    if k < k' {
      Modes.GapIsAtLeastFloor(t0, period, k);
      Modes.SlotMonotone(t0, period, k + 1, k');
    }
  }

  ghost predicate RisingOffsets(p: ActionProgram) {
    && StrictlyLater(p.steps)
    && (p.steps != [] ==> p.steps[0].offset == 0 && p.steps[|p.steps| - 1].offset == p.span)
  }

  lemma OffsetsWithinSpan(p: ActionProgram, i: nat)
    requires RisingOffsets(p) && i < |p.steps|
    ensures 0 <= p.steps[i].offset <= p.span
  {
  }

  lemma TimedIsCompiled(c: EngineConfig, layout: Layout, freq: nat)
    requires c.cps > 0.0
    ensures RisingOffsets(TimedProgram(c, layout, freq))
  {
    CompiledRises(c.action, layout, freq);
    if Clamps(c, layout, freq) {
      PeriodNotNegative(freq, c.cps);
      var f := HalfPeriodFactor(Program(c.action, layout, freq).span, Period(freq, c.cps));
      CompiledRises(Scaled(c.action, f), layout, freq);
    }
  }

  lemma CompiledRises(a: InputAction, layout: Layout, freq: nat)
    ensures RisingOffsets(Program(a, layout, freq))
  {
    if a.chord.device != NoDevice { ProgramIsItsTimeline(a, layout, freq); }
  }

  // ---------------------------------------------------------------- a whole action leaves nothing held

  lemma CompiledIsClean(a: InputAction, layout: Layout, freq: nat)
    ensures var p := Program(a, layout, freq); p.flat == FlatInputs(p.steps) && TrackAll(NOTHING, p.flat) == NOTHING
  {
    if a.chord.device == NoDevice {
      assert FlatInputs([]) == [] && TrackAll(NOTHING, []) == NOTHING;
    } else {
      hide TrackAll, FlatInputs, Timeline, Group;
      ProgramLeavesNothingHeld(a, layout, freq, NOTHING);
      assert NOTHING.mouse - ButtonsOf(a) == {} && NOTHING.keys - KeysOf(a) == map[];
    }
  }

  /** Either program of a configuration, sent in full while nothing is held, leaves nothing held. */
  lemma ProgramsAreClean(c: EngineConfig, layout: Layout, freq: nat)
    requires c.cps > 0.0
    ensures TrackAll(NOTHING, FlatInputs(TimedProgram(c, layout, freq).steps)) == NOTHING
    ensures TrackAll(NOTHING, MaxProgram(c, layout, freq).flat) == NOTHING
    ensures RisingOffsets(TimedProgram(c, layout, freq))
  {
    TimedIsCompiled(c, layout, freq);
    hide Program, TrackAll, FlatInputs, Clamps, RisingOffsets;
    CompiledIsClean(c.action, layout, freq);
    CompiledIsClean(c.action.(downTimeUs := 0, repeatGapUs := 0), layout, freq);
    var p := Program(c.action, layout, freq);
    if Clamps(c, layout, freq) {
      ClampMeans(c, layout, freq);
      CompiledIsClean(Scaled(c.action, HalfPeriodFactor(p.span, Period(freq, c.cps))), layout, freq);
    }
  }

  lemma CompiledIsShort(a: InputAction, layout: Layout, freq: nat)
    ensures |FlatInputs(Program(a, layout, freq).steps)| <= 14
  {
    hide Timeline, EndTime;
    if a.chord.device == NoDevice {
      assert FlatInputs([]) == [];
    } else {
      ProgramIsItsTimeline(a, layout, freq);
    }
  }

  lemma ProgramsAreShort(c: EngineConfig, layout: Layout, freq: nat)
    requires c.cps > 0.0
    ensures |FlatInputs(TimedProgram(c, layout, freq).steps)| <= 14
  {
    hide Program, FlatInputs, Clamps;
    CompiledIsShort(c.action, layout, freq);
    if Clamps(c, layout, freq) {
      ClampMeans(c, layout, freq);
      var f := HalfPeriodFactor(Program(c.action, layout, freq).span, Period(freq, c.cps));
      CompiledIsShort(Scaled(c.action, f), layout, freq);
    }
  }

  lemma ClampMeans(c: EngineConfig, layout: Layout, freq: nat)
    requires c.cps > 0.0 && Clamps(c, layout, freq)
    ensures Program(c.action, layout, freq).span > 0 && Period(freq, c.cps) >= 0.0
  {
    PeriodNotNegative(freq, c.cps);
  }
}
