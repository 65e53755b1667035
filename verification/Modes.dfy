/** The pure pieces of the scheduler: what a trigger edge means in each mode, and the
    absolute timeline slot(k) = t0 + round(k * period) on which every action is placed. */
module Modes {

  // ---------------------------------------------------------------- trigger modes

  datatype TriggerMode = Hold | Toggle | Burst | Count | Duration

  datatype ModeParams = ModeParams(mode: TriggerMode, burstCount: nat, fixedCount: nat, durationMs: nat)

  // maxActions == 0 and durationMs == 0 both mean "no limit"
  datatype RunLimits = RunLimits(maxActions: nat, durationMs: nat)

  const UNLIMITED_RUN := RunLimits(0, 0)

  datatype Decision = Ignore | Start(limits: RunLimits) | Stop | Extend(amount: nat)

  function DecideOnTriggerDown(p: ModeParams, running: bool): Decision {
    match p.mode
    case Hold => if running then Ignore else Start(UNLIMITED_RUN)
    case Toggle => if running then Stop else Start(UNLIMITED_RUN)
    case Burst =>
      if running then Extend(p.burstCount)
      else Start(RunLimits(if p.burstCount != 0 then p.burstCount else 1, 0))
    case Count =>
      if running then Stop else Start(RunLimits(if p.fixedCount != 0 then p.fixedCount else 1, 0))
    case Duration =>
      if running then Stop else Start(RunLimits(0, if p.durationMs != 0 then p.durationMs else 1))
  }

  function DecideOnTriggerUp(p: ModeParams, running: bool): Decision {
    if p.mode == Hold && running then Stop else Ignore
  }

  // ---------------------------------------------------------------- timeline

  /** slot(idx) on the grid anchored at t0. */
  function SlotAt(t0: int, period: real, idx: nat): int {
    t0 + (idx as real * period + 0.5).Floor
  }

  /** The last grid index not after now, but never below k: the guard loop of skipLate. */
  function StepBack(t0: int, period: real, k: nat, now: int, idx: nat): nat
    decreases idx
  {
    if idx > k && SlotAt(t0, period, idx) > now then StepBack(t0, period, k, now, idx - 1) else idx
  }

  predicate SkipActs(t0: int, period: real, k: nat, now: int) {
    period > 0.0 && now >= SlotAt(t0, period, k + 1)
  }

  /** Where skipLate moves the next index. */
  function SkipTarget(t0: int, period: real, k: nat, now: int): nat {
    if SkipActs(t0, period, k, now) then
      SlotNotBefore(t0, period, k + 1);
      QuotientNotNegative((now - t0) as real, period);
      StepBack(t0, period, k, now, ((now - t0) as real / period).Floor)
    else
      k
  }

  class Timeline {
    var t0: int
    var period: real
    var k: nat

    constructor ()
      ensures t0 == 0 && period == 0.0 && k == 0
    {
      t0, period, k := 0, 0.0, 0;
    }

    method Anchor(start: int, periodTicks: real)
      modifies this
      ensures t0 == start && period == periodTicks && k == 0
    {
      t0, period, k := start, periodTicks, 0;
    }

    function Slot(idx: nat): int
      reads this
    {
      SlotAt(t0, period, idx)
    }

    function Next(): int
      reads this
    {
      Slot(k)
    }

    method SkipLate(now: int) returns (skipped: nat)
      modifies this`k
      ensures k == SkipTarget(t0, period, old(k), now)
      ensures skipped == if k > old(k) then k - old(k) else 0
    {
      if period <= 0.0 || now < Slot(k + 1) { return 0; }
      SlotNotBefore(t0, period, k + 1);
      QuotientNotNegative((now - t0) as real, period);
      var idx: nat := ((now - t0) as real / period).Floor;
      while idx > k && Slot(idx) > now
        invariant StepBack(t0, period, k, now, idx) == SkipTarget(t0, period, k, now)
      {
        idx := idx - 1;
      }
      skipped := if idx > k then idx - k else 0;
      k := idx;
    }

    method ChangePeriod(periodTicks: real)
      modifies this
      ensures t0 == old(Next()) && k == 0 && period == periodTicks
      ensures Next() == old(Next())
    {
      var nextSlot := Slot(k);
      t0, k, period := nextSlot, 0, periodTicks;
    }
  }

  // ---------------------------------------------------------------- properties of the grid

  lemma MulLe(a: real, b: real, p: real)
    requires a <= b && p >= 0.0
    ensures a * p <= b * p
  {
    assert (b - a) * p >= 0.0;
  }

  lemma QuotientNotNegative(a: real, p: real)
    requires a >= 0.0 && p > 0.0
    ensures a / p >= 0.0
  {
  }

  lemma SlotNotBefore(t0: int, period: real, idx: nat)
    requires period >= 0.0
    ensures SlotAt(t0, period, idx) >= t0
  {
    MulLe(0.0, idx as real, period);
  }

  /** Every slot is within half a tick of its exact place, for all indices: no drift accumulates. */
  lemma SlotWithinHalfTick(t0: int, period: real, idx: nat)
    ensures var exact := t0 as real + idx as real * period;
            exact - 0.5 < SlotAt(t0, period, idx) as real <= exact + 0.5
  {
    var x := idx as real * period + 0.5;
    assert x - 1.0 < x.Floor as real <= x;
    assert (t0 + x.Floor) as real == t0 as real + x.Floor as real;
  }

  lemma {:induction false} SlotMonotone(t0: int, period: real, i: nat, j: nat)
    requires period >= 0.0 && i <= j
    ensures SlotAt(t0, period, i) <= SlotAt(t0, period, j)
  {
    MulLe(i as real, j as real, period);
  }

  lemma SlotGap(t0: int, period: real, k: nat)
    ensures SlotAt(t0, period, k + 1) as real - SlotAt(t0, period, k) as real > period - 1.0
    ensures SlotAt(t0, period, k + 1) as real - SlotAt(t0, period, k) as real < period + 1.0
  {
    SlotWithinHalfTick(t0, period, k);
    SlotWithinHalfTick(t0, period, k + 1);
    assert (k + 1) as real * period == k as real * period + period;
  }

  lemma QuotientBelowIff(a: real, p: real, b: real)
    requires p > 0.0
    ensures a / p < b <==> a < b * p
  {
    var y := a / p;
    assert y * p == a;
    if y < b {
      assert (b - y) * p > 0.0;
    } else {
      MulLe(b, y, p);
    }
  }

  lemma {:induction false} StepBackStops(t0: int, period: real, k: nat, now: int, idx: nat)
    requires idx >= k && SlotAt(t0, period, k) <= now
    ensures var r := StepBack(t0, period, k, now, idx);
            k <= r <= idx && SlotAt(t0, period, r) <= now
            && (r < idx ==> SlotAt(t0, period, r + 1) > now)
    decreases idx
  {
    if idx > k && SlotAt(t0, period, idx) > now {
      StepBackStops(t0, period, k, now, idx - 1);
    }
  }

  lemma FloorBelowIff(a: real, p: real, k: nat)
    requires p > 0.0
    ensures (a / p).Floor < k <==> a < k as real * p
  {
    QuotientBelowIff(a, p, k as real);
  }

  /** When skipLate acts, it goes backwards exactly when now lies before the unrounded place of slot k. */
  lemma SkipGoesBackIff(t0: int, period: real, k: nat, now: int)
    requires SkipActs(t0, period, k, now)
    ensures SkipTarget(t0, period, k, now) < k <==> (now - t0) as real < k as real * period
  {
    SlotNotBefore(t0, period, k + 1);
    var a := (now - t0) as real;
    QuotientNotNegative(a, period);
    var q := (a / period).Floor;
    FloorBelowIff(a, period, k);
    if q >= k {
      SlotMonotone(t0, period, k, k + 1);
      StepBackStops(t0, period, k, now, q);
    }
  }

  /** For a period of at least half a tick skipLate never goes back, and lands on the latest due slot. */
  lemma SkipKeepsGrid(t0: int, period: real, k: nat, now: int)
    requires period >= 0.5
    ensures SkipTarget(t0, period, k, now) >= k
    ensures SkipActs(t0, period, k, now) ==>
              var r := SkipTarget(t0, period, k, now);
              SlotAt(t0, period, r) <= now <= SlotAt(t0, period, r + 1)
  {
    if SkipActs(t0, period, k, now) {
      SlotNotBefore(t0, period, k + 1);
      SlotMonotone(t0, period, k, k + 1);
      var a := (now - t0) as real;
      SlotWithinHalfTick(t0, period, k + 1);
      assert (k + 1) as real * period == k as real * period + period;
      assert a >= k as real * period;
      SkipGoesBackIff(t0, period, k, now);
      QuotientNotNegative(a, period);
      var q := (a / period).Floor;
      FloorBelowIff(a, period, k);
      FloorBelowIff(a, period, q + 1);
      StepBackStops(t0, period, k, now, q);
      SlotWithinHalfTick(t0, period, q + 1);
    }
  }

  /** Below half a tick the claim fails: period 0.3, next index 7, now 2 ticks after the anchor. */
  lemma SkipCanGoBack()
    ensures SkipActs(0, 0.3, 7, 2) && SkipTarget(0, 0.3, 7, 2) == 6
  {
    assert 8 as real * 0.3 + 0.5 == 2.9;
    assert SlotAt(0, 0.3, 8) == 2;
    assert (2.0 / 0.3).Floor == 6;
  }

  /** The bound on the right is not strict: slot rounds and skipLate floors. With period 2.3 at tick 2
      skipLate acts, moves nowhere, and slot 1 is due already. */
  lemma SkipMayLeaveOneDue()
    ensures SkipActs(0, 2.3, 0, 2) && SkipTarget(0, 2.3, 0, 2) == 0 && SlotAt(0, 2.3, 1) == 2
  {
    assert 1 as real * 2.3 + 0.5 == 2.8;
    assert SlotAt(0, 2.3, 1) == 2;
    assert (2.0 / 2.3).Floor == 0;
  }

  /** When skipLate acts, the slot it lands on is the latest one due, as its comment says, exactly if the exact place
      of the slot after it is at least half a tick after now. */
  lemma SkipLandsOnLatestIff(t0: int, period: real, k: nat, now: int)
    requires period >= 0.5 && SkipActs(t0, period, k, now)
    ensures var a := (now - t0) as real;
            SlotAt(t0, period, SkipTarget(t0, period, k, now) + 1) > now
            <==> ((a / period).Floor + 1) as real * period >= a + 0.5
  {
    hide SkipTarget, SkipActs, SlotAt;
    var q := SkipIsQuotient(t0, period, k, now);
    SlotDueIff(t0, period, q + 1, now);
  }

  /** For a period of at least half a tick the guard loop of skipLate has nothing to do. */
  lemma SkipIsQuotient(t0: int, period: real, k: nat, now: int) returns (q: nat)
    requires period >= 0.5 && SkipActs(t0, period, k, now)
    ensures q == ((now - t0) as real / period).Floor == SkipTarget(t0, period, k, now)
  {
    hide SlotAt;
    SlotNotBefore(t0, period, k + 1);
    var a := (now - t0) as real;
    QuotientNotNegative(a, period);
    q := (a / period).Floor;
    FloorBelowIff(a, period, q);
    SlotDueIff(t0, period, q, now);
  }

  /** A slot is due exactly if its exact place is less than half a tick after now. */
  lemma SlotDueIff(t0: int, period: real, idx: nat, now: int)
    ensures SlotAt(t0, period, idx) <= now <==> idx as real * period < (now - t0) as real + 0.5
  {
    var x := idx as real * period + 0.5;
    assert x.Floor <= now - t0 <==> x < (now - t0) as real + 1.0;
  }

  // ---------------------------------------------------------------- the shortest distance of two slots

  lemma FloorOfSum(x: real, p: real)
    ensures (x + p).Floor >= x.Floor + p.Floor
  {
    assert (x.Floor + p.Floor) as real <= x + p;
  }

  lemma GapIsAtLeastFloor(t0: int, period: real, k: nat)
    ensures SlotAt(t0, period, k + 1) - SlotAt(t0, period, k) >= period.Floor
  {
    assert (k + 1) as real * period == k as real * period + period;
    FloorOfSum(k as real * period + 0.5, period);
  }

  /** The rounded place of slot k, given a bound on its remainder. */
  lemma SlotByRemainder(t0: int, period: real, k: nat, whole: int, rest: real)
    requires k as real * period + 0.5 == whole as real + rest && 0.0 <= rest < 1.0
    ensures SlotAt(t0, period, k) == t0 + whole
  {
  }

  /** Some two neighbouring slots are exactly floor(period) apart: the remainders fall by 1 - fraction from slot to
      slot until one fraction fits in without a carry. */
  lemma SomeGapIsFloor(t0: int, period: real) returns (k: nat)
    requires period > 0.0
    ensures SlotAt(t0, period, k + 1) - SlotAt(t0, period, k) == period.Floor
  {
    var n := period.Floor;
    var d := 1.0 - (period - n as real);
    k := (0.5 / d).Floor;
    QuotientNotNegative(0.5, d);
    FloorBelowIff(0.5, d, k);
    FloorBelowIff(0.5, d, k + 1);
    var rest := 0.5 - k as real * d;
    assert (k + 1) as real * d == k as real * d + d;
    assert 0.0 <= rest < d;
    assert period == (n + 1) as real - d;
    RemainderOfSlot(k, n, d, period);
    SlotByRemainder(t0, period, k, k * (n + 1), rest);
    assert (k + 1) as real * period == k as real * period + period;
    SlotByRemainder(t0, period, k + 1, k * (n + 1) + n, rest + (1.0 - d));
  }

  lemma RemainderOfSlot(k: nat, n: int, d: real, period: real)
    requires period == (n + 1) as real - d
    ensures k as real * period + 0.5 == (k * (n + 1)) as real + (0.5 - k as real * d)
  {
    assert k as real * period == k as real * (n + 1) as real - k as real * d;
    assert k as real * (n + 1) as real == (k * (n + 1)) as real;
  }

  /** Something that lasts span ticks from each slot is over before the next slot, for every slot, exactly if span is
      below floor(period). */
  lemma FitsIffBelowFloor(t0: int, period: real, span: int)
    requires period > 0.0
    ensures (forall k: nat :: SlotAt(t0, period, k) + span < SlotAt(t0, period, k + 1)) <==> span < period.Floor
  {
    hide SlotAt;
    forall k: nat | span < period.Floor ensures SlotAt(t0, period, k) + span < SlotAt(t0, period, k + 1) {
      GapIsAtLeastFloor(t0, period, k);
    }
    var k := SomeGapIsFloor(t0, period);
    assert SlotAt(t0, period, k) + span < SlotAt(t0, period, k + 1) <==> span < period.Floor;
  }

  // ---------------------------------------------------------------- actions in a bounded run

  /** Number of slots strictly before the end of a run that lasts d ticks from its anchor. */
  function SlotsBefore(d: int, period: real): int
    requires period > 0.0
  {
    -((-((d as real - 0.5) / period)).Floor)
  }

  /** Slot k of a run anchored at t0 lies before t0 + d exactly when k < ceil((d - 1/2) / period). */
  lemma SlotBeforeEndIff(t0: int, period: real, d: int, k: nat)
    requires period > 0.0
    ensures SlotAt(t0, period, k) < t0 + d <==> k < SlotsBefore(d, period)
  {
    var a := d as real - 0.5;
    var x := k as real * period + 0.5;
    assert x.Floor < d <==> x < d as real;
    QuotientAboveIff(a, period, k as real);
    var y := a / period;
    assert k < -((-y).Floor) <==> k as real < y;
  }

  lemma MoreTimeMoreSlots(d: int, e: int, period: real)
    requires period > 0.0 && d <= e
    ensures SlotsBefore(d, period) <= SlotsBefore(e, period) || SlotsBefore(d, period) <= 0
  {
    hide SlotsBefore, SlotAt;
    if SlotsBefore(d, period) > 0 {
      SlotBeforeEndIff(0, period, d, SlotsBefore(d, period) - 1);
      SlotBeforeEndIff(0, period, e, SlotsBefore(d, period) - 1);
    }
  }

  lemma QuotientAboveIff(a: real, p: real, b: real)
    requires p > 0.0
    ensures b < a / p <==> b * p < a
  {
    var y := a / p;
    assert y * p == a;
    if b < y {
      assert (y - b) * p > 0.0;
    } else {
      MulLe(y, b, p);
    }
  }
}
