/** The hybrid wait: sleep on a timer until close to the deadline, then spin on the clock. */
module PreciseWaiter {
  import opened World

  datatype Precision = Eco | Standard | Ultra

  datatype WaitResult = Reached | Interrupted | CutOff

  // ---------------------------------------------------------------- the margin

  function Clamp(x: int, lo: int, hi: int): int { if x < lo then lo else if x > hi then hi else x }

  function Min(x: int, y: int): int { if x < y then x else y }

  function Max(x: int, y: int): int { if x < y then y else x }

  /** Microseconds in ticks, rounded down. */
  function Us(us: nat, perUs: real): int { (us as real * perUs).Floor }

  /** How long before the deadline a sleep should end. fixed < 0 means adaptive. */
  function Margin(p: Precision, fixed: int, hint: int, p99: int, longest: int, perUs: real): int {
    if fixed >= 0 then if p == Eco then 0 else fixed
    else match p
      case Eco => 0
      case Standard =>
        var want := Clamp(p99 + Us(100, perUs), Us(100, perUs), Us(2500, perUs));
        if hint > 0 then Min(want, hint / 10) else want
      case Ultra => Clamp(Max(p99 + Us(200, perUs), longest), Us(300, perUs), Us(3000, perUs))
  }

  /** The shortest sleep worth making. */
  function MinSleep(p: Precision, perUs: real): int { Us(if p == Eco then 30 else 120, perUs) }

  lemma UsMonotone(a: nat, b: nat, perUs: real)
    requires a <= b && perUs > 0.0
    ensures 0 <= Us(a, perUs) <= Us(b, perUs)
  {
    assert b as real * perUs - a as real * perUs == (b - a) as real * perUs >= 0.0;
  }

  /** ECO wakes at the deadline; STANDARD wakes at most a tenth of the period or 2.5 ms early, whichever is less;
      ULTRA wakes between 0.3 and 3 ms early, and early enough for the longest oversleep on record if that is
      below 3 ms. */
  lemma MarginBounds(p: Precision, hint: int, p99: int, longest: int, perUs: real)
    requires perUs > 0.0
    ensures var m := Margin(p, -1, hint, p99, longest, perUs);
            && 0 <= m
            && (p == Eco ==> m == 0)
            && (p == Standard ==> m <= Us(2500, perUs) && (hint > 0 ==> m <= hint / 10))
            && (p == Ultra ==> Us(300, perUs) <= m <= Us(3000, perUs)
                               && (longest <= Us(3000, perUs) ==> longest <= m))
  {
    UsMonotone(0, 100, perUs);
    UsMonotone(100, 2500, perUs);
    UsMonotone(0, 300, perUs);
    UsMonotone(300, 3000, perUs);
  }

  /** A spin may begin with this many ticks to go. */
  predicate MaySpinFrom(rem: int, p: Precision, fixed: int, hint: int, p99: int, longest: int, perUs: real) {
    rem > 0 && rem - Margin(p, fixed, hint, p99, longest, perUs) < MinSleep(p, perUs)
  }

  /** The promise that STANDARD never spins for more than a tenth of the period holds exactly when the period is
      long enough for the shortest sleep to fit into that tenth beside the margin. */
  lemma SpinIsATenthIff(p: Precision, hint: int, p99: int, longest: int, perUs: real)
    requires perUs > 0.0 && hint > 0 && p == Standard
    ensures (forall rem :: MaySpinFrom(rem, p, -1, hint, p99, longest, perUs) ==> rem <= hint / 10)
       <==> Margin(p, -1, hint, p99, longest, perUs) + MinSleep(p, perUs) <= hint / 10 + 1
  {
    MarginBounds(p, hint, p99, longest, perUs);
    UsMonotone(0, 120, perUs);
    var most := Margin(p, -1, hint, p99, longest, perUs) + MinSleep(p, perUs) - 1;
    if most > 0 { assert MaySpinFrom(most, p, -1, hint, p99, longest, perUs); }
  }

  /** The promise that ECO does not spin at all holds exactly when the shortest sleep is at most one tick. */
  lemma EcoNeverSpinsIff(fixed: int, hint: int, p99: int, longest: int, perUs: real)
    ensures (forall rem :: !MaySpinFrom(rem, Eco, fixed, hint, p99, longest, perUs)) <==> MinSleep(Eco, perUs) <= 1
  {
    var most := MinSleep(Eco, perUs) - 1;
    assert MaySpinFrom(most, Eco, fixed, hint, p99, longest, perUs) <==> most > 0;
  }

  /** With a 10 MHz counter an ECO wait may spin for the last 29.9 us. */
  lemma EcoMaySpin(fixed: int, hint: int, p99: int, longest: int)
    ensures MaySpinFrom(299, Eco, fixed, hint, p99, longest, 10.0)
  {
    assert Us(30, 10.0) == 300;
  }

  /** It does not hold at 1000 actions per second with a 10 MHz counter: a spin may take 21 % of the period. */
  lemma SpinMayExceedATenth()
    ensures MaySpinFrom(2199, Standard, -1, 10000, 2000, 5000, 10.0) && 2199 > 10000 / 10
  {
    assert Us(100, 10.0) == 1000 && Us(2500, 10.0) == 25000 && Us(120, 10.0) == 1200;
  }

  // ---------------------------------------------------------------- waiting

  class Waiter {
    const world: World
    const perUs: real
    var fixedMargin: int
    var periodHint: int
    var p99: int
    var longest: int
    var spinTicks: int
    var sleepTicks: int
    var timerWaits: nat

    constructor (w: World, ticksPerUs: real)
      ensures world == w && perUs == ticksPerUs && fixedMargin == -1
    {
      world, perUs := w, ticksPerUs;
      fixedMargin, periodHint := -1, 0;
      p99, longest := Us(600, ticksPerUs), Us(1000, ticksPerUs);
      spinTicks, sleepTicks, timerWaits := 0, 0, 0;
    }

    function MarginTicks(p: Precision): int
      reads this
    {
      Margin(p, fixedMargin, periodHint, p99, longest, perUs)
    }

    method SetPeriodHint(ticks: int)
      modifies this`periodHint
      ensures periodHint == ticks
    {
      periodHint := ticks;
    }

    /** A relative sleep that the command event may end early. A timer may fire at any time. */
    method TimerSleep() returns (undisturbed: bool)
      modifies world`clock, world`signals
      ensures world.clock >= old(world.clock)
      ensures world.signals == old(world.signals) + if undisturbed then 0 else 1
    {
      var _ := world.Now();
      var event := world.Signalled();
      undisturbed := !event;
    }

    /** The oversleep model learns from each sleep; what it learns may be anything. */
    method RecordOversleep(ticks: int)
      modifies this`p99, this`longest
    {
      p99, longest := *, *;
    }

    /** Reports Reached only at or after the deadline, and Interrupted only when a signal was seen. The spin began
        no earlier than the margin and the shortest sleep allow. */
    method WaitUntil(deadline: int, p: Precision) returns (r: WaitResult, ghost spinFrom: int)
      modifies this, world`clock, world`fuel, world`signals
      ensures world.clock >= old(world.clock) && world.fuel <= old(world.fuel)
      ensures r == Reached ==> world.clock >= deadline
      ensures r == Interrupted ==> world.signals > old(world.signals)
      ensures r == CutOff ==> world.fuel == 0
      ensures periodHint == old(periodHint) && fixedMargin == old(fixedMargin)
      ensures sleepTicks >= old(sleepTicks) && spinTicks - old(spinTicks) <= Max(0, world.clock - spinFrom)
      ensures spinFrom < deadline ==> MaySpinFrom(deadline - spinFrom, p, fixedMargin, periodHint, p99, longest, perUs)
    {
      spinFrom := deadline;
      var minSleep := MinSleep(p, perUs);
      var go := world.Spend();
      while go
        invariant world.clock >= old(world.clock) && world.fuel <= old(world.fuel)
        invariant world.signals >= old(world.signals)
        invariant !go ==> world.fuel == 0
        invariant spinFrom == deadline && spinTicks == old(spinTicks) && sleepTicks >= old(sleepTicks)
        invariant periodHint == old(periodHint) && fixedMargin == old(fixedMargin)
        decreases go, world.fuel
      {
        var now := world.Now();
        var rem := deadline - now;
        if rem <= 0 { return Reached, spinFrom; }
        var flag := world.Signalled();
        if flag { return Interrupted, spinFrom; }
        var sleepFor := rem - MarginTicks(p);
        if sleepFor >= minSleep {
          var undisturbed := TimerSleep();
          var woke := world.Now();
          sleepTicks := sleepTicks + (woke - now);
          timerWaits := timerWaits + 1;
          if !undisturbed { return Interrupted, spinFrom; }
          RecordOversleep(woke - (now + sleepFor));
          go := world.Spend();
        } else {
          spinFrom := now;
          r := Spin(now, deadline);
          return;
        }
      }
      r := CutOff;
    }

    method Spin(now: int, deadline: int) returns (r: WaitResult)
      requires world.clock == now < deadline
      modifies this`spinTicks, world`clock, world`fuel, world`signals
      ensures world.clock >= old(world.clock) && world.fuel <= old(world.fuel)
      ensures world.signals >= old(world.signals)
      ensures r == Reached ==> world.clock >= deadline
      ensures r == Interrupted ==> world.signals > old(world.signals)
      ensures r == CutOff ==> world.fuel == 0
      ensures spinTicks - old(spinTicks) <= world.clock - now
    {
      var t := now;
      var go := world.Spend();
      while t < deadline && go
        invariant now <= t == world.clock && world.fuel <= old(world.fuel) && spinTicks == old(spinTicks)
        invariant world.signals >= old(world.signals)
        invariant !go ==> world.fuel == 0
        decreases go, world.fuel
      {
        var flag := world.Signalled();
        if flag {
          spinTicks := spinTicks + (t - now);
          return Interrupted;
        }
        t := world.Now();
        go := world.Spend();
      }
      spinTicks := spinTicks + (t - now);
      r := if t >= deadline then Reached else CutOff;
    }
  }
}
