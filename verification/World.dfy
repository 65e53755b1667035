/** What the scheduler thread and its sender see of the outside: a clock, signals of other threads, and how much of a
    run is looked at. */
module World {

  /** What the thread reads of what other threads have stored. told: how many commands had been posted in full by then,
      queued: how many had been put into the queue. inflight: how many events were sent and not yet seen by the hook. */
  datatype Reading =
    | FlagRead(set_: bool, told: nat, queued: nat)
    | GateRead(open: bool, at: int)
    | BacklogRead(inflight: int)

  /** The world outside the scheduler thread: a clock that never goes back, and a flag and an event that other
      threads may set at any moment. fuel bounds how much of a run is looked at: the run is cut off there, at any
      point one likes, since fuel may be any number. */
  class World {
    var clock: int
    var fuel: nat
    /** How often the command flag or the command event has been seen set. */
    ghost var signals: nat
    /** How many passes through the loops of runs have begun. */
    ghost var passes: nat
    /** Every look of the thread at the command flag, the gate and the backlog. */
    ghost var readings: seq<Reading>

    constructor (start: int, observed: nat)
      ensures clock == start && fuel == observed && signals == passes == 0 && readings == []
    {
      clock, fuel, signals, passes, readings := start, observed, 0, 0, [];
    }

    method Now() returns (t: int)
      modifies this`clock
      ensures t == clock >= old(clock)
    {
      var passed: int := *;
      if passed > 0 { clock := clock + passed; }
      t := clock;
    }

    method Spend() returns (live: bool)
      modifies this`fuel
      ensures live ==> fuel == old(fuel) - 1
      ensures !live ==> fuel == old(fuel) == 0
    {
      live := fuel > 0;
      if live { fuel := fuel - 1; }
    }

    /** Another pass through the loop of a run begins, or the view is cut off before it. */
    method NextPass() returns (live: bool)
      modifies this`fuel, this`passes
      ensures live ==> fuel == old(fuel) - 1 && passes == old(passes) + 1
      ensures !live ==> fuel == old(fuel) == 0 && passes == old(passes)
    {
      live := Spend();
      if live { passes := passes + 1; }
    }

    ghost method Note(r: Reading)
      modifies this`readings
      ensures readings == old(readings) + [r]
    {
      readings := readings + [r];
    }

    /** The gate may be open or closed at any time. */
    method ReadGate() returns (open: bool)
      modifies this`readings
      ensures readings == old(readings) + [GateRead(open, clock)]
    {
      open := *;
      Note(GateRead(open, clock));
    }

    /** There may be any number of events on their way. */
    method ReadBacklog() returns (inflight: int)
      modifies this`readings
      ensures readings == old(readings) + [BacklogRead(inflight)]
    {
      inflight := *;
      Note(BacklogRead(inflight));
    }

    method Signalled() returns (set_: bool)
      modifies this`signals
      ensures signals == old(signals) + if set_ then 1 else 0
    {
      set_ := *;
      if set_ { signals := signals + 1; }
    }
  }

  /** The event that wakes the idle thread. */
  class WakeUp {
    const world: World
    /** How many idle waits have ended. */
    ghost var waits: nat

    constructor (w: World)
      ensures world == w && waits == 0
    {
      world, waits := w, 0;
    }

    /** Blocks until a command is there, or for as long as one looks. */
    method Wait() returns (live: bool)
      modifies this`waits, world`fuel, world`clock
      ensures world.clock >= old(world.clock)
      ensures live ==> waits == old(waits) + 1 && world.fuel == old(world.fuel) - 1
      ensures !live ==> waits == old(waits) && world.fuel == old(world.fuel) == 0
    {
      live := world.Spend();
      if live {
        waits := waits + 1;
        var _ := world.Now();
      }
    }
  }
}
