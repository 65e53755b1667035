/** The scheduler thread: commands, the idle loop, and runs on the timeline or at full speed. Everything it does is
    recorded in a history, and every method keeps the rules of EngineHistory. */
module Scheduler {
  import opened Wrappers
  import opened Input
  import opened Actions
  import opened EngineProgram
  import opened EngineHistory
  import InputSender
  import Modes
  import PreciseWaiter
  import World

  predicate IsHold(c: EngineConfig) { c.mode.mode == Modes.Hold }

  predicate AllGood(cmds: seq<Command>) {
    forall i :: 0 <= i < |cmds| && cmds[i].SetConfig? ==> InRange(cmds[i].cfg)
  }

  /** Extending a limited run adds to what remains exactly when the sum stays below the value that stands for
      "unlimited"; that value itself would end the limit, and more would wrap around. */
  lemma ExtensionIsExactIff(remaining: nat, more: nat)
    requires remaining < UNLIMITED && more < WORD
    ensures var sum := (remaining + more) % WORD;
            sum == remaining + more && sum != UNLIMITED <==> remaining + more < UNLIMITED
  {
    if remaining + more >= WORD { assert (remaining + more) % WORD == remaining + more - WORD; }
  }

  /** One more action for a limited run with 2^64 - 2 to go, and it is unlimited. */
  lemma ExtensionUnlimits()
    ensures var remaining := UNLIMITED - 1; remaining < UNLIMITED && (remaining + 1) % WORD == UNLIMITED
  {
    ExtensionIsExactIff(UNLIMITED - 1, 1);
  }

  /** What the pass through an action boundary, or a wait, leads to. */
  datatype Next = Proceed | Again | Over | IntoMax | Cut

  class Engine {
    const freq: nat
    const layout: Layout
    const waiter: PreciseWaiter.Waiter
    const sender: InputSender.Sender
    const wakeUp: World.WakeUp

    var queue: seq<Command>
    /** The command flag: set after a command was put into the queue. */
    var flag: bool
    var armed: bool
    var state: EngineState
    var cfg: EngineConfig
    var pendingCfg: Option<EngineConfig>
    var prog: ActionProgram
    var maxProg: ActionProgram
    var stop: bool
    var emergency: bool
    var remaining: nat
    var endQpc: int
    var actions: nat
    var missed: nat
    var nextPublish: int
    /** Every command that was ever put into the queue. */
    ghost var posted: seq<Command>
    /** How many of them had been put there when the flag was last set: no more can have been posted in full. */
    ghost var told: nat
    /** The commands drained and not handled yet. */
    ghost var inHand: seq<Command>
    ghost var history: seq<Observation>
    ghost var watch: Watch
    /** When each observation of the history was made. */
    ghost var times: seq<int>

    // -------------------------------------------------------------- what always holds

    /** The history keeps the rules, and times the clock. */
    ghost predicate Written()
      reads this`history, this`watch, this`times, waiter.world`clock
    {
      && Accepted(history) && watch == Fold(history) && Timely(history, times)
      && (times != [] ==> times[|times| - 1] <= waiter.world.clock)
    }

    /** And every idle wait, every pass through the loop of a run, and every look at what other threads have stored is
        in it. */
    ghost predicate Book()
      reads this`history, this`watch, this`times, waiter.world`clock, waiter.world`passes, waiter.world`readings
      reads wakeUp`waits
    {
      && Written() && watch.marks == Marks(wakeUp.waits, waiter.world.passes)
      && watch.readings == waiter.world.readings
      && sender.world == wakeUp.world == waiter.world
    }

    ghost predicate HandsAgree(w: Hands)
      reads this`state, sender, sender.heldKeys, sender.keyMeta
      reads sender.shared, sender.shared.keyBits, sender.shared.keyScan
    {
      && sender.Valid() && sender.Now() == w.held && state == w.state
      && sender.delivered == w.delivered && sender.stamps == w.stamps
    }

    /** No command is lost on the way from the queue into the history, and while the flag is not set there is none in
        the queue that was posted in full. */
    ghost predicate Kept(seen: seq<Command>)
      reads this`queue, this`posted, this`flag, this`told, this`inHand
    {
      posted == seen + inHand + queue && told <= |posted| && (!flag ==> told <= |seen| + |inHand|)
    }

    /** What other threads may touch. */
    ghost predicate Shared(seen: seq<Command>, blocked: bool, on: bool)
      reads this`queue, this`posted, this`flag, this`told, this`inHand, this`armed
    {
      AllGood(queue) && Kept(seen) && armed == on && (blocked ==> !on)
    }

    /** The programs in use are those of the configuration. */
    ghost predicate Programs(steps: seq<Step>, flat: seq<Input>, ok: bool, maxOk: bool, c: EngineConfig)
      reads this`cfg, this`prog, this`maxProg
    {
      && InRange(cfg)
      && prog == TimedProgram(cfg, layout, freq) && maxProg == MaxProgram(cfg, layout, freq)
      && steps == prog.steps && flat == maxProg.flat
      && ok == prog.Ok() && maxOk == maxProg.Ok() && c == cfg
    }

    ghost predicate Configs(params: Modes.ModeParams, holdOnly: bool)
      reads this`cfg, this`pendingCfg
    {
      && params == cfg.mode && (pendingCfg.Some? ==> InRange(pendingCfg.value))
      && (holdOnly ==> IsHold(cfg) && (pendingCfg.Some? ==> IsHold(pendingCfg.value)))
    }

    ghost predicate SetUp(w: Watch)
      reads this`cfg, this`pendingCfg, this`prog, this`maxProg, this`queue, this`posted, this`flag, this`told
      reads this`inHand, this`armed
    {
      && Programs(w.work.prog, w.work.flat, w.work.ok, w.work.maxOk, w.work.cfg) && w.freq == freq >= 500_000
      && Configs(w.controls.params, w.controls.holdOnly) && Shared(w.seen, w.controls.blocked, w.controls.armed)
    }

    /** All but the place of a configuration that is on its way. */
    ghost predicate Most()
      reads this`history, this`watch, this`state, this`cfg, this`pendingCfg, this`prog, this`maxProg
      reads this`times, waiter.world`clock, waiter.world`passes, waiter.world`readings, wakeUp`waits
      reads this`queue, this`posted, this`flag, this`told, this`inHand, this`armed
      reads sender, sender.heldKeys, sender.keyMeta
      reads sender.shared, sender.shared.keyBits, sender.shared.keyScan
    {
      Book() && HandsAgree(watch.hands) && SetUp(watch)
    }

    ghost predicate Base()
      reads this`history, this`watch, this`state, this`cfg, this`pendingCfg, this`prog, this`maxProg
      reads this`times, waiter.world`clock, waiter.world`passes, waiter.world`readings, wakeUp`waits
      reads this`queue, this`posted, this`flag, this`told, this`inHand, this`armed
      reads sender, sender.heldKeys, sender.keyMeta
      reads sender.shared, sender.shared.keyBits, sender.shared.keyScan
    {
      Most() && watch.pending == pendingCfg
    }

    /** Between runs. */
    ghost predicate Idle()
      reads this`history, this`watch, this`state, this`cfg, this`pendingCfg, this`prog, this`maxProg
      reads this`times, waiter.world`clock, waiter.world`passes, waiter.world`readings, wakeUp`waits
      reads this`queue, this`posted, this`flag, this`told, this`inHand, this`armed
      reads sender, sender.heldKeys, sender.keyMeta
      reads sender.shared, sender.shared.keyBits, sender.shared.keyScan
    {
      && Base() && (state == Disarmed || state == Armed) && pendingCfg == None
      && !watch.work.live && watch.work.step == 0
      && (watch.hands.fits ==> watch.hands.held == NOTHING)
      && (watch.controls.blocked ==> state == Disarmed) && NoneDue(watch)
    }

    /** All commands that are due have been taken from the queue. */
    ghost predicate NoneDue(w: Watch)
      reads this`inHand
    {
      w.poll.due <= |w.seen| + |inHand|
    }

    ghost predicate RunControls(w: Watch)
      reads this`stop, this`remaining, this`queue, this`endQpc, this`inHand
    {
      RunBasics(w) && NoneDue(w)
    }

    /** What stops a run, and how much of it is left. */
    ghost predicate RunBasics(w: Watch)
      reads this`stop, this`remaining, this`queue, this`endQpc
    {
      && w.poll.heard
      && w.work.live && w.asked == None && w.grid.end == endQpc && Small(w.hands)
      && stop == w.work.stopped && remaining == w.work.left
      && (w.controls.blocked ==> stop)
      && (w.controls.quitting ==> stop && Quit in queue)
      && (w.controls.holdOnly && !w.controls.edgeDown ==> stop)
      && (w.work.granted < UNLIMITED ==> remaining + w.work.completed == w.work.granted)
    }

    /** During a run that is to go on, if the gate lets it. */
    ghost predicate Runs()
      reads this`history, this`watch, this`state, this`cfg, this`pendingCfg, this`prog, this`maxProg
      reads this`times, waiter.world`clock, waiter.world`passes, waiter.world`readings, wakeUp`waits
      reads this`queue, this`posted, this`flag, this`told, this`inHand, this`armed
      reads sender, sender.heldKeys, sender.keyMeta
      reads this`stop, this`remaining, this`endQpc
      reads sender.shared, sender.shared.keyBits, sender.shared.keyScan
    {
      Base() && RunControls(watch) && state == Running && !stop && inHand == []
    }

    ghost predicate InRun()
      reads this`history, this`watch, this`state, this`cfg, this`pendingCfg, this`prog, this`maxProg
      reads this`times, waiter.world`clock, waiter.world`passes, waiter.world`readings, wakeUp`waits
      reads this`queue, this`posted, this`flag, this`told, this`inHand, this`armed
      reads sender, sender.heldKeys, sender.keyMeta
      reads this`stop, this`remaining, this`endQpc
      reads sender.shared, sender.shared.keyBits, sender.shared.keyScan
    {
      Runs() && watch.permit.open
    }

    /** A run has ended; its clean-up is to follow. */
    ghost predicate RunOver()
      reads this`history, this`watch, this`state, this`cfg, this`pendingCfg, this`prog, this`maxProg
      reads this`times, waiter.world`clock, waiter.world`passes, waiter.world`readings, wakeUp`waits
      reads this`queue, this`posted, this`flag, this`told, this`inHand, this`armed
      reads sender, sender.heldKeys, sender.keyMeta
      reads sender.shared, sender.shared.keyBits, sender.shared.keyScan
    {
      && Base() && (state == Running || state == Paused) && !watch.work.live && watch.work.step == 0
      && watch.asked == None && watch.poll.heard && NoneDue(watch)
      && Small(watch.hands) && inHand == []
      && (watch.controls.quitting ==> Quit in queue)
    }

    /** With everything accepted, exactly the steps sent so far are in effect. */
    ghost predicate Clean(w: Hands, step: nat)
      reads this`prog
    {
      step <= |prog.steps| && (w.full && w.fits ==> w.held == TrackAll(NOTHING, FlatInputs(prog.steps[..step])))
    }

    /** The timeline is the one observed, at the configured rate, and all its slots are accounted for. */
    ghost predicate OnGrid(tl: Modes.Timeline, g: Grid, step: nat)
      reads this`cfg, this`prog, this`actions, this`missed, tl
    {
      && tl.t0 == g.t0 && tl.period == g.period && tl.k == g.k
      && g.anchors > 0 && g.mid == (step > 0) && (g.mid ==> g.begun > 0)
      && cfg.cps > 0.0 && g.rate == cfg.cps && tl.period == Period(freq, cfg.cps)
      && g.epochs + tl.k + Mid(g) == actions + missed
      && !cfg.maxMode && Rising(tl, g, step)
    }

    /** At a period of at least 9 ticks whatever was sent in this epoch was due before the next step is. */
    ghost predicate Rising(tl: Modes.Timeline, g: Grid, step: nat)
      reads this`prog, tl
    {
      tl.period >= WIDE_PERIOD ==>
        if step == 0 then g.lastDue < tl.Next()
        else step <= |prog.steps| && g.lastDue == tl.Next() + prog.steps[step - 1].offset
    }

    /** Between two actions of a timed run. */
    ghost predicate AtSlot(tl: Modes.Timeline)
      reads this`history, this`watch, this`state, this`cfg, this`pendingCfg, this`prog, this`maxProg
      reads this`times, waiter.world`clock, waiter.world`passes, waiter.world`readings, wakeUp`waits
      reads this`queue, this`posted, this`flag, this`told, this`inHand, this`armed, this`stop, this`remaining
      reads this`endQpc, this`actions, this`missed, tl, sender, sender.heldKeys, sender.keyMeta, sender.shared
      reads sender.shared.keyBits, sender.shared.keyScan
    {
      InRun() && OnGrid(tl, watch.grid, 0) && Clean(watch.hands, 0) && watch.work.step == 0 && watch.poll.done
    }

    /** The waiter knows the period, of which it spins for a part. */
    ghost predicate Hinted()
      reads this`cfg, waiter`periodHint
    {
      cfg.cps > 0.0 && waiter.periodHint == Period(freq, cfg.cps).Floor
    }

    /** In the middle of an action. */
    ghost predicate MidAction(tl: Modes.Timeline, w: Work)
      reads this`prog, this`endQpc, tl
    {
      w.step > 0 ==>
        && w.step < |prog.steps| && tl.Next() < endQpc
        && (w.granted < UNLIMITED ==> w.completed < w.granted)
    }

    constructor (counterFreq: nat, keyboard: Layout, pw: PreciseWaiter.Waiter, s: InputSender.Sender,
                 event: World.WakeUp, start: EngineConfig)
      requires s.Valid() && s.Now() == NOTHING && s.delivered == [] && s.stamps == [] && counterFreq >= 500_000
      requires InRange(start) && start.mode.mode == Modes.Toggle
      requires s.world == event.world == pw.world && event.waits == pw.world.passes == 0 && pw.world.readings == []
      ensures sender == s && waiter == pw && wakeUp == event && freq == counterFreq
      ensures Fresh() && cfg == start && history == []
    {
      freq, layout, waiter, sender, wakeUp := counterFreq, keyboard, pw, s, event;
      queue, armed, state, cfg, pendingCfg := [], false, Disarmed, start, None;
      prog, maxProg := NO_PROGRAM, NO_PROGRAM;
      stop, emergency, remaining, endQpc, actions, missed, nextPublish := false, false, 0, NO_END, 0, 0, 0;
      flag, told := false, 0;
      history, watch, times, posted, inHand := [], START, [], [], [];
      new;
      NoHistory(history);
    }

    // -------------------------------------------------------------- keeping the record

    ghost method Write(e: Observation)
      requires Written() && Rule(watch, e) && TimeRule(e, waiter.world.clock)
      modifies this`history, this`watch, this`times
      ensures Written() && history == old(history) + [e] && watch == Observe(old(watch), e)
      ensures times == old(times) + [waiter.world.clock]
    {
      hide Rule, Observe, Accepted, Fold, Timely, TimeRule;
      Recorded(history, e);
      RecordedAt(history, times, e, waiter.world.clock);
      history, times := history + [e], times + [waiter.world.clock];
      watch := Fold(history);
    }

    ghost method Record(e: Observation)
      requires Book() && Rule(watch, e) && TimeRule(e, waiter.world.clock) && e != Waiting && !e.Pass? && !e.Read?
      modifies this`history, this`watch, this`times
      ensures Book() && history == old(history) + [e] && watch == Observe(old(watch), e)
    {
      hide Written, Rule, TimeRule, ObserveHands, ObserveControls, ObserveWork, ObserveGrid, ObserveSeen, ObserveLook;
      hide ObservePolling, ObservePermit;
      Write(e);
    }

    /** Time passes. */
    twostate lemma Later()
      requires old(Book()) && unchanged(this`history, this`watch, this`times)
      requires waiter.world.clock >= old(waiter.world.clock)
      requires waiter.world.passes == old(waiter.world.passes) && wakeUp.waits == old(wakeUp.waits)
      requires waiter.world.readings == old(waiter.world.readings)
      ensures Book()
    {
      hide Accepted, Fold, Timely;
    }

    twostate lemma StillWritten()
      requires old(Written()) && unchanged(this`history, this`watch, this`times)
      requires waiter.world.clock >= old(waiter.world.clock)
      ensures Written()
    {
      hide Accepted, Fold, Timely;
    }

    ghost method RecordStored(on: bool)
      requires Book() && watch.freq > 0
      modifies this`history, this`watch, this`times
      ensures Book() && history == old(history) + [Stored(on)]
      ensures watch == old(watch).(controls := old(watch).controls.(blocked := old(watch).controls.blocked && !on,
                                                                   armed := on,
                                                                   stores := old(watch).controls.stores + 1))
    {
      hide Book;
      Record(Stored(on));
    }

    /** The thread begins. */
    ghost method RecordBegan()
      requires Book() && watch.freq == 0 && freq > 0
      modifies this`history, this`watch, this`times
      ensures Book() && watch == old(watch).(pending := Some(cfg), since := watch.since, freq := freq)
    {
      hide Book;
      Record(Began(freq, cfg));
    }

    /** An idle wait has just ended. */
    ghost method RecordWaiting()
      requires Written() && wakeUp.waits == watch.marks.waits + 1 && waiter.world.passes == watch.marks.passes
      requires sender.world == wakeUp.world == waiter.world
      requires watch.readings == waiter.world.readings && ReadRule(watch, Waiting)
      requires HandsRule(watch.hands, Waiting) && SinceRule(watch, Waiting) && OrderRule(watch, Waiting)
      modifies this`history, this`watch, this`times
      ensures Book() && history == old(history) + [Waiting]
      ensures watch == old(watch).(controls := old(watch).controls.(
                                     holdOnly := watch.controls.params.mode == Modes.Hold),
                                   asked := None, since := watch.since, marks := watch.marks,
                                   poll := old(watch).poll.(heard := false))
      ensures watch.marks.waits == old(watch).marks.waits + 1
    {
      hide Written, HandsRule;
      Write(Waiting);
    }

    /** Something that other threads have stored has just been read. */
    ghost method RecordRead(reading: World.Reading)
      requires Written() && watch.marks == Marks(wakeUp.waits, waiter.world.passes) && watch.freq > 0
      requires sender.world == wakeUp.world == waiter.world && waiter.world.readings == watch.readings + [reading]
      requires ReadRule(watch, Read(reading)) && TimeRule(Read(reading), waiter.world.clock)
      modifies this`history, this`watch, this`times
      ensures Book() && history == old(history) + [Read(reading)]
      ensures watch == old(watch).(since := watch.since, readings := old(watch).readings + [reading],
                                   poll := ObservePolling(old(watch).poll, Read(reading)),
                                   permit := ObservePermit(old(watch).permit, old(watch).work.cfg, Read(reading)))
      ensures StillSince(old(watch).since, watch.since)
      ensures old(watch).since.look != NoLook ==> watch.since.look == old(watch).since.look
    {
      hide Written, ReadRule, ObservePolling, ObservePermit, TimeRule;
      Write(Read(reading));
    }

    /** The last thing observed is that a pass began here. */
    ghost predicate Marked(p: Place)
      reads this`history, this`remaining
    {
      history != [] && history[|history| - 1] == Pass(remaining, p)
    }

    /** The next of the drained commands is handled. */
    ghost method TakeCommand(c: Command)
      requires Book() && watch.freq > 0 && Kept(watch.seen) && inHand != [] && inHand[0] == c
      modifies this`history, this`watch, this`times, this`inHand
      ensures Book() && history == old(history) + [Handled(c)] && watch == Observe(old(watch), Handled(c))
      ensures inHand == old(inHand)[1..] && Kept(old(watch).seen + [c])
    {
      hide Book, Observe;
      Record(Handled(c));
      assert inHand == [c] + inHand[1..];
      inHand := inHand[1..];
    }

    /** What was drained behind a Quit is not looked at. */
    ghost method DropRest()
      requires Book() && watch.freq > 0 && Kept(watch.seen) && watch.controls.quitting
      modifies this`history, this`watch, this`times, this`inHand
      ensures Book() && Kept(watch.seen) && inHand == []
      ensures watch == old(watch).(seen := old(watch).seen + old(inHand), since := watch.since)
      ensures StillSince(old(watch).since, watch.since)
    {
      hide Book;
      Record(Dropped(inHand));
      inHand := [];
    }

    ghost method RecordLook()
      requires Book() && watch.freq > 0 && watch.work.live && watch.work.cfg.maxMode && watch.work.left > 0
      requires waiter.world.clock < watch.grid.end && watch.pending == None
      modifies this`history, this`watch, this`times
      ensures Book()
      ensures watch == old(watch).(since := old(watch).since.(look := Look.Fresh, judged := false),
                                   permit := old(watch).permit.(boundary := waiter.world.clock, room := false))
    {
      hide Book;
      Record(Looked(waiter.world.clock));
    }

    ghost method RecordGrid(e: Observation)
      requires Book() && (e.Anchored? || e.Rerated? || e.Missed?) && TimeRule(e, waiter.world.clock)
      requires WorkRule(watch.work, e) && GridRule(watch.grid, e) && SinceRule(watch, e) && OrderRule(watch, e)
      modifies this`history, this`watch, this`times
      ensures Book() && history == old(history) + [e]
      ensures watch == old(watch).(grid := ObserveGrid(old(watch).grid, e), since := watch.since,
                                   permit := watch.permit)
      ensures watch.permit == if e.Missed? then old(watch).permit.(boundary := e.now) else old(watch).permit
      ensures e.Missed? ==> watch.since.judged
    {
      hide Book, WorkRule, GridRule, SinceRule, OrderRule, ObserveGrid, TimeRule;
      Record(e);
    }

    ghost method RecordEnded(why: Ending)
      requires Book() && watch.freq > 0 && TimeRule(Ended(why), waiter.world.clock)
      requires WorkRule(watch.work, Ended(why)) && GridRule(watch.grid, Ended(why)) && SinceRule(watch, Ended(why))
      modifies this`history, this`watch, this`times
      ensures Book() && history == old(history) + [Ended(why)]
      ensures watch == old(watch).(work := old(watch).work.(live := false, step := 0), since := watch.since)
    {
      hide Book, WorkRule, GridRule, SinceRule, TimeRule;
      Record(Ended(why));
    }

    // -------------------------------------------------------------- the world

    /** Other threads may post commands and store armed at any time. */
    method OthersAct()
      requires Book() && watch.freq > 0 && Shared(watch.seen, watch.controls.blocked, watch.controls.armed)
      modifies this`queue, this`posted, this`flag, this`told, this`armed, this`history, this`watch, this`times
      ensures Book() && Shared(watch.seen, watch.controls.blocked, watch.controls.armed) && old(queue) <= queue
      ensures OthersOnly(old(watch), watch)
      ensures watch.controls.stores == old(watch).controls.stores ==> armed == old(armed)
    {
      hide Book, AllGood, Kept;
      OthersPost(watch.seen);
      var store: int := *;
      if store == 0 {
        armed := true;
        RecordStored(true);
      } else if store == 1 {
        armed := false;
        RecordStored(false);
      }
    }

    /** A command is put into the queue, and then the flag is set; in between there may be anything. */
    method OthersPost(ghost seen: seq<Command>)
      requires AllGood(queue) && Kept(seen)
      modifies this`queue, this`posted, this`flag, this`told
      ensures AllGood(queue) && Kept(seen) && old(queue) <= queue
    {
      var cmds: seq<Command> := *;
      if AllGood(cmds) {
        assert posted + cmds == seen + inHand + (queue + cmds);
        posted := posted + cmds;
        queue := queue + cmds;
      }
      var set_: bool := *;
      if set_ { flag, told := true, |posted|; }
    }

    twostate predicate TimePassed()
      reads waiter.world
    {
      waiter.world.clock >= old(waiter.world.clock) && waiter.world.fuel <= old(waiter.world.fuel)
    }

    method Clock() returns (t: int)
      requires Book() && watch.freq > 0 && Shared(watch.seen, watch.controls.blocked, watch.controls.armed)
      modifies waiter.world`clock, this`queue, this`posted, this`flag, this`told, this`armed, this`history, this`watch
      modifies this`times
      ensures t == waiter.world.clock >= old(waiter.world.clock)
      ensures Book() && Shared(watch.seen, watch.controls.blocked, watch.controls.armed) && old(queue) <= queue
      ensures OthersOnly(old(watch), watch)
      ensures watch.controls.stores == old(watch).controls.stores ==> armed == old(armed)
    {
      hide Book, Shared;
      t := waiter.world.Now();
      Later();
      OthersAct();
    }

    method Publish(now: int, force: bool)
      modifies this`nextPublish
    {
      if force || now >= nextPublish { nextPublish := now + MsToTicks(100, freq); }
    }

    method Drain() returns (cmds: seq<Command>)
      requires Kept(watch.seen) && inHand == []
      modifies this`queue, this`flag, this`inHand
      ensures cmds == inHand == old(queue) && queue == [] && !flag && Kept(watch.seen)
    {
      cmds := queue;
      queue, flag, inHand := [], false, cmds;
    }

    method SetState(s: EngineState)
      requires Base() && (s != Running && watch.hands.fits ==> watch.hands.held == NOTHING)
      requires watch.controls.blocked ==> s == Disarmed
      requires watch.work.live == (s == Running || s == Paused) && (s == Armed ==> armed) && (s == Disarmed ==> !armed)
      modifies this`state, this`history, this`watch, this`times
      ensures Base() && state == s && (s == Paused ==> watch.since.paused)
      ensures watch == old(watch).(hands := old(watch).hands.(state := s), since := watch.since)
      ensures StillSince(old(watch).since, watch.since)
    {
      hide Book, Programs, Configs;
      state := s;
      RecordState(s);
    }

    ghost method RecordState(s: EngineState)
      requires Book() && (s != Running && watch.hands.fits ==> watch.hands.held == NOTHING)
      requires (watch.controls.blocked ==> s == Disarmed) && watch.freq > 0
      requires watch.work.live == (s == Running || s == Paused)
      requires (s == Armed ==> watch.controls.armed) && (s == Disarmed ==> !watch.controls.armed)
      modifies this`history, this`watch, this`times
      ensures s == Paused ==> watch.since.paused
      ensures Book() && watch == old(watch).(hands := old(watch).hands.(state := s), since := watch.since)
      ensures StillSince(old(watch).since, watch.since)
    {
      hide Book;
      Record(StateIs(s));
    }

    /** releaseAll. */
    method Release()
      requires Base() && Small(watch.hands)
      modifies this`history, this`watch, this`times, sender, sender.heldKeys, sender.keyMeta
      modifies sender.shared`mouseMask, sender.shared.keyBits, sender.shared.keyScan, waiter.world`clock
      ensures Base() && waiter.world.clock >= old(waiter.world.clock)
      ensures watch == old(watch).(hands := watch.hands, since := watch.since)
      ensures StillSince(old(watch).since, watch.since)
      ensures old(watch).since.look != NoLook ==> watch.since.look == AfterPause
      ensures watch.hands.full == old(watch).hands.full
      ensures watch.hands.fits ==> old(watch).hands.fits && watch.hands.held == NOTHING
      ensures watch.hands.held == Freed(old(watch).hands.held)
    {
      hide Book, TrackAll, ReleaseList, Programs, Configs, Shared;
      Wires();
      ghost var l := ReleaseList(sender.Now());
      var ok;
      ghost var at;
      ok, at := sender.ReleaseAll();
      Later();
      RecordReleased(l[..ok], at, sender.Now());
    }

    lemma Wires()
      requires Book()
      ensures sender.world == wakeUp.world == waiter.world
    {
    }

    ghost method RecordReleased(sent: seq<Input>, at: seq<int>, after: Held)
      requires Book() && watch.freq > 0 && Small(watch.hands) && after == Freed(watch.hands.held)
      requires sent <= ReleaseList(watch.hands.held) && |at| == |sent|
      requires forall t :: t in at ==> t <= waiter.world.clock
      requires Size(watch.hands.held) <= MAX_RELEASE ==> after == NOTHING
      modifies this`history, this`watch, this`times
      ensures Book() && watch == old(watch).(hands := watch.hands, since := watch.since)
      ensures StillSince(old(watch).since, watch.since)
      ensures old(watch).since.look != NoLook ==> watch.since.look == AfterPause
      ensures watch.hands.full == old(watch).hands.full && watch.hands.stamps == old(watch).hands.stamps + at
      ensures watch.hands.held == after && watch.hands.delivered == old(watch).hands.delivered + sent
      ensures watch.hands.state == old(watch).hands.state
      ensures watch.hands.fits ==> old(watch).hands.fits && watch.hands.held == NOTHING
    {
      hide Book, TrackAll, ReleaseList;
      Record(Released(sent, at, after));
    }

    method SendInputs(es: seq<Input>) returns (ghost s: Sending)
      requires sender.Valid() && Book()
      modifies sender, sender.heldKeys, sender.keyMeta
      modifies sender.shared`mouseMask, sender.shared.keyBits, sender.shared.keyScan, waiter.world`clock
      ensures sender.Valid() && Book() && s.inputs == es && s.ok <= |es| && s.after == sender.Now()
      ensures s.after == TrackAll(old(sender.Now()), es[..s.ok])
      ensures sender.delivered == old(sender.delivered) + es[..s.ok]
      ensures sender.stamps == old(sender.stamps) + InputSender.Stamps(s.at, s.ok)
      ensures old(waiter.world.clock) <= s.at <= waiter.world.clock
      ensures s.ok == |es| ==> s.after == TrackAll(old(sender.Now()), es)
    {
      hide TrackAll, Book;
      Wires();
      var ok;
      ghost var at;
      ok, at := sender.Send(es);
      Later();
      if ok == |es| { assert es[..ok] == es; }
      s := Sending(es, ok, sender.Now(), at);
    }

    ghost method RecordSent(e: Observation)
      requires Book() && IsSent(e) && TimeRule(e, waiter.world.clock)
      requires HandsRule(watch.hands, e) && ControlsRule(watch.controls, e)
      requires WorkRule(watch.work, e) && GridRule(watch.grid, e) && SinceRule(watch, e) && OrderRule(watch, e)
      requires ReadRule(watch, e)
      modifies this`history, this`watch, this`times
      ensures Book() && history == old(history) + [e]
      ensures watch == old(watch).(hands := ObserveHands(old(watch).hands, e),
                                   work := ObserveWork(old(watch).work, old(watch).controls.params, e),
                                   grid := ObserveGrid(old(watch).grid, e),
                                   since := old(watch).since.(look := NoLook, judged := false))
    {
      hide Book, HandsRule, WorkRule, GridRule, SinceRule, OrderRule, ControlsRule, TimeRule, ReadRule;
      hide ObserveHands, ObserveWork, ObserveGrid;
      Record(e);
    }

    /** Output of n copies of the current step of the timed program. */
    method SendStep(step: nat, fire: int, n: nat)
      requires HandsAgree(watch.hands) && Book() && RunControls(watch) && state == Running && !stop && inHand == []
      requires watch.poll.done && watch.permit.open && (step == 0 ==> Recent(watch.permit, MsToTicks(2, watch.freq)))
      requires watch.work.prog == prog.steps && step == watch.work.step < |prog.steps|
      requires 1 <= n <= MAX_BATCH && (n > 1 ==> |prog.steps| == 1 && watch.work.cfg.latePolicy == CatchUp)
      requires fire == waiter.world.clock && !watch.work.cfg.maxMode
      requires watch.grid.anchors > 0 && watch.grid.mid == (step > 0) && watch.grid.rate == watch.work.cfg.cps
      requires watch.freq > 0 && (step == 0 ==> watch.work.left > 0 && watch.pending == None && watch.since.judged)
      requires (n > 1 ==> n <= watch.work.left) && OnTime(watch.grid, fire, n, prog.steps[step].offset)
      requires Rises(watch.grid, prog.steps[step].offset)
      modifies this`history, this`watch, this`times, sender, sender.heldKeys, sender.keyMeta
      modifies sender.shared`mouseMask, sender.shared.keyBits, sender.shared.keyScan, waiter.world`clock
      ensures waiter.world.clock >= old(waiter.world.clock)
      ensures HandsAgree(watch.hands) && Book() && watch.controls == old(watch).controls
      ensures Sent(old(watch), watch, Copies(n, prog.steps[step].inputs), step, n, prog.steps[step].offset,
                   step + 1 == |prog.steps|)
    {
      hide Book, TrackAll, OnTime, Rises, LastDue, Copies, RunControls, HandsRule, ControlsRule, WorkRule, GridRule;
      hide Sent, ObserveHands, ObserveWork, ObserveGrid, SinceRule, OrderRule, TimeRule, ReadRule, Goes, Small, Recent;
      hide MsToTicks;
      var es := CopiesOf(n, prog.steps[step].inputs);
      ghost var s := SendInputs(es);
      MayGoOn();
      StepAllowed(watch, s, fire, n, waiter.world.clock);
      ghost var w := watch;
      RecordSent(SentStep(s, fire, n, prog.steps[step].offset, step == 0, step + 1 == |prog.steps|));
      StepRecorded(w, watch, s, fire, n);
    }

    /** MAX mode: the first n actions of the prepared batch. */
    method SendBatch(batch: seq<Input>, copies: nat, n: nat, fire: int)
      requires HandsAgree(watch.hands) && Book() && RunControls(watch) && state == Running && !stop && inHand == []
      requires watch.poll.done && watch.permit.open && Recent(watch.permit, MsToTicks(1, watch.freq))
      requires watch.work.cfg.maxInflight == 0 || watch.permit.room
      requires watch.work.flat == maxProg.flat && watch.work.step == 0 && watch.work.cfg.maxMode
      requires fire == waiter.world.clock && watch.since.look != NoLook
      requires batch == Copies(copies, maxProg.flat) && n <= copies <= MAX_COPIES && n == BatchSize(watch.work)
      requires watch.freq > 0
      modifies this`history, this`watch, this`times, sender, sender.heldKeys, sender.keyMeta
      modifies sender.shared`mouseMask, sender.shared.keyBits, sender.shared.keyScan, waiter.world`clock
      ensures waiter.world.clock >= old(waiter.world.clock)
      ensures HandsAgree(watch.hands) && Book() && watch.seen == old(watch).seen
      ensures watch.controls == old(watch).controls && watch.grid == old(watch).grid
      ensures watch.work == old(watch).work.(completed := old(watch).work.completed + n,
                                             left := Spend(old(watch).work.left, n))
      ensures watch.pending == old(watch).pending && watch.asked == old(watch).asked && watch.freq == old(watch).freq
      ensures watch.poll == old(watch).poll && watch.permit == old(watch).permit
      ensures watch.since == old(watch).since.(look := NoLook, judged := false)
      ensures watch.hands.fits == old(watch).hands.fits && watch.hands.state == Running
      ensures watch.hands.full ==>
                old(watch).hands.full && watch.hands.held == TrackAll(old(watch).hands.held, Copies(n, maxProg.flat))
    {
      hide Book, TrackAll, Copies, RunControls, HandsRule, ControlsRule, WorkRule, GridRule;
      hide ObserveHands, ObserveWork, ObserveGrid, SinceRule, OrderRule, TimeRule, ReadRule, Goes, Small, Recent;
      hide MsToTicks;
      CopiesPrefix(copies, n, maxProg.flat);
      ghost var s := SendInputs(batch[..n * |maxProg.flat|]);
      MayGoOn();
      BatchAllowed(watch, s, fire, n, waiter.world.clock);
      ghost var w := watch;
      RecordSent(SentBatch(s, fire, n));
      BatchRecorded(w, s, fire, n);
    }

    lemma MayGoOn()
      requires RunControls(watch) && !stop
      ensures watch.work.live && !watch.work.stopped && Goes(watch.controls) && remaining == watch.work.left
      ensures inHand == [] ==> watch.poll.due <= |watch.seen|
    {
    }

    // -------------------------------------------------------------- configuration

    /** Sets the configuration and rebuilds both programs. */
    method ApplyConfig(c: EngineConfig)
      requires Most() && watch.pending == Some(c) && pendingCfg == None
      requires watch.work.step == 0 && InRange(c) && (watch.controls.holdOnly ==> IsHold(c))
      modifies this`cfg, this`prog, this`maxProg, this`history, this`watch, this`times
      ensures Base() && cfg == c
      ensures watch == old(watch).(work := Configure(old(watch).work, cfg, prog, maxProg), pending := None,
                                   controls := old(watch).controls.(params := c.mode),
                                   since := old(watch).since.(look := NoLook, judged := false))
    {
      hide Book, HandsAgree, Configs, Shared, InRange, IsHold, TimedProgram, MaxProgram;
      Rebuild(c, watch.controls);
      RecordConfigured();
    }

    method Rebuild(c: EngineConfig, ghost w: Controls)
      requires SetUp(watch) && w == watch.controls && pendingCfg == None && InRange(c) && (w.holdOnly ==> IsHold(c))
      modifies this`cfg, this`prog, this`maxProg
      ensures cfg == c && Programs(prog.steps, maxProg.flat, prog.Ok(), maxProg.Ok(), c)
      ensures Configs(c.mode, w.holdOnly)
    {
      hide TimedProgram, MaxProgram, Clamps, InRange, IsHold, Shared;
      cfg := c;
      var clamped;
      prog, maxProg, clamped := RebuildProgram(cfg, layout, freq);
    }

    ghost method RecordConfigured()
      requires Book() && watch.work.step == 0 && watch.pending == Some(cfg) && watch.freq == freq > 0
      requires prog == TimedProgram(cfg, layout, freq) && maxProg == MaxProgram(cfg, layout, freq)
      modifies this`history, this`watch, this`times
      ensures Book()
      ensures watch == old(watch).(work := Configure(old(watch).work, cfg, prog, maxProg), pending := None,
                                   controls := old(watch).controls.(params := cfg.mode),
                                   since := old(watch).since.(look := NoLook, judged := false))
    {
      hide Book, TimedProgram, MaxProgram;
      assert AreProgramsOf(cfg, prog, maxProg, freq);
      Record(Configured(cfg, prog, maxProg));
    }

    // -------------------------------------------------------------- commands during a run

    /** What a command means during a run. */
    twostate predicate RunEffect(c: Command)
      reads this`stop, this`emergency, this`armed, this`pendingCfg, this`remaining, this`cfg
    {
      && stop == (old(stop) || StopsRun(c, cfg.mode.mode))
      && emergency == (old(emergency) || c == Emergency)
      && armed == (if c.Arm? then c.on else if c == Emergency then false else old(armed))
      && pendingCfg == (if c.SetConfig? then Some(c.cfg) else old(pendingCfg))
      && remaining == (if c == TriggerDown then LeftAfterDown(old(remaining), cfg.mode) else old(remaining))
    }

    method HandleRunCommand(c: Command)
      requires Base() && RunControls(watch) && !watch.controls.quitting && (c.SetConfig? ==> InRange(c.cfg))
      requires inHand != [] && inHand[0] == c
      modifies this`queue, this`posted, this`flag, this`told, this`inHand, this`armed, this`stop, this`emergency
      modifies this`remaining, this`pendingCfg, this`history, this`watch, this`times
      ensures Base() && RunControls(watch) && watch.controls.quitting == (c == Quit)
      ensures SameRun(old(watch), watch) && Quiet(old(watch), watch) && RunEffect(c)
      ensures inHand == old(inHand)[1..] && watch.heeded == old(watch).heeded + [c]
    {
      hide Base, RunControls, SameRun, ObserveControls, RunEffect;
      match c
      case SetConfig(new_) => ConfigInRun(new_);
      case Arm(on) => ArmInRun(on);
      case TriggerDown => DownInRun();
      case Emergency => EmergencyInRun();
      case Quit => QuitInRun();
      case _ => OtherInRun(c);
    }

    method ConfigInRun(new_: EngineConfig)
      requires Base() && RunControls(watch) && !watch.controls.quitting && InRange(new_)
      requires inHand != [] && inHand[0] == SetConfig(new_)
      modifies this`pendingCfg, this`history, this`watch, this`times, this`inHand
      ensures Base() && RunControls(watch) && !watch.controls.quitting
      ensures SameRun(old(watch), watch) && Quiet(old(watch), watch) && RunEffect(SetConfig(new_))
      ensures inHand == old(inHand)[1..] && watch.heeded == old(watch).heeded + [SetConfig(new_)]
    {
      hide Book, Programs, HandsAgree, AllGood, Kept, InRange, Observe, SameRun;
      InRunTook(watch, SetConfig(new_));
      TakeCommand(SetConfig(new_));
      pendingCfg := Some(new_);
    }

    method ArmInRun(on: bool)
      requires Base() && RunControls(watch) && !watch.controls.quitting && inHand != [] && inHand[0] == Arm(on)
      modifies this`armed, this`stop, this`history, this`watch, this`times, this`inHand
      ensures Base() && RunControls(watch) && !watch.controls.quitting
      ensures SameRun(old(watch), watch) && Quiet(old(watch), watch) && RunEffect(Arm(on))
      ensures inHand == old(inHand)[1..] && watch.heeded == old(watch).heeded + [Arm(on)]
    {
      hide Base, Observe, SameRun;
      InRunTook(watch, Arm(on));
      StoreArmed(on);
      if !on { stop := true; }
    }

    method EmergencyInRun()
      requires Base() && RunControls(watch) && !watch.controls.quitting && inHand != [] && inHand[0] == Emergency
      modifies this`armed, this`stop, this`emergency, this`history, this`watch, this`times, this`inHand
      ensures Base() && RunControls(watch) && !watch.controls.quitting
      ensures SameRun(old(watch), watch) && Quiet(old(watch), watch) && RunEffect(Emergency)
      ensures inHand == old(inHand)[1..] && watch.heeded == old(watch).heeded + [Emergency]
    {
      hide Base, Observe, SameRun;
      InRunTook(watch, Emergency);
      DisarmForEmergency();
      stop, emergency := true, true;
    }

    method QuitInRun()
      requires Base() && RunControls(watch) && !watch.controls.quitting && inHand != [] && inHand[0] == Quit
      modifies this`queue, this`posted, this`flag, this`told, this`stop, this`history, this`watch, this`times
      modifies this`inHand
      ensures Base() && RunControls(watch) && watch.controls.quitting
      ensures SameRun(old(watch), watch) && Quiet(old(watch), watch) && RunEffect(Quit)
      ensures inHand == old(inHand)[1..] && watch.heeded == old(watch).heeded + [Quit]
    {
      hide Base, RunControls, Observe, SameRun;
      PostQuit();
      TakeQuit();
    }

    method PostQuit()
      requires Base() && RunControls(watch)
      modifies this`queue, this`posted, this`flag, this`told
      ensures Base() && RunControls(watch) && Quit in queue
    {
      hide Book, Programs, Configs, HandsAgree, AllGood, Kept;
      QueueAgain(Quit, watch.seen);
    }

    method TakeQuit()
      requires Base() && RunControls(watch) && inHand != [] && inHand[0] == Quit && Quit in queue
      modifies this`stop, this`history, this`watch, this`times, this`inHand
      ensures Base() && RunControls(watch) && watch.controls.quitting
      ensures SameRun(old(watch), watch) && Quiet(old(watch), watch) && RunEffect(Quit)
      ensures inHand == old(inHand)[1..] && watch.heeded == old(watch).heeded + [Quit]
    {
      hide Book, Programs, Configs, HandsAgree, AllGood, Kept, Observe, SameRun, WorkAfter, Small;
      InRunTook(watch, Quit);
      TakeCommand(Quit);
      stop := true;
    }

    method QueueAgain(c: Command, ghost seen: seq<Command>)
      requires AllGood(queue) && Kept(seen) && !c.SetConfig?
      modifies this`queue, this`posted, this`flag, this`told
      ensures AllGood(queue) && Kept(seen) && c in queue && old(queue) <= queue
    {
      assert posted + [c] == seen + inHand + (queue + [c]);
      queue, posted := queue + [c], posted + [c];
      flag, told := true, |posted|;
    }

    /** An edge, a manual stop, or what has no effect during a run. */
    method OtherInRun(c: Command)
      requires Base() && RunControls(watch) && !watch.controls.quitting && inHand != [] && inHand[0] == c
      requires c.TriggerUp? || c.StopRun? || c.StartRun? || c.ResetTotals?
      modifies this`stop, this`history, this`watch, this`times, this`inHand
      ensures Base() && RunControls(watch) && !watch.controls.quitting
      ensures SameRun(old(watch), watch) && Quiet(old(watch), watch) && RunEffect(c)
      ensures inHand == old(inHand)[1..] && watch.heeded == old(watch).heeded + [c]
    {
      hide Book, Programs, HandsAgree, AllGood, Kept, Observe, SameRun;
      InRunTook(watch, c);
      TakeCommand(c);
      if c == StopRun || (c == TriggerUp && Modes.DecideOnTriggerUp(cfg.mode, true) == Modes.Stop) { stop := true; }
    }

    method DownInRun()
      requires Base() && RunControls(watch) && !watch.controls.quitting && inHand != [] && inHand[0] == TriggerDown
      modifies this`stop, this`remaining, this`history, this`watch, this`times, this`inHand
      ensures Base() && RunControls(watch) && !watch.controls.quitting
      ensures SameRun(old(watch), watch) && Quiet(old(watch), watch) && RunEffect(TriggerDown)
      ensures inHand == old(inHand)[1..] && watch.heeded == old(watch).heeded + [TriggerDown]
    {
      hide Book, Programs, Configs, HandsAgree, AllGood, Kept, Observe, SameRun, RunCommand, StopsRun;
      InRunTook(watch, TriggerDown);
      DownDoes(watch.work, cfg.mode);
      ConfigsMean();
      TakeCommand(TriggerDown);
      StopOrExtend();
    }

    method StopOrExtend()
      modifies this`stop, this`remaining
      ensures stop == (old(stop) || StopsRun(TriggerDown, cfg.mode.mode))
      ensures remaining == LeftAfterDown(old(remaining), cfg.mode)
    {
      match Modes.DecideOnTriggerDown(cfg.mode, true)
      case Stop => stop := true;
      case Extend(more) => if remaining != UNLIMITED { remaining := (remaining + more) % WORD; }
      case _ =>
    }

    lemma ConfigsMean()
      requires SetUp(watch)
      ensures watch.controls.params == cfg.mode
    {
    }

    /** Returns whether the run must stop. A Quit is queued again, and what came after it is dropped. */
    method HandleRunCommands() returns (halt: bool)
      requires Base() && RunBasics(watch) && !stop && inHand == [] && watch.poll.due <= |posted|
      modifies this`queue, this`posted, this`flag, this`told, this`inHand, this`armed, this`stop, this`emergency
      modifies this`remaining, this`pendingCfg, this`history, this`watch, this`times
      ensures Base() && RunControls(watch) && halt == stop && inHand == []
      ensures halt <==> exists i :: 0 <= i < |old(queue)| && StopsRun(old(queue)[i], cfg.mode.mode)
      ensures SameRun(old(watch), watch) && Quiet(old(watch), watch)
      ensures watch.heeded == old(watch).heeded + Heeded(old(queue))
      ensures watch.work == WorkAfter(old(watch).work, cfg.mode, Heeded(old(queue))) && remaining == watch.work.left
    {
      hide Base, RunControls, RunBasics, SameRun, Heeded, StopsRun, WorkAfter;
      var cmds := DrainInRun();
      SameRunTrivial(watch);
      assert cmds[..0] == [] && cmds[0..] == cmds && watch.heeded + [] == watch.heeded;
      for i := 0 to |cmds|
        invariant RunBatchAt(cmds, i, old(watch)) && !watch.controls.quitting
      {
        var quit := RunBatchTurn(cmds, i, old(watch));
        if quit {
          RunDid(old(watch), Heeded(cmds));
          return true;
        }
      }
      assert cmds[..|cmds|] == cmds && cmds + [] == cmds;
      NothingHeeded(cmds[|cmds|..]);
      RunDid(old(watch), Heeded(cmds));
      halt := stop;
    }

    lemma RunDid(w: Watch, cmds: seq<Command>)
      requires Base() && RunControls(watch) && SameRun(w, watch) && watch.heeded == w.heeded + cmds
      ensures watch.work == WorkAfter(w.work, cfg.mode, cmds) && remaining == watch.work.left
    {
      hide Book, Programs, HandsAgree, Shared, WorkAfter;
      assert watch.heeded[|w.heeded|..] == cmds;
    }

    /** What is known when a run has handled the first i commands of a batch. w: the record before it. */
    ghost predicate RunBatchAt(cmds: seq<Command>, i: nat, w: Watch)
      requires i <= |cmds|
      reads this`history, this`watch, this`state, this`cfg, this`pendingCfg, this`prog, this`maxProg
      reads this`times, waiter.world`clock, waiter.world`passes, waiter.world`readings, wakeUp`waits
      reads this`queue, this`posted, this`flag, this`told, this`inHand, this`armed, this`stop, this`remaining
      reads this`endQpc, sender, sender.heldKeys, sender.keyMeta, sender.shared, sender.shared.keyBits
      reads sender.shared.keyScan
    {
      && Base() && RunControls(watch) && SameRun(w, watch) && Quiet(w, watch)
      && inHand == cmds[i..] && watch.heeded == w.heeded + cmds[..i]
      && Heeded(cmds) == cmds[..i] + Heeded(cmds[i..])
      && (stop <==> exists k :: 0 <= k < i && StopsRun(cmds[k], cfg.mode.mode))
    }

    /** The next command of a batch; behind a Quit nothing is looked at. */
    method RunBatchTurn(cmds: seq<Command>, i: nat, ghost w: Watch) returns (quit: bool)
      requires i < |cmds| && RunBatchAt(cmds, i, w) && AllGood(cmds) && !watch.controls.quitting
      modifies this`queue, this`posted, this`flag, this`told, this`inHand, this`armed, this`stop, this`emergency
      modifies this`remaining, this`pendingCfg, this`history, this`watch, this`times
      ensures quit == (cmds[i] == Quit)
      ensures !quit ==> RunBatchAt(cmds, i + 1, w) && !watch.controls.quitting
      ensures quit ==> Base() && RunControls(watch) && stop && inHand == [] && SameRun(w, watch)
                       && Quiet(w, watch) && watch.heeded == w.heeded + Heeded(cmds)
                       && StopsRun(cmds[i], cfg.mode.mode)
    {
      hide Base, RunControls, SameRun, Heeded, StopsRun;
      ghost var v := watch;
      WhatRemains(cmds, i);
      HeededNext(cmds, i);
      HandleRunCommand(cmds[i]);
      SameRunTransitive(w, v, watch);
      Regroup(w.heeded, cmds[..i], [cmds[i]]);
      quit := cmds[i] == Quit;
      if quit {
        QuitStops();
        v := watch;
        DropInRun();
        SameRunTransitive(w, v, watch);
      }
    }

    method DrainInRun() returns (cmds: seq<Command>)
      requires Base() && RunBasics(watch) && !stop && inHand == [] && watch.poll.due <= |posted|
      modifies this`queue, this`flag, this`inHand
      ensures Base() && RunControls(watch) && AllGood(cmds) && !watch.controls.quitting && cmds == inHand == old(queue)
    {
      hide Book, Programs, HandsAgree;
      cmds := Drain();
    }

    ghost method DropInRun()
      requires Base() && RunControls(watch) && watch.controls.quitting
      modifies this`history, this`watch, this`times, this`inHand
      ensures Base() && RunControls(watch) && inHand == []
      ensures watch == old(watch).(seen := watch.seen, since := watch.since)
      ensures SameRun(old(watch), watch)
    {
      hide Book, Programs, HandsAgree, AllGood, Kept;
      SameRunTrivial(watch);
      DropRest();
    }

    /** The command flag is read: if it is set, everything queued by then is due. */
    method ReadFlag() returns (set_: bool)
      requires Base() && RunControls(watch) && inHand == []
      modifies this`history, this`watch, this`times, waiter.world`readings
      ensures Base() && RunBasics(watch) && (if set_ then watch.poll.due <= |posted| else RunControls(watch))
      ensures set_ == flag && watch.poll.done && watch.permit == old(watch).permit
      ensures waiter.world.readings == old(waiter.world.readings) + [World.FlagRead(flag, told, |posted|)]
      ensures SameRun(old(watch), watch) && watch.hands == old(watch).hands && watch.work == old(watch).work
    {
      hide Written, Programs, HandsAgree, AllGood, Configs;
      SameRunTrivial(watch);
      set_ := flag;
      waiter.world.Note(World.FlagRead(flag, told, |posted|));
      StillWritten();
      RecordRead(World.FlagRead(flag, told, |posted|));
    }

    /** The gate is looked at. */
    method CheckGate() returns (open: bool)
      requires Base() && RunControls(watch)
      modifies this`history, this`watch, this`times, waiter.world`readings
      ensures Base() && RunControls(watch) && watch.poll == old(watch).poll
      ensures watch.permit == old(watch).permit.(open := open, at := waiter.world.clock)
      ensures waiter.world.readings == old(waiter.world.readings) + [World.GateRead(open, waiter.world.clock)]
      ensures watch == old(watch).(since := watch.since, permit := watch.permit, readings := watch.readings)
      ensures StillSince(old(watch).since, watch.since) && SameRun(old(watch), watch)
      ensures old(watch).since.look != NoLook ==> watch.since.look == old(watch).since.look
    {
      hide Written, Programs, HandsAgree, AllGood, Configs, Shared;
      SameRunTrivial(watch);
      FreqIsSet();
      open := waiter.world.ReadGate();
      StillWritten();
      RecordRead(World.GateRead(open, waiter.world.clock));
    }

    lemma QuitStops()
      requires Base() && RunControls(watch)
      ensures watch.controls.quitting ==> stop
      ensures StopsRun(Quit, cfg.mode.mode)
    {
    }

    /** The run is over. */
    ghost method Finish(why: Ending)
      requires Base() && RunControls(watch) && (state == Running || state == Paused) && inHand == []
      requires WorkRule(watch.work, Ended(why)) && GridRule(watch.grid, Ended(why)) && SinceRule(watch, Ended(why))
      requires TimeRule(Ended(why), waiter.world.clock)
      modifies this`history, this`watch, this`times
      ensures RunOver() && watch.hands == old(watch).hands && watch.controls == old(watch).controls
    {
      hide Book, TimedProgram, MaxProgram, WorkRule, GridRule, SinceRule, TimeRule;
      RecordEnded(why);
    }

    /** Where a paused run stands: it polls again, goes on, is over, or is looked at no further. */
    ghost predicate PauseAt(next: Next)
      reads this`history, this`watch, this`state, this`cfg, this`pendingCfg, this`prog, this`maxProg
      reads this`times, waiter.world`clock, waiter.world`passes, waiter.world`readings, wakeUp`waits
      reads this`queue, this`posted, this`flag, this`told, this`inHand, this`armed, this`stop, this`remaining
      reads this`endQpc, sender, sender.heldKeys, sender.keyMeta, sender.shared, sender.shared.keyBits
      reads sender.shared.keyScan
    {
      && Base() && inHand == [] && (next == Again || next == Proceed || next == Over || next == Cut)
      && (next != Cut ==>
            && RunControls(watch) && watch.work.step == 0 && stop == (next == Over)
            && state == (if next == Proceed then Running else Paused)
            && (watch.hands.fits ==> watch.hands.held == NOTHING))
      && (next == Proceed ==> watch.permit.open && watch.poll.done)
      && (next == Again ==> Marked(WhilePaused)) && watch.since.paused
    }

    /** Everything is released, then the thread waits until the gate opens or a command stops the run. */
    method PauseUntilGate() returns (live: bool, resume: bool)
      requires Runs() && watch.work.step == 0 && watch.poll.done
      modifies this`queue, this`posted, this`flag, this`told, this`inHand, this`armed, this`state, this`stop
      modifies this`emergency, this`remaining, this`pendingCfg, this`nextPublish, this`history, this`watch, this`times
      modifies waiter.world, sender, sender.heldKeys, sender.keyMeta, sender.shared`mouseMask, sender.shared.keyBits
      modifies sender.shared.keyScan
      ensures Base() && TimePassed() && inHand == []
      ensures live ==> RunControls(watch) && resume == !stop && state == (if resume then Running else Paused)
      ensures live && resume ==> watch.permit.open && watch.permit.at >= old(waiter.world.clock) && watch.poll.done
      ensures (live && resume && watch.hands.fits ==> watch.hands.held == NOTHING) && watch.since.paused
      ensures old(watch).since.look != NoLook ==> watch.since.look == AfterPause
      ensures SameRun(old(watch), watch) && watch.grid == old(watch).grid && watch.work.step == old(watch).work.step
    {
      hide Base, RunControls, SameRun, Runs, Marked;
      var next := BeginPause();
      while next == Again
        invariant PauseAt(next) && TimePassed() && SameRun(old(watch), watch)
        invariant old(watch).since.look != NoLook ==> watch.since.look == AfterPause
        invariant next == Proceed ==> watch.permit.at >= old(waiter.world.clock)
        decreases next == Again, waiter.world.fuel
      {
        ghost var w := watch;
        next := PollPause();
        SameRunMeans(w, watch);
        SameRunTransitive(old(watch), w, watch);
      }
      SameRunMeans(old(watch), watch);
      live, resume := next != Cut, next == Proceed;
    }

    method BeginPause() returns (next: Next)
      requires Runs() && watch.work.step == 0 && watch.poll.done
      modifies this`queue, this`posted, this`flag, this`told, this`armed, this`state, this`nextPublish, this`history
      modifies this`watch, this`times, waiter.world`clock, waiter.world`fuel, waiter.world`passes, sender
      modifies sender.heldKeys, sender.keyMeta, sender.shared`mouseMask, sender.shared.keyBits, sender.shared.keyScan
      ensures PauseAt(next) && (next == Again || next == Cut) && TimePassed()
      ensures SameRun(old(watch), watch) && (old(watch).since.look != NoLook ==> watch.since.look == AfterPause)
    {
      hide Base, RunControls, Freed, PauseAt, SameRun;
      EnterPause();
      SameRunMeans(old(watch), watch);
      ghost var w := watch;
      next := PauseTurn();
      SameRunMeans(w, watch);
      SameRunTransitive(old(watch), w, watch);
    }

    method EnterPause()
      requires Runs() && watch.work.step == 0
      modifies this`queue, this`posted, this`flag, this`told, this`armed, this`state, this`nextPublish, this`history
      modifies this`watch, this`times, waiter.world`clock, sender, sender.heldKeys, sender.keyMeta
      modifies sender.shared`mouseMask, sender.shared.keyBits, sender.shared.keyScan
      ensures Base() && RunControls(watch) && state == Paused && !stop && inHand == []
      ensures waiter.world.clock >= old(waiter.world.clock)
      ensures (watch.hands.fits ==> watch.hands.held == NOTHING) && watch.since.paused
      ensures SameRun(old(watch), watch) && (old(watch).since.look != NoLook ==> watch.since.look == AfterPause)
      ensures watch.poll == old(watch).poll
    {
      hide Base, RunControls, SameRun;
      ghost var w := watch;
      ReleaseAndPause();
      ghost var v := watch;
      SameRunMeans(w, v);
      var now := OthersActInRun();
      SameRunTransitive(w, v, watch);
      Publish(now, true);
    }

    method ReleaseAndPause()
      requires Runs()
      modifies this`state, this`history, this`watch, this`times, waiter.world`clock, sender, sender.heldKeys
      modifies sender.keyMeta, sender.shared`mouseMask, sender.shared.keyBits, sender.shared.keyScan
      ensures Base() && RunControls(watch) && state == Paused && waiter.world.clock >= old(waiter.world.clock)
      ensures (watch.hands.fits ==> watch.hands.held == NOTHING) && watch.since.paused
      ensures SameRun(old(watch), watch) && (old(watch).since.look != NoLook ==> watch.since.look == AfterPause)
      ensures watch.poll == old(watch).poll && watch.permit == old(watch).permit
    {
      hide Base, RunControls, Freed;
      ghost var w := watch;
      RunMeans();
      Release();
      SetState(Paused);
      KeepsRun(w);
      SameRunTrivial(w);
    }

    method PauseTurn() returns (next: Next)
      requires Base() && RunControls(watch) && state == Paused && !stop && inHand == [] && watch.work.step == 0
      requires (watch.hands.fits ==> watch.hands.held == NOTHING) && watch.since.paused && watch.poll.done
      modifies this`history, this`watch, this`times, waiter.world`fuel, waiter.world`passes
      ensures PauseAt(next) && waiter.world.fuel <= old(waiter.world.fuel)
      ensures next == if waiter.world.fuel < old(waiter.world.fuel) then Again else Cut
      ensures SameRun(old(watch), watch)
    {
      hide Base, RunControls;
      RunMeans();
      StateAgrees();
      NoSteps(watch.work.prog[..0]);
      var live := RunTurn(WhilePaused);
      SameRunTurn(old(watch), watch);
      next := if live then Again else Cut;
    }

    lemma StateAgrees()
      requires Base()
      ensures watch.hands.state == state && watch.work.prog == prog.steps && watch.work.cfg == cfg
      ensures watch.work.ok == prog.Ok() && watch.work.maxOk == maxProg.Ok()
    {
      hide Book, TimedProgram, MaxProgram, Configs, Shared;
    }

    /** The loop of a run makes another pass, if one looks that far, and the history says where it stands. */
    method RunTurn(ghost p: Place) returns (live: bool)
      requires Base() && RunControls(watch) && !stop && PassRule(watch, Pass(remaining, p))
      requires watch.poll.done && inHand == []
      modifies this`history, this`watch, this`times, waiter.world`fuel, waiter.world`passes
      ensures Base() && RunControls(watch) && waiter.world.fuel == old(waiter.world.fuel) - (if live then 1 else 0)
      ensures live ==> Marked(p)
      ensures waiter.world.passes == old(waiter.world.passes) + if live then 1 else 0
      ensures watch == old(watch).(since := watch.since, marks := watch.marks, poll := watch.poll)
      ensures p == WhilePaused ==> StillSince(old(watch).since, watch.since)
      ensures live && p == AtFullSpeed ==> watch.since.fast
    {
      hide Base, SetUp, HandsAgree, RunControls, Written, PassRule;
      ghost var w := watch;
      MayGoOn();
      BaseMeans();
      live := waiter.world.NextPass();
      if live { Write(Pass(remaining, p)); }
      SameControls(w, watch);
      BaseAgain(w);
    }

    lemma BaseMeans()
      requires Base()
      ensures Book() && HandsAgree(watch.hands) && SetUp(watch) && watch.pending == pendingCfg && watch.freq > 0
    {
      hide Book, HandsAgree, Programs, Configs, Shared;
      FreqIsSet();
    }

    /** What is only looked at leaves everything else as it was. */
    lemma BaseAgain(w: Watch)
      requires Book() && HandsAgree(w.hands) && SetUp(w) && w.pending == pendingCfg
      requires watch == w.(since := watch.since, marks := watch.marks, poll := watch.poll, permit := watch.permit,
                           readings := watch.readings)
      ensures Base()
    {
      hide Book, HandsAgree, Programs, Configs, Shared;
    }

    lemma SameControls(w: Watch, v: Watch)
      requires RunControls(w) && v == w.(since := v.since, marks := v.marks, poll := v.poll)
      requires v.poll == w.poll.(done := v.poll.done)
      ensures RunControls(v)
    {
    }

    lemma FreqIsSet()
      requires SetUp(watch)
      ensures watch.freq == freq >= 500_000
    {
      hide TimedProgram, MaxProgram, Configs, Shared;
    }

    /** Other threads act while a run goes on: nothing that matters to the run changes. */
    method OthersActInRun() returns (t: int)
      requires Base() && RunControls(watch)
      modifies this`queue, this`posted, this`flag, this`told, this`armed, this`history, this`watch, this`times
      modifies waiter.world`clock
      ensures Base() && RunControls(watch) && t == waiter.world.clock >= old(waiter.world.clock)
      ensures SameRun(old(watch), watch) && Quiet(old(watch), watch) && watch.work == old(watch).work
      ensures watch.grid == old(watch).grid && watch.since == old(watch).since && watch.pending == old(watch).pending
    {
      hide Book, Programs, HandsAgree;
      SameRunTrivial(watch);
      t := Clock();
    }

    method ResumeRun()
      requires Base() && RunControls(watch) && !stop
      modifies this`state, this`history, this`watch, this`times
      ensures Base() && RunControls(watch) && state == Running
      ensures SameRun(old(watch), watch) && watch.hands == old(watch).hands.(state := Running)
      ensures watch.poll == old(watch).poll && watch.permit == old(watch).permit
    {
      hide Base;
      RunMeans();
      SameRunTrivial(watch);
      SetState(Running);
    }

    /** One pass through the loop of a paused run. */
    method PollPause() returns (next: Next)
      requires PauseAt(Again)
      modifies this`queue, this`posted, this`flag, this`told, this`inHand, this`armed, this`state, this`stop
      modifies this`emergency, this`remaining, this`pendingCfg, this`nextPublish, this`history, this`watch, this`times
      modifies waiter.world
      ensures PauseAt(next) && TimePassed() && (next == Again ==> waiter.world.fuel < old(waiter.world.fuel))
      ensures SameRun(old(watch), watch) && (next == Proceed ==> watch.permit.at >= old(waiter.world.clock))
    {
      hide Base, RunControls, SameRun, Marked;
      ghost var w := watch;
      var halt := PauseCommands();
      SameRunMeans(w, watch);
      if halt { return Over; }
      ghost var u := watch;
      var open := CheckGate();
      ghost var v := watch;
      SameRunMeans(u, v);
      SameRunTransitive(w, u, v);
      if open {
        ResumeRun();
        next := Proceed;
      } else {
        next := PollAgain();
      }
      SameRunMeans(v, watch);
      SameRunTransitive(w, v, watch);
    }

    method PauseCommands() returns (halt: bool)
      requires PauseAt(Again)
      modifies this`queue, this`posted, this`flag, this`told, this`inHand, this`armed, this`stop, this`emergency
      modifies this`remaining, this`pendingCfg, this`history, this`watch, this`times, waiter.world
      ensures Base() && RunControls(watch) && TimePassed() && inHand == [] && halt == stop
      ensures watch.hands == old(watch).hands && watch.work.step == 0 && SameRun(old(watch), watch) && watch.poll.done
    {
      hide Base, RunControls, RunBasics, Marked, SameRun;
      ghost var w := watch;
      var now := OthersActInRun();
      ghost var v := watch;
      var set_ := ReadFlag();
      SameRunTransitive(w, v, watch);
      halt := false;
      if set_ {
        v := watch;
        halt := HandleRunCommands();
        SameRunMeans(v, watch);
        SameRunTransitive(w, v, watch);
      }
    }

    method PollAgain() returns (next: Next)
      requires Base() && RunControls(watch) && state == Paused && !stop && inHand == [] && watch.work.step == 0
      requires (watch.hands.fits ==> watch.hands.held == NOTHING) && watch.since.paused && watch.poll.done
      modifies this`queue, this`posted, this`flag, this`told, this`armed, this`nextPublish, this`history, this`watch
      modifies this`times, waiter.world
      ensures PauseAt(next) && TimePassed() && SameRun(old(watch), watch)
      ensures next == Cut || (next == Again && waiter.world.fuel < old(waiter.world.fuel))
    {
      hide Base, RunControls, PauseAt, SameRun;
      var now := OthersActInRun();
      SameRunMeans(old(watch), watch);
      Publish(now, false);
      ghost var w := watch;
      next := PauseTurn();
      SameRunTransitive(old(watch), w, watch);
    }

    // -------------------------------------------------------------- timed runs

    /** A configuration that arrived during the run takes effect between two actions. The next slot stays where it
        is when the rate changes. */
    method TakePendingConfig(tl: Modes.Timeline) returns (toMax: bool)
      requires AtSlot(tl) && Hinted()
      modifies this`cfg, this`pendingCfg, this`prog, this`maxProg, this`history, this`watch, this`times, tl, waiter
      ensures !toMax ==> Hinted()
      ensures toMax == (old(pendingCfg).Some? && cfg.maxMode)
      ensures if toMax then InRun() && Clean(watch.hands, 0) && watch.work.step == 0 else AtSlot(tl)
      ensures tl.Next() == old(tl.Next()) && pendingCfg == None && watch.grid.begun == old(watch).grid.begun
      ensures watch.poll == old(watch).poll && watch.permit == old(watch).permit
      ensures cfg == if old(pendingCfg).Some? then old(pendingCfg).value else old(cfg)
    {
      hide Base, RunControls, Clean, Configure;
      toMax := false;
      if pendingCfg.Some? {
        var rateChanged := pendingCfg.value.cps != cfg.cps;
        StartIsClean(watch.hands);
        NextConfig();
        StartIsClean(watch.hands);
        if cfg.maxMode { return true; }
        if rateChanged { ChangeRate(tl); }
      }
    }

    /** During a run, between two actions, the waiting configuration is taken. */
    method NextConfig()
      requires InRun() && watch.work.step == 0 && pendingCfg.Some?
      modifies this`cfg, this`pendingCfg, this`prog, this`maxProg, this`history, this`watch, this`times
      ensures InRun() && cfg == old(pendingCfg).value && pendingCfg == None && watch.work.step == 0
      ensures watch.work == Configure(old(watch).work, cfg, prog, maxProg)
      ensures watch == old(watch).(work := watch.work, pending := None,
                                   controls := old(watch).controls.(params := cfg.mode),
                                   since := old(watch).since.(look := NoLook, judged := false))
    {
      hide Base;
      UsePending();
    }

    lemma StartIsClean(w: Hands)
      ensures Clean(w, 0) <==> NothingHeld(w)
    {
      NoSteps(prog.steps[..0]);
    }

    method ChangeRate(tl: Modes.Timeline)
      requires InRun() && watch.work.step == 0 && !watch.grid.mid && watch.grid.anchors > 0 && !cfg.maxMode
      requires watch.grid.rate != cfg.cps
      requires tl.period >= WIDE_PERIOD ==> watch.grid.lastDue < tl.Next()
      requires tl.t0 == watch.grid.t0 && tl.period == watch.grid.period && tl.k == watch.grid.k
      requires watch.grid.epochs + tl.k == actions + missed
      modifies this`history, this`watch, this`times, tl, waiter
      ensures InRun() && OnGrid(tl, watch.grid, 0)
      ensures watch == old(watch).(grid := watch.grid, since := watch.since)
      ensures tl.Next() == old(tl.Next()) && watch.grid.begun == old(watch).grid.begun
      ensures Hinted()
    {
      hide Base, RunControls, Period, Modes.SlotAt;
      RateIsFine();
      RunMeans();
      ghost var lastK := tl.k;
      tl.ChangePeriod(Period(freq, cfg.cps));
      waiter.SetPeriodHint(tl.period.Floor);
      RecordGridInRun(Rerated(cfg.cps, tl.period, lastK));
      SlotZero(tl.t0, tl.period);
    }

    /** The gate, checked every 2 ms: a pause is followed by a fresh grid. */
    method PassGate(tl: Modes.Timeline) returns (next: Next, now: int)
      requires AtSlot(tl)
      modifies this`queue, this`posted, this`flag, this`told, this`inHand, this`armed, this`state, this`stop
      modifies this`emergency, this`remaining, this`pendingCfg, this`nextPublish, this`history, this`watch, this`times
      modifies waiter.world, tl, sender, sender.heldKeys, sender.keyMeta, sender.shared`mouseMask
      modifies sender.shared.keyBits, sender.shared.keyScan
      ensures Base() && TimePassed()
      ensures next == Proceed || next == Again || next == Over || next == Cut
      ensures next == Proceed || next == Again ==> AtSlot(tl) && watch.grid.begun == old(watch).grid.begun
      ensures next == Proceed || next == Again ==> watch.permit.at >= old(waiter.world.clock)
      ensures next == Proceed ==> now == waiter.world.clock == old(waiter.world.clock)
      ensures next == Proceed ==> remaining == old(remaining) && pendingCfg == old(pendingCfg)
      ensures next == Over ==> RunOver()
    {
      hide Base, RunControls, OnGrid, Clean, SameRun;
      now := waiter.world.clock;
      var open := CheckGate();
      if open { return Proceed, now; }
      var live, resume := PauseUntilGate();
      if !live { return Cut, now; }
      if !resume {
        FinishStopped();
        return Over, now;
      }
      now := FreshGrid(tl);
      next := Again;
    }

    ghost method FinishStopped()
      requires Base() && RunControls(watch) && stop && (state == Running || state == Paused) && inHand == []
      modifies this`history, this`watch, this`times
      ensures RunOver() && watch.hands == old(watch).hands && watch.controls == old(watch).controls
    {
      hide Book, Programs, HandsAgree;
      Finish(Stopped);
    }

    /** After a pause the timeline starts again from now. */
    method FreshGrid(tl: Modes.Timeline) returns (now: int)
      requires Base() && RunControls(watch) && state == Running && !stop && inHand == [] && watch.work.step == 0
      requires OnGrid(tl, watch.grid, 0) && (watch.hands.fits ==> watch.hands.held == NOTHING) && watch.since.paused
      requires watch.permit.open && watch.poll.done
      modifies this`queue, this`posted, this`flag, this`told, this`armed, this`history, this`watch, this`times
      modifies waiter.world`clock, tl
      ensures InRun() && OnGrid(tl, watch.grid, 0) && Clean(watch.hands, 0) && watch.work == old(watch).work
      ensures watch.permit == old(watch).permit && watch.poll == old(watch).poll
      ensures watch.grid.begun == old(watch).grid.begun
      ensures now == waiter.world.clock >= old(waiter.world.clock)
    {
      hide Base, RunControls;
      now := OthersActInRun();
      NoSteps(prog.steps[..0]);
      AnchorAt(tl, now, tl.k);
    }

    /** Slots that can no longer be used are given up: always when skipping, and when more than 250 ms behind
        otherwise. */
    method DropLateSlots(tl: Modes.Timeline, now: int, first: bool)
      requires AtSlot(tl) && now == waiter.world.clock && first == (watch.grid.begun == 0)
      modifies this`missed, this`history, this`watch, this`times, tl`k
      ensures watch.permit == old(watch).permit.(boundary := now)
      ensures AtSlot(tl) && watch.grid.begun == old(watch).grid.begun && watch.since.judged
      ensures tl.k == if !first && (cfg.latePolicy == LatePolicy.Skip || now - old(tl.Next()) > MsToTicks(250, freq))
                      then Modes.SkipTarget(tl.t0, tl.period, old(tl.k), now) else old(tl.k)
    {
      hide Base, RunControls, Period, MsToTicks;
      RateIsFine();
      RunMeans();
      var skipped := SkipSlots(tl, now, first);
      RecordGridInRun(Missed(skipped, now));
    }

    method SkipSlots(tl: Modes.Timeline, now: int, first: bool) returns (skipped: nat)
      requires tl.period >= 0.5
      modifies this`missed, tl`k
      ensures tl.k == old(tl.k) + skipped && missed == old(missed) + skipped && old(tl.Next()) <= tl.Next()
      ensures tl.k == if !first && (cfg.latePolicy == LatePolicy.Skip || now - old(tl.Next()) > MsToTicks(250, freq))
                      then Modes.SkipTarget(tl.t0, tl.period, old(tl.k), now) else old(tl.k)
    {
      hide Modes.SlotAt, Modes.SkipTarget, MsToTicks;
      skipped := 0;
      Modes.SkipKeepsGrid(tl.t0, tl.period, tl.k, now);
      Modes.SlotMonotone(tl.t0, tl.period, tl.k, Modes.SkipTarget(tl.t0, tl.period, tl.k, now));
      if !first {
        if cfg.latePolicy == LatePolicy.Skip || now - tl.Next() > MsToTicks(250, freq) {
          skipped := tl.SkipLate(now);
          missed := missed + skipped;
        }
      }
    }

    /** A run without work left is over. */
    method OutOfWork(tl: Modes.Timeline) returns (over: bool)
      requires AtSlot(tl)
      modifies this`history, this`watch, this`times
      ensures over ==> RunOver()
      ensures !over ==> AtSlot(tl) && prog.steps != [] && remaining > 0 && watch == old(watch)
    {
      hide Book, TimedProgram, MaxProgram, HandsAgree, SetUp, Clean, Rising;
      StateAgrees();
      over := !prog.Ok() || remaining == 0;
      if over { Finish(if remaining == 0 then Exhausted else NoProgram); }
    }

    /** lastGate is when the gate was last looked at on schedule, 0 before. */
    predicate GateKnown(lastGate: int, p: Permit) { lastGate == 0 || lastGate <= p.at }

    predicate GateIsRecent(p: Permit, now: int, ticks: int) { Recent(p.(boundary := now), ticks) }

    method PassGateIfDue(tl: Modes.Timeline, lastGate: int) returns (next: Next, now: int, gate: int)
      requires AtSlot(tl) && GateKnown(lastGate, watch.permit)
      modifies this`queue, this`posted, this`flag, this`told, this`inHand, this`armed, this`state, this`stop
      modifies this`emergency, this`remaining, this`pendingCfg, this`nextPublish, this`history, this`watch, this`times
      modifies waiter.world, tl, sender, sender.heldKeys, sender.keyMeta, sender.shared`mouseMask
      modifies sender.shared.keyBits, sender.shared.keyScan
      ensures Base() && TimePassed()
      ensures next == Proceed || next == Again || next == Over || next == Cut
      ensures next == Proceed || next == Again ==> AtSlot(tl) && watch.grid.begun == old(watch).grid.begun
      ensures next == Proceed || next == Again ==> GateKnown(gate, watch.permit)
      ensures next == Proceed ==> GateIsRecent(watch.permit, now, MsToTicks(2, freq))
      ensures next == Proceed ==> remaining == old(remaining) && prog == old(prog) && now == waiter.world.clock
      ensures next == Proceed ==> pendingCfg == old(pendingCfg) && watch.grid.begun == old(watch).grid.begun
      ensures next == Over ==> RunOver()
    {
      hide Base, RunControls, Clean, MsToTicks;
      gate := lastGate;
      now := OthersActInRun();
      next := Proceed;
      if now - gate >= MsToTicks(2, freq) {
        gate := now;
        next, now := PassGate(tl);
      }
    }

    ghost method FinishOnTime(tl: Modes.Timeline)
      requires AtSlot(tl) && tl.Next() >= endQpc
      modifies this`history, this`watch, this`times
      ensures RunOver()
    {
      hide Book, SetUp, HandsAgree, Clean, Rising;
      Finish(TimeUp);
    }

    lemma SlotMeans(tl: Modes.Timeline)
      requires AtSlot(tl)
      ensures watch.poll.done
    {
    }

    /** What the loop does between two actions. */
    method AtBoundary(tl: Modes.Timeline, first: bool, lastGate: int) returns (next: Next, gate: int)
      requires AtSlot(tl) && first == (watch.grid.begun == 0) && GateKnown(lastGate, watch.permit)
      requires Hinted()
      modifies this, waiter.world, waiter, tl, sender, sender.heldKeys, sender.keyMeta
      modifies sender.shared`mouseMask, sender.shared.keyBits, sender.shared.keyScan
      ensures TimePassed() && (next == Proceed || next == Again ==> GateKnown(gate, watch.permit))
      ensures next == Proceed ==> Recent(watch.permit, MsToTicks(2, freq))
      ensures next == Proceed || next == Again ==> AtSlot(tl)
      ensures next == Proceed ==> prog.steps != [] && tl.Next() < endQpc && remaining > 0 && pendingCfg == None
      ensures next == Proceed ==> watch.since.judged
      ensures next == Proceed || next == Again ==> first == (watch.grid.begun == 0)
      ensures next == Over ==> RunOver()
      ensures next == IntoMax ==> InRun() && Clean(watch.hands, 0) && watch.work.step == 0 && cfg.maxMode
                                  && watch.poll.done
      ensures next == Cut ==> Base()
      ensures next == Proceed || next == Again ==> Hinted()
    {
      hide AtSlot, RunOver, InRun, Base, Clean, Modes.SlotAt, MsToTicks, Hinted, Recent, Modes.SkipTarget;
      SlotMeans(tl);
      gate := lastGate;
      var toMax := TakePendingConfig(tl);
      if toMax { return IntoMax, gate; }
      var over := OutOfWork(tl);
      if over { return Over, gate; }
      var now;
      next, now, gate := PassGateIfDue(tl, gate);
      if next != Proceed { return next, gate; }
      next := SkipOrEnd(tl, now, first);
    }

    /** Late slots are given up, and the run is over if the next slot is not before its end. */
    method SkipOrEnd(tl: Modes.Timeline, now: int, first: bool) returns (next: Next)
      requires AtSlot(tl) && now == waiter.world.clock && first == (watch.grid.begun == 0)
      modifies this`missed, this`history, this`watch, this`times, tl`k
      ensures next == if tl.Next() >= endQpc then Over else Proceed
      ensures next == Proceed ==> AtSlot(tl) && watch.since.judged && watch.grid.begun == old(watch).grid.begun
      ensures next == Proceed ==> watch.permit == old(watch).permit.(boundary := now)
      ensures next == Over ==> RunOver()
    {
      hide AtSlot, RunOver, InRun, Base, Modes.SlotAt, MsToTicks, Modes.SkipTarget;
      DropLateSlots(tl, now, first);
      next := Proceed;
      if tl.Next() >= endQpc {
        FinishOnTime(tl);
        next := Over;
      }
    }

    // -------------------------------------------------------------- sending an action on its slot

    /** Catching up, actions of a single step whose slots are due already go out in one call, eight at most. */
    method ChooseBatch(tl: Modes.Timeline, step: nat, fire: int) returns (batch: nat)
      requires step < |prog.steps| && tl.Next() < endQpc && tl.Next() + prog.steps[step].offset <= fire
      requires prog.steps[0].offset == 0
      ensures 1 <= batch <= MAX_BATCH && (batch > 1 ==> step == 0 && |prog.steps| == 1 && batch <= remaining)
      ensures batch > 1 ==> cfg.latePolicy == CatchUp
      ensures step == 0 && cfg.latePolicy == CatchUp && |prog.steps| == 1 && batch < MAX_BATCH && batch < remaining ==>
                tl.Slot(tl.k + batch) > fire || tl.Slot(tl.k + batch) >= endQpc
      ensures forall i: nat {:trigger Modes.SlotAt(tl.t0, tl.period, i)} :: tl.k <= i < tl.k + batch ==>
                Modes.SlotAt(tl.t0, tl.period, i) + prog.steps[step].offset <= fire
                && Modes.SlotAt(tl.t0, tl.period, i) < endQpc
    {
      hide Modes.SlotAt;
      batch := 1;
      if step == 0 && cfg.latePolicy == CatchUp && |prog.steps| == 1 {
        var cap := if remaining < MAX_BATCH then remaining else MAX_BATCH;
        while batch < cap && tl.Slot(tl.k + batch) <= fire && tl.Slot(tl.k + batch) < endQpc
          invariant 1 <= batch && (batch > 1 ==> batch <= cap)
          invariant forall i: nat {:trigger Modes.SlotAt(tl.t0, tl.period, i)} :: tl.k <= i < tl.k + batch ==>
                      Modes.SlotAt(tl.t0, tl.period, i) <= fire && Modes.SlotAt(tl.t0, tl.period, i) < endQpc
        {
          batch := batch + 1;
        }
      }
    }

    method Fire(tl: Modes.Timeline, step: nat, fire: int) returns (nextStep: nat)
      requires InRun() && OnGrid(tl, watch.grid, step) && Clean(watch.hands, step)
      requires step == watch.work.step < |prog.steps| && MidAction(tl, watch.work)
      requires step == 0 ==> remaining > 0 && pendingCfg == None && watch.since.judged
      requires watch.poll.done && (step == 0 ==> Recent(watch.permit, MsToTicks(2, freq)))
      requires tl.Next() < endQpc && tl.Next() + prog.steps[step].offset <= fire == waiter.world.clock
      modifies this`actions, this`remaining, this`history, this`watch, this`times, tl`k
      modifies sender, sender.heldKeys, sender.keyMeta
      modifies sender.shared`mouseMask, sender.shared.keyBits, sender.shared.keyScan, waiter.world`clock
      ensures waiter.world.clock >= old(waiter.world.clock)
      ensures InRun() && OnGrid(tl, watch.grid, nextStep) && Clean(watch.hands, nextStep)
      ensures nextStep == watch.work.step && MidAction(tl, watch.work)
      ensures watch.grid.begun > 0 && watch.poll == old(watch).poll && watch.permit == old(watch).permit
    {
      hide Base, RunControls, OnGrid, Clean, MidAction, WithinBudget;
      hide FlatInputs, TrackAll, Copies, Size, Modes.SlotAt, OnTime, Rises, LastDue, Sent, Goes, Small, Period, Recent;
      hide MsToTicks;
      FirstOffset();
      var batch := ChooseBatch(tl, step, fire);
      ReadyToSend(tl, step, batch, fire);
      ghost var w := watch;
      SendReady(step, fire, batch);
      nextStep := Advance(tl, step, batch, w);
    }

    /** The step goes out; set-up and record stay as they should be. */
    method SendReady(step: nat, fire: int, n: nat)
      requires Base() && RunControls(watch) && state == Running && !stop && inHand == []
      requires watch.poll.done && watch.permit.open && (step == 0 ==> Recent(watch.permit, MsToTicks(2, watch.freq)))
      requires watch.work.prog == prog.steps && step == watch.work.step < |prog.steps|
      requires 1 <= n <= MAX_BATCH && (n > 1 ==> |prog.steps| == 1 && watch.work.cfg.latePolicy == CatchUp)
      requires fire == waiter.world.clock && !watch.work.cfg.maxMode
      requires watch.grid.anchors > 0 && watch.grid.mid == (step > 0) && watch.grid.rate == watch.work.cfg.cps
      requires watch.freq > 0 && (step == 0 ==> watch.work.left > 0 && watch.pending == None && watch.since.judged)
      requires (n > 1 ==> n <= watch.work.left) && OnTime(watch.grid, fire, n, prog.steps[step].offset)
      requires Rises(watch.grid, prog.steps[step].offset)
      modifies this`history, this`watch, this`times, sender, sender.heldKeys, sender.keyMeta
      modifies sender.shared`mouseMask, sender.shared.keyBits, sender.shared.keyScan, waiter.world`clock
      ensures waiter.world.clock >= old(waiter.world.clock)
      ensures Base() && watch.controls == old(watch).controls
      ensures watch.poll == old(watch).poll && watch.permit == old(watch).permit
      ensures Sent(old(watch), watch, Copies(n, prog.steps[step].inputs), step, n, prog.steps[step].offset,
                   step + 1 == |prog.steps|)
    {
      hide Book, SetUp, RunControls, HandsAgree, TrackAll, Copies, OnTime, Rises, LastDue, Sent, Recent, MsToTicks;
      ghost var w := watch;
      SendStep(step, fire, n);
      SentKeepsSetUp(w, Copies(n, prog.steps[step].inputs), step, n);
    }

    /** What is known of a step that is about to be sent, and of what follows it. */
    lemma ReadyToSend(tl: Modes.Timeline, step: nat, batch: nat, fire: int)
      requires Base() && RunControls(watch) && OnGrid(tl, watch.grid, step) && MidAction(tl, watch.work)
      requires step == watch.work.step < |prog.steps| && (step == 0 ==> remaining > 0)
      requires 1 <= batch && (batch > 1 ==> step == 0 && |prog.steps| == 1 && batch <= remaining)
      requires batch > 1 ==> cfg.latePolicy == CatchUp
      requires forall i: nat {:trigger Modes.SlotAt(tl.t0, tl.period, i)} :: tl.k <= i < tl.k + batch ==>
                 Modes.SlotAt(tl.t0, tl.period, i) + prog.steps[step].offset <= fire
                 && Modes.SlotAt(tl.t0, tl.period, i) < endQpc
      ensures watch.work.prog == prog.steps && watch.grid.anchors > 0 && watch.grid.mid == (step > 0)
      ensures !watch.work.cfg.maxMode && (batch > 1 ==> watch.work.cfg.latePolicy == CatchUp)
      ensures watch.grid.rate == watch.work.cfg.cps && watch.freq == freq > 0 && watch.pending == pendingCfg
      ensures (step == 0 ==> watch.work.left > 0) && (batch > 1 ==> batch <= watch.work.left)
      ensures WithinBudget(watch.work, batch) && (watch.work.granted < UNLIMITED ==>
                                                    watch.work.completed < watch.work.granted)
      ensures OnTime(watch.grid, fire, batch, prog.steps[step].offset) && Rises(watch.grid, prog.steps[step].offset)
      ensures var after := prog.steps[..if step + 1 == |prog.steps| then 0 else step + 1];
              TrackAll(TrackAll(NOTHING, FlatInputs(prog.steps[..step])), Copies(batch, prog.steps[step].inputs))
              == TrackAll(NOTHING, FlatInputs(after)) && Size(TrackAll(NOTHING, FlatInputs(after))) <= MAX_RELEASE
      ensures step + 1 == |prog.steps| && watch.grid.period >= WIDE_PERIOD ==>
                LastDue(watch.grid, batch, prog.steps[step].offset) < Modes.SlotAt(tl.t0, tl.period, tl.k + batch)
    {
      hide Book, HandsAgree, TimedProgram, MaxProgram, AllGood, FlatInputs, TrackAll, Copies, Size;
      hide Modes.SlotAt, OnTime, Rises, Rising, LastDue;
      DueOnTime(watch.grid, fire, batch, prog.steps[step].offset);
      StepIsClean(cfg, layout, freq, step, batch);
      StepRises(tl, step);
      if watch.grid.period >= WIDE_PERIOD { NextActionRises(cfg, layout, freq, watch.grid, batch); }
    }

    lemma SentKeepsSetUp(w: Watch, es: seq<Input>, step: nat, n: nat)
      requires step < |prog.steps| && SetUp(w) && watch.controls == w.controls
      requires Sent(w, watch, es, step, n, prog.steps[step].offset, step + 1 == |prog.steps|)
      ensures SetUp(watch) && watch.pending == w.pending && watch.poll == w.poll && watch.permit == w.permit
    {
      hide TimedProgram, MaxProgram, TrackAll;
    }

    /** Counts the action, and moves on to the next step or the next action. */
    method Advance(tl: Modes.Timeline, step: nat, batch: nat, ghost w: Watch) returns (nextStep: nat)
      requires step == w.work.step < |prog.steps| && watch.controls == w.controls && state == Running && !stop
      requires Sent(w, watch, Copies(batch, prog.steps[step].inputs), step, batch, prog.steps[step].offset,
                    step + 1 == |prog.steps|)
      requires step + 1 == |prog.steps| && w.grid.period >= WIDE_PERIOD ==>
                 LastDue(w.grid, batch, prog.steps[step].offset) < Modes.SlotAt(tl.t0, tl.period, tl.k + batch)
      requires RunControls(w) && OnGrid(tl, w.grid, step) && Clean(w.hands, step) && MidAction(tl, w.work)
      requires 1 <= batch && (batch > 1 ==> |prog.steps| == 1) && WithinBudget(w.work, batch) && tl.Next() < endQpc
      requires var after := prog.steps[..if step + 1 == |prog.steps| then 0 else step + 1];
               TrackAll(TrackAll(NOTHING, FlatInputs(prog.steps[..step])), Copies(batch, prog.steps[step].inputs))
               == TrackAll(NOTHING, FlatInputs(after)) && Size(TrackAll(NOTHING, FlatInputs(after))) <= MAX_RELEASE
      requires w.work.granted < UNLIMITED ==> w.work.completed < w.work.granted
      modifies this`actions, this`remaining, tl`k
      ensures RunControls(watch) && OnGrid(tl, watch.grid, nextStep) && Clean(watch.hands, nextStep)
      ensures nextStep == watch.work.step && MidAction(tl, watch.work) && watch.grid.begun > 0
    {
      hide FlatInputs, TrackAll, Copies, Modes.SlotAt;
      if step == 0 { actions := actions + batch; }
      if step + 1 == |prog.steps| {
        nextStep := 0;
        tl.k := tl.k + batch;
        if remaining != UNLIMITED { remaining := (remaining - batch) % WORD; }
      } else {
        nextStep := step + 1;
      }
    }

    /** The step about to be sent is due after the last one. */
    lemma StepRises(tl: Modes.Timeline, step: nat)
      requires SetUp(watch) && OnGrid(tl, watch.grid, step) && step < |prog.steps|
      ensures Rises(watch.grid, prog.steps[step].offset)
    {
      hide TimedProgram, MaxProgram, AllGood, Modes.SlotAt;
      ProgramsAreClean(cfg, layout, freq);
    }

    lemma FirstOffset()
      requires Base() && prog.steps != []
      ensures prog.steps[0].offset == 0
    {
      hide Book, HandsAgree;
      ProgramsAreClean(cfg, layout, freq);
    }

    /** Waits for the deadline of a step. A long wait is cut short for the next report. */
    method AwaitDeadline(deadline: int) returns (next: Next)
      requires Base() && RunControls(watch) && Hinted()
      modifies this`queue, this`posted, this`flag, this`told, this`armed, this`history, this`watch, this`times
      modifies this`nextPublish, waiter.world, waiter
      ensures Base() && RunControls(watch) && TimePassed()
      ensures next == Proceed || next == Again || next == Cut
      ensures next == Proceed ==> waiter.world.clock >= deadline
      ensures SameRun(old(watch), watch) && Quiet(old(watch), watch) && watch.work == old(watch).work
      ensures watch.grid == old(watch).grid && watch.since == old(watch).since
      ensures Hinted()
    {
      hide Base, RunControls;
      var now := OthersActInRun();
      next := Proceed;
      if deadline > now {
        if deadline - now > MsToTicks(100, freq) / 2 && nextPublish < deadline {
          var r := Sleep(nextPublish, PreciseWaiter.Eco);
          Publish(waiter.world.clock, false);
          next := if r == PreciseWaiter.CutOff then Cut else Again;
        } else {
          var r := Sleep(deadline, cfg.precision);
          next := if r == PreciseWaiter.CutOff then Cut else if r == PreciseWaiter.Interrupted then Again else Proceed;
        }
      }
    }

    method Sleep(until: int, precision: PreciseWaiter.Precision) returns (r: PreciseWaiter.WaitResult)
      requires Base() && RunControls(watch)
      modifies waiter.world`clock, waiter.world`fuel, waiter.world`signals, waiter
      ensures Base() && RunControls(watch) && TimePassed()
      ensures r == PreciseWaiter.Reached ==> waiter.world.clock >= until
      ensures waiter.periodHint == old(waiter.periodHint)
    {
      hide Book, HandsAgree, SetUp, RunControls;
      ghost var spun;
      r, spun := waiter.WaitUntil(until, precision);
      Later();
    }

    // -------------------------------------------------------------- the loop of a timed run

    /** Commands that other threads have posted, if the flag is seen. */
    method PollCommands() returns (over: bool)
      requires InRun()
      modifies this`queue, this`posted, this`flag, this`told, this`inHand, this`armed, this`stop, this`emergency
      modifies this`remaining, this`pendingCfg, this`history, this`watch, this`times, waiter.world
      ensures TimePassed() && (over ==> RunOver()) && (!over ==> InRun() && SameRun(old(watch), watch))
      ensures !over ==> watch.hands == old(watch).hands && watch.grid == old(watch).grid
                        && watch.work.step == old(watch).work.step
                        && watch.work.completed == old(watch).work.completed
                        && watch.work.granted >= old(watch).work.granted
      ensures !over ==> watch.poll.done && watch.permit == old(watch).permit
    {
      hide Base, SetUp, RunControls, RunBasics, SameRun;
      over := false;
      ghost var w := watch;
      var now := OthersActInRun();
      SameRunMeans(w, watch);
      ghost var v := watch;
      var set_ := ReadFlag();
      SameRunMeans(v, watch);
      SameRunTransitive(w, v, watch);
      if set_ {
        v := watch;
        var halt := HandleRunCommands();
        if halt {
          FinishStopped();
          return true;
        }
        SameRunMeans(v, watch);
        SameRunTransitive(w, v, watch);
      }
    }

    /** One pass through the loop: commands, the boundary between actions, the wait, the send. */
    method TimedPass(tl: Modes.Timeline, step: nat, first: bool, lastGate: int)
        returns (next: Next, nextStep: nat, stillFirst: bool, gate: int)
      requires TimedAt(tl, Again, step, first, lastGate)
      modifies this, waiter.world, waiter, tl, sender, sender.heldKeys, sender.keyMeta
      modifies sender.shared`mouseMask, sender.shared.keyBits, sender.shared.keyScan
      ensures Base() && TimePassed()
      ensures next == Again ==> InRun() && OnGrid(tl, watch.grid, nextStep) && Clean(watch.hands, nextStep)
                                && nextStep == watch.work.step && MidAction(tl, watch.work)
                                && stillFirst == (watch.grid.begun == 0) && watch.poll.done
                                && GateKnown(gate, watch.permit)
      ensures next == Over ==> RunOver()
      ensures next == IntoMax ==> InRun() && Clean(watch.hands, 0) && watch.work.step == 0 && cfg.maxMode
                                  && watch.poll.done
      ensures next != Proceed
      ensures next == Again ==> Hinted()
    {
      hide Book, TimedProgram, MaxProgram, HandsAgree, SetUp, RunControls, OnGrid, Clean, Recent, MsToTicks;
      nextStep, stillFirst, gate := step, first, lastGate;
      var over := PollCommands();
      if over { return Over, step, first, gate; }
      if step == 0 {
        next, gate := AtBoundary(tl, first, gate);
        if next != Proceed { return; }
      }
      var fired;
      next, nextStep, fired := SendOnTime(tl, step);
      if fired { stillFirst := false; }
    }

    /** Waits for the deadline of a step and sends it. */
    method SendOnTime(tl: Modes.Timeline, step: nat) returns (next: Next, nextStep: nat, fired: bool)
      requires InRun() && OnGrid(tl, watch.grid, step) && Clean(watch.hands, step)
      requires step == watch.work.step < |prog.steps| && MidAction(tl, watch.work)
      requires tl.Next() < endQpc && (step == 0 ==> remaining > 0 && pendingCfg == None && watch.since.judged)
      requires watch.poll.done && (step == 0 ==> Recent(watch.permit, MsToTicks(2, freq)))
      requires Hinted()
      modifies this`queue, this`posted, this`flag, this`told, this`armed, this`nextPublish, this`actions
      modifies this`remaining, this`history, this`watch, this`times, waiter.world, waiter, tl`k, sender
      modifies sender.heldKeys, sender.keyMeta, sender.shared`mouseMask, sender.shared.keyBits, sender.shared.keyScan
      ensures Base() && TimePassed() && (next == Again || next == Cut)
      ensures next == Again ==> InRun() && OnGrid(tl, watch.grid, nextStep) && Clean(watch.hands, nextStep)
                                && nextStep == watch.work.step && MidAction(tl, watch.work)
      ensures next == Again ==> if fired then watch.grid.begun > 0 else watch.grid.begun == old(watch).grid.begun
      ensures watch.poll == old(watch).poll && watch.permit == old(watch).permit
      ensures Hinted()
    {
      hide Base, RunControls, OnGrid, Clean, Recent, MsToTicks;
      nextStep, fired := step, false;
      next := AwaitDeadline(tl.Next() + prog.steps[step].offset);
      if next == Proceed {
        var fire := OthersActInRun();
        nextStep := Fire(tl, step, fire);
        next, fired := Again, true;
      }
    }

    /** Where a timed run stands between two passes through its loop. */
    ghost predicate TimedAt(tl: Modes.Timeline, next: Next, step: nat, first: bool, gate: int)
      reads this`history, this`watch, this`state, this`cfg, this`pendingCfg, this`prog, this`maxProg
      reads this`times, waiter.world`clock, waiter.world`passes, waiter.world`readings, wakeUp`waits
      reads this`queue, this`posted, this`flag, this`told, this`inHand, this`armed, this`stop, this`remaining
      reads this`endQpc, this`actions, this`missed, tl, sender, sender.heldKeys, sender.keyMeta, sender.shared
      reads sender.shared.keyBits, sender.shared.keyScan
      reads waiter`periodHint
    {
      match next
      case Again =>
        && InRun() && OnGrid(tl, watch.grid, step) && Clean(watch.hands, step)
        && step == watch.work.step && MidAction(tl, watch.work) && first == (watch.grid.begun == 0)
        && Marked(OnTimeline(tl.k, watch.grid.mid, actions, missed)) && GateKnown(gate, watch.permit)
        && Hinted()
      case Over => RunOver()
      case IntoMax => InRun() && Clean(watch.hands, 0) && watch.work.step == 0 && cfg.maxMode && watch.poll.done
      case Cut => Base()
      case Proceed => false
    }

    method RunTimed() returns (live: bool)
      requires InRun() && Clean(watch.hands, 0) && watch.work.step == 0
      requires watch.grid == FreshStart(watch.grid) && actions == missed == 0 && !cfg.maxMode && watch.poll.done
      modifies this, waiter.world, waiter, sender, sender.heldKeys, sender.keyMeta
      modifies sender.shared`mouseMask, sender.shared.keyBits, sender.shared.keyScan
      ensures Base() && TimePassed() && (live ==> RunOver())
    {
      hide InRun, RunOver, Base, Clean, TimedAt, FreshStart;
      var tl := new Modes.Timeline();
      var next := StartTimed(tl);
      var step, first, gate := 0, true, 0;
      while next == Again
        invariant TimedAt(tl, next, step, first, gate) && TimePassed()
        decreases next == Again, waiter.world.fuel
      {
        next, step, first, gate := TimedRound(tl, step, first, gate);
      }
      TimedEnds(tl, next, step, first, gate);
      live := next == Over;
      if next == IntoMax { live := RunMax(); }
    }

    lemma TimedEnds(tl: Modes.Timeline, next: Next, step: nat, first: bool, gate: int)
      requires TimedAt(tl, next, step, first, gate) && next != Again
      ensures Base() && (next == Over ==> RunOver())
      ensures next == IntoMax ==> InRun() && Clean(watch.hands, 0) && watch.work.step == 0 && cfg.maxMode
                                  && watch.poll.done
    {
      hide Base;
    }

    method StartTimed(tl: Modes.Timeline) returns (next: Next)
      requires InRun() && Clean(watch.hands, 0) && watch.work.step == 0
      requires watch.grid == FreshStart(watch.grid) && actions == missed == 0 && !cfg.maxMode && watch.poll.done
      modifies this`queue, this`posted, this`flag, this`told, this`armed, this`history, this`watch, this`times, waiter
      modifies tl, waiter.world`clock, waiter.world`fuel, waiter.world`passes
      ensures TimedAt(tl, next, 0, true, 0) && TimePassed()
    {
      hide Base, RunControls, OnGrid, Clean, TimedAt;
      StartGrid(tl);
      next := TimedTurn(tl, 0, true, 0);
    }

    /** A pass through the loop, and whether another one begins. */
    method TimedRound(tl: Modes.Timeline, step: nat, first: bool, lastGate: int)
        returns (next: Next, nextStep: nat, stillFirst: bool, gate: int)
      requires TimedAt(tl, Again, step, first, lastGate)
      modifies this, waiter.world, waiter, tl, sender, sender.heldKeys, sender.keyMeta
      modifies sender.shared`mouseMask, sender.shared.keyBits, sender.shared.keyScan
      ensures TimedAt(tl, next, nextStep, stillFirst, gate) && TimePassed()
      ensures next == Again ==> waiter.world.fuel < old(waiter.world.fuel)
    {
      hide Base, RunControls, OnGrid, Clean, MidAction, Marked, InRun, RunOver;
      next, nextStep, stillFirst, gate := TimedPass(tl, step, first, lastGate);
      if next == Again { next := TimedTurn(tl, nextStep, stillFirst, gate); }
    }

    /** The loop makes another pass; the history has the code's own counters and what is held. */
    method TimedTurn(tl: Modes.Timeline, step: nat, ghost first: bool, ghost gate: int) returns (next: Next)
      requires InRun() && OnGrid(tl, watch.grid, step) && Clean(watch.hands, step)
      requires step == watch.work.step && MidAction(tl, watch.work) && first == (watch.grid.begun == 0)
      requires watch.poll.done && GateKnown(gate, watch.permit) && Hinted()
      modifies this`history, this`watch, this`times, waiter.world`fuel, waiter.world`passes
      ensures TimedAt(tl, next, step, first, gate) && waiter.world.fuel <= old(waiter.world.fuel)
      ensures next == if waiter.world.fuel < old(waiter.world.fuel) then Again else Cut
    {
      hide RunControls, Base, Rising, FlatInputs, TrackAll;
      RunMeans();
      StateAgrees();
      var live := RunTurn(OnTimeline(tl.k, watch.grid.mid, actions, missed));
      next := if live then Again else Cut;
    }

    method StartGrid(tl: Modes.Timeline)
      requires InRun() && Clean(watch.hands, 0) && watch.work.step == 0
      requires watch.grid == FreshStart(watch.grid) && actions == missed == 0 && !cfg.maxMode && watch.poll.done
      modifies this`queue, this`posted, this`flag, this`told, this`armed, this`history, this`watch, this`times
      modifies waiter.world`clock, waiter, tl
      ensures InRun() && OnGrid(tl, watch.grid, 0) && Clean(watch.hands, 0) && watch.work.step == 0
      ensures TimePassed() && MidAction(tl, watch.work) && watch.grid.begun == 0 && watch.poll.done
      ensures Hinted()
    {
      hide Base, RunControls, Clean;
      var now := OthersActInRun();
      AnchorAt(tl, now, 0);
      waiter.SetPeriodHint(tl.period.Floor);
    }

    /** A new epoch of the timeline. */
    method AnchorAt(tl: Modes.Timeline, now: int, ghost lastK: nat)
      requires Base() && RunControls(watch) && watch.work.step == 0 && !watch.grid.mid
      requires lastK == watch.grid.k && watch.grid.epochs + lastK == actions + missed && !cfg.maxMode
      requires now == waiter.world.clock && (watch.grid.anchors == 0 || watch.since.paused)
      modifies this`history, this`watch, this`times, tl
      ensures Base() && RunControls(watch) && OnGrid(tl, watch.grid, 0)
      ensures watch.hands == old(watch).hands && watch.work == old(watch).work && watch.controls == old(watch).controls
      ensures watch.grid.begun == old(watch).grid.begun
      ensures watch.poll == old(watch).poll && watch.permit == old(watch).permit
    {
      hide Base, RunControls, Period;
      RateIsFine();
      RunMeans();
      tl.Anchor(now, Period(freq, cfg.cps));
      RecordGridInRun(Anchored(now, cfg.cps, tl.period, lastK));
      SlotZero(now, tl.period);
    }

    lemma RunMeans()
      requires RunControls(watch)
      ensures watch.work.live && watch.grid.end == endQpc && (watch.controls.blocked ==> stop) && Small(watch.hands)
      ensures stop == watch.work.stopped && remaining == watch.work.left && watch.asked == None
    {
    }

    /** What happens to the timeline and to held input leaves set-up and controls as they were. */
    lemma KeepsRun(w: Watch)
      requires RunControls(w) && watch.grid.end == w.grid.end
      requires watch == w.(hands := watch.hands, grid := watch.grid, since := watch.since, permit := watch.permit)
      requires Small(watch.hands)
      ensures RunControls(watch) && (SetUp(w) ==> SetUp(watch))
    {
      hide Programs, Configs, Shared;
    }

    /** What is known of the rate and of the record in a run. */
    lemma RateIsFine()
      requires Base()
      ensures cfg.cps > 0.0 && Period(freq, cfg.cps) >= 0.5 && watch.work.cfg == cfg
      ensures watch.freq == freq >= 500_000 && watch.pending == pendingCfg
    {
      hide Book, HandsAgree, TimedProgram, MaxProgram, AllGood, Period;
      PeriodOfHalf(cfg, freq);
    }

    /** What happens to the timeline during a run. */
    ghost method RecordGridInRun(e: Observation)
      requires Base() && RunControls(watch)
      requires (e.Anchored? || e.Rerated? || e.Missed?) && TimeRule(e, waiter.world.clock)
      requires WorkRule(watch.work, e) && GridRule(watch.grid, e) && SinceRule(watch, e) && OrderRule(watch, e)
      modifies this`history, this`watch, this`times
      ensures Base() && RunControls(watch)
      ensures watch == old(watch).(grid := ObserveGrid(old(watch).grid, e), since := watch.since,
                                   permit := watch.permit)
      ensures watch.permit == if e.Missed? then old(watch).permit.(boundary := e.now) else old(watch).permit
      ensures e.Missed? ==> watch.since.judged
    {
      hide Book, HandsAgree, SetUp, RunControls, WorkRule, GridRule, SinceRule, OrderRule, TimeRule, ObserveGrid;
      RunMeans();
      GridKeepsEnd(watch.grid, e);
      ghost var w := watch;
      RecordGrid(e);
      KeepsRun(w);
    }

    // -------------------------------------------------------------- MAX mode

    method PrepareBatch() returns (batch: seq<Input>, copies: nat)
      ensures copies == BatchCap(cfg) && batch == Copies(copies, maxProg.flat)
    {
      copies := if cfg.maxBatchActions < 1 then 1 else if cfg.maxBatchActions > MAX_COPIES then MAX_COPIES
                else cfg.maxBatchActions;
      batch := CopiesOf(copies, maxProg.flat);
    }

    /** A configuration that arrived during the run; one that leaves MAX mode ends the run. */
    method TakePendingInMax() returns (over: bool)
      requires InRun() && watch.work.step == 0 && pendingCfg.Some? && watch.since.fast && watch.poll.done
      modifies this`cfg, this`pendingCfg, this`prog, this`maxProg, this`history, this`watch, this`times
      ensures !over ==> watch.since.fast && watch.poll == old(watch).poll && watch.permit == old(watch).permit
      ensures if over then RunOver() else InRun() && watch.work.step == 0 && cfg.maxMode
      ensures watch.hands == old(watch).hands && (!over ==> pendingCfg == None)
    {
      hide Base, RunControls;
      NextConfig();
      over := !cfg.maxMode;
      if over {
        RunMeans();
        StateAgrees();
        Finish(LeftMax);
      }
    }

    /** Between two batches: nothing is held unless Windows refused something, and the batch is up to date. */
    ghost predicate InMax(batch: seq<Input>, copies: nat)
      reads this`history, this`watch, this`state, this`cfg, this`pendingCfg, this`prog, this`maxProg
      reads this`times, waiter.world`clock, waiter.world`passes, waiter.world`readings, wakeUp`waits
      reads this`queue, this`posted, this`flag, this`told, this`inHand, this`armed, this`stop, this`remaining
      reads this`endQpc, sender, sender.heldKeys, sender.keyMeta, sender.shared, sender.shared.keyBits
      reads sender.shared.keyScan
    {
      && InRun() && watch.work.step == 0 && NothingHeld(watch.hands) && cfg.maxMode
      && copies == BatchCap(cfg) && batch == Copies(copies, maxProg.flat)
    }

    method OthersActInMax(batch: seq<Input>, copies: nat) returns (now: int)
      requires InMax(batch, copies)
      modifies this`queue, this`posted, this`flag, this`told, this`armed, this`history, this`watch, this`times
      modifies waiter.world`clock
      ensures InMax(batch, copies) && now == waiter.world.clock >= old(waiter.world.clock)
      ensures watch.since == old(watch).since && watch.poll == old(watch).poll && watch.permit == old(watch).permit
    {
      hide Base, RunControls;
      now := OthersActInRun();
    }

    /** The gate, checked every millisecond. */
    method MaxGate(batch: seq<Input>, copies: nat, gate: int, now: int) returns (next: Next, newGate: int)
      requires InMax(batch, copies) && watch.since.look != NoLook && watch.poll.done && GateKnown(gate, watch.permit)
      requires now == waiter.world.clock == watch.permit.boundary
      modifies this`queue, this`posted, this`flag, this`told, this`inHand, this`armed, this`state, this`stop
      modifies this`emergency, this`remaining, this`pendingCfg, this`nextPublish, this`history, this`watch, this`times
      modifies waiter.world, sender, sender.heldKeys, sender.keyMeta, sender.shared`mouseMask, sender.shared.keyBits
      modifies sender.shared.keyScan
      ensures TimePassed() && (next == Proceed || next == Over || next == Cut)
      ensures next == Proceed ==> InMax(batch, copies) && watch.since.look != NoLook && watch.poll.done
      ensures next == Proceed ==> GateKnown(newGate, watch.permit) && Recent(watch.permit, MsToTicks(1, freq))
      ensures next == Over ==> RunOver()
      ensures next == Cut ==> Base()
    {
      hide Base, RunControls, SameRun, MsToTicks, Copies;
      newGate := gate;
      next := Proceed;
      if now - gate >= MsToTicks(1, freq) {
        newGate := now;
        var open := CheckGate();
        if !open {
          ghost var w := watch;
          var live, resume := PauseUntilGate();
          SameRunMeans(w, watch);
          if !live { return Cut, newGate; }
          if !resume {
            FinishStopped();
            return Over, newGate;
          }
        }
      }
    }

    /** Events sent may be more than the hook has seen go by; then nothing is sent this time round. */
    method Backlogged(ghost batch: seq<Input>, ghost copies: nat) returns (wait: bool)
      requires InMax(batch, copies)
      modifies this`history, this`watch, this`times, waiter.world`readings
      ensures InMax(batch, copies) && watch.poll == old(watch).poll
      ensures watch.permit == old(watch).permit.(room := watch.permit.room)
      ensures !wait ==> cfg.maxInflight == 0 || watch.permit.room
      ensures old(watch).since.look != NoLook ==> watch.since.look == old(watch).since.look
    {
      hide Written, Programs, HandsAgree, AllGood, Configs, Shared, Copies;
      FreqIsSet();
      StateAgrees();
      var inflight := waiter.world.ReadBacklog();
      StillWritten();
      RecordRead(World.BacklogRead(inflight));
      wait := cfg.maxInflight != 0 && inflight > cfg.maxInflight;
    }

    ghost method FinishTimeUp(batch: seq<Input>, copies: nat)
      requires InMax(batch, copies) && waiter.world.clock >= endQpc && watch.since.fast
      modifies this`history, this`watch, this`times
      ensures RunOver()
    {
      hide Book, Programs, HandsAgree, SetUp, Copies;
      Finish(ClockUp(waiter.world.clock));
    }

    ghost method FinishExhausted(batch: seq<Input>, copies: nat)
      requires InMax(batch, copies) && remaining == 0
      modifies this`history, this`watch, this`times
      ensures RunOver()
    {
      hide Book, Programs, HandsAgree, SetUp, Copies;
      Finish(Exhausted);
    }

    /** There is nothing to send in MAX mode. */
    ghost method FinishMax()
      requires InRun() && cfg.maxMode && !maxProg.Ok()
      modifies this`history, this`watch, this`times
      ensures RunOver()
    {
      hide Book, TimedProgram, MaxProgram, HandsAgree, Configs, Shared;
      Finish(NoProgram);
    }

    method FireBatch(batch: seq<Input>, copies: nat, fire: int)
      requires InMax(batch, copies) && watch.since.look != NoLook && fire == waiter.world.clock && watch.poll.done
      requires Recent(watch.permit, MsToTicks(1, freq)) && (cfg.maxInflight == 0 || watch.permit.room)
      modifies this`actions, this`remaining, this`history, this`watch, this`times, sender, sender.heldKeys
      modifies sender.keyMeta, sender.shared`mouseMask, sender.shared.keyBits, sender.shared.keyScan
      modifies waiter.world`clock
      ensures InMax(batch, copies) && waiter.world.clock >= old(waiter.world.clock)
      ensures watch.poll == old(watch).poll && watch.permit == old(watch).permit
    {
      hide Base, Copies, TrackAll, MaxProgram, RunControls, BatchSize, BatchCap;
      hide Spend, Goes, StopsRun, WithinBudget, Recent, MsToTicks;
      var n := if remaining == UNLIMITED || copies < remaining then copies else remaining;
      RateIsFine();
      FitsBudget(n, copies);
      ghost var w := watch;
      SendBatchReady(batch, copies, n, fire);
      CountBatch(n, w);
    }

    /** The batch goes out; set-up and record stay as they should be. */
    method SendBatchReady(batch: seq<Input>, copies: nat, n: nat, fire: int)
      requires Base() && RunControls(watch) && state == Running && !stop && inHand == []
      requires watch.poll.done && watch.permit.open && Recent(watch.permit, MsToTicks(1, watch.freq))
      requires watch.work.cfg.maxInflight == 0 || watch.permit.room
      requires watch.work.step == 0 && watch.work.cfg.maxMode && NothingHeld(watch.hands)
      requires fire == waiter.world.clock && watch.since.look != NoLook
      requires batch == Copies(copies, maxProg.flat) && n <= copies <= MAX_COPIES && n == BatchSize(watch.work)
      modifies this`history, this`watch, this`times, sender, sender.heldKeys, sender.keyMeta
      modifies sender.shared`mouseMask, sender.shared.keyBits, sender.shared.keyScan, waiter.world`clock
      ensures Base() && waiter.world.clock >= old(waiter.world.clock) && watch.seen == old(watch).seen
      ensures watch.controls == old(watch).controls && watch.grid == old(watch).grid && watch.asked == old(watch).asked
      ensures watch.poll == old(watch).poll && watch.permit == old(watch).permit
      ensures watch.work == old(watch).work.(completed := old(watch).work.completed + n,
                                             left := Spend(old(watch).work.left, n))
      ensures NothingHeld(watch.hands) && watch.hands.state == Running
    {
      hide Book, Programs, Configs, Shared, HandsAgree, Copies, TrackAll, MaxProgram, RunControls, BatchSize, BatchCap;
      hide Spend, Goes, StopsRun, Recent, MsToTicks;
      MaxIsClean(n);
      FreqIsSet();
      SendBatch(batch, copies, n, fire);
    }

    lemma FitsBudget(n: nat, copies: nat)
      requires RunControls(watch) && watch.work.cfg == cfg && copies == BatchCap(cfg)
      requires n == if remaining == UNLIMITED || copies < remaining then copies else remaining
      ensures n == BatchSize(watch.work) && n <= copies <= MAX_COPIES
    {
    }

    /** Counts the actions of a batch. */
    method CountBatch(n: nat, ghost w: Watch)
      requires RunControls(w) && watch.controls == w.controls && watch.grid == w.grid && Small(watch.hands)
      requires watch.work == w.work.(completed := w.work.completed + n, left := Spend(w.work.left, n))
      requires watch.asked == w.asked && watch.poll == w.poll && watch.seen == w.seen
      requires remaining != UNLIMITED ==> n <= remaining
      modifies this`actions, this`remaining
      ensures RunControls(watch)
    {
      actions := actions + n;
      if remaining != UNLIMITED { remaining := (remaining - n) % WORD; }
    }

    lemma MaxIsClean(n: nat)
      requires Programs(watch.work.prog, watch.work.flat, watch.work.ok, watch.work.maxOk, watch.work.cfg)
      ensures watch.work.flat == maxProg.flat && watch.work.cfg == cfg
      ensures TrackAll(NOTHING, Copies(n, maxProg.flat)) == NOTHING
    {
      hide TimedProgram, MaxProgram, TrackAll, Copies;
      BatchIsClean(cfg, layout, freq, n);
    }

    /** Commands and a new configuration, before the next batch. */
    method MaxCommands(batch: seq<Input>, copies: nat) returns (over: bool, newBatch: seq<Input>, newCopies: nat)
      requires InMax(batch, copies) && watch.since.fast
      modifies this`queue, this`posted, this`flag, this`told, this`inHand, this`armed, this`stop, this`emergency
      modifies this`remaining, this`pendingCfg, this`cfg, this`prog, this`maxProg, this`history, this`watch
      modifies this`times, waiter.world
      ensures TimePassed() && (over ==> RunOver()) && (!over ==> InMax(newBatch, newCopies) && watch.since.fast)
      ensures !over ==> pendingCfg == None && watch.poll.done && watch.permit == old(watch).permit
    {
      hide Book, TimedProgram, MaxProgram, HandsAgree, SetUp, RunControls, Copies, Base, SameRun;
      newBatch, newCopies := batch, copies;
      ghost var w := watch;
      over := PollCommands();
      if !over { SameRunMeans(w, watch); }
      if !over && pendingCfg.Some? {
        over := TakePendingInMax();
        if !over { newBatch, newCopies := PrepareBatch(); }
      }
    }

    /** One pass through the loop of MAX mode. */
    method MaxPass(batch: seq<Input>, copies: nat, gate: int)
        returns (next: Next, newBatch: seq<Input>, newCopies: nat, newGate: int)
      requires InMax(batch, copies) && Marked(AtFullSpeed) && watch.since.fast && GateKnown(gate, watch.permit)
      modifies this`queue, this`posted, this`flag, this`told, this`inHand, this`armed, this`state, this`stop
      modifies this`emergency, this`remaining, this`pendingCfg, this`cfg, this`prog, this`maxProg, this`actions
      modifies this`nextPublish, this`history, this`watch, this`times, waiter.world, sender, sender.heldKeys
      modifies sender.keyMeta, sender.shared`mouseMask, sender.shared.keyBits, sender.shared.keyScan
      ensures TimePassed() && (next == Again || next == Over || next == Cut)
      ensures next == Again ==> InMax(newBatch, newCopies) && watch.poll.done && GateKnown(newGate, watch.permit)
      ensures next == Over ==> RunOver()
      ensures next == Cut ==> Base()
    {
      hide Base, RunOver, InMax;
      newGate := gate;
      var over;
      over, newBatch, newCopies := MaxCommands(batch, copies);
      if over { return Over, newBatch, newCopies, gate; }
      if remaining == 0 {
        FinishExhausted(newBatch, newCopies);
        return Over, newBatch, newCopies, gate;
      }
      var now := OthersActInMax(newBatch, newCopies);
      if now >= endQpc {
        FinishTimeUp(newBatch, newCopies);
        return Over, newBatch, newCopies, gate;
      }
      LookInMax(newBatch, newCopies);
      next, newGate := MaxGate(newBatch, newCopies, gate, now);
      if next != Proceed { return; }
      next := Again;
      SendInMax(newBatch, newCopies, now);
    }

    /** The batch goes out unless there are too many events on their way. */
    method SendInMax(batch: seq<Input>, copies: nat, looked: int)
      requires InMax(batch, copies) && watch.since.look != NoLook && watch.poll.done
      requires Recent(watch.permit, MsToTicks(1, freq))
      modifies this`queue, this`posted, this`flag, this`told, this`armed, this`actions, this`remaining, this`nextPublish
      modifies this`history, this`watch, this`times, waiter.world`clock, waiter.world`readings, sender
      modifies sender.heldKeys, sender.keyMeta, sender.shared`mouseMask, sender.shared.keyBits, sender.shared.keyScan
      ensures InMax(batch, copies) && watch.poll == old(watch).poll && watch.permit.at == old(watch).permit.at
      ensures waiter.world.clock >= old(waiter.world.clock)
    {
      hide InMax, MsToTicks;
      var now := looked;
      var wait := Backlogged(batch, copies);
      if !wait {
        now := OthersActInMax(batch, copies);
        FireBatch(batch, copies, now);
      }
      Publish(now, false);
    }

    /** The time limit has just been looked at. */
    ghost method LookInMax(batch: seq<Input>, copies: nat)
      requires InMax(batch, copies) && waiter.world.clock < endQpc && remaining > 0 && pendingCfg == None
      modifies this`history, this`watch, this`times
      ensures InMax(batch, copies) && watch.since.look != NoLook && watch.poll == old(watch).poll
      ensures watch.permit == old(watch).permit.(boundary := waiter.world.clock, room := false)
    {
      hide Book, TimedProgram, MaxProgram, Configs, Shared, HandsAgree, Copies;
      RecordLook();
    }

    method MaxTurn(batch: seq<Input>, copies: nat) returns (live: bool)
      requires InMax(batch, copies) && watch.poll.done
      modifies this`history, this`watch, this`times, waiter.world`fuel, waiter.world`passes
      ensures InMax(batch, copies) && waiter.world.fuel == old(waiter.world.fuel) - (if live then 1 else 0)
      ensures live ==> Marked(AtFullSpeed) && watch.since.fast
      ensures watch.permit == old(watch).permit
    {
      hide RunControls, Base, Copies;
      RunMeans();
      StateAgrees();
      NoSteps(watch.work.prog[..0]);
      live := RunTurn(AtFullSpeed);
    }

    method RunMax() returns (live: bool)
      requires InRun() && Clean(watch.hands, 0) && watch.work.step == 0 && cfg.maxMode && watch.poll.done
      modifies this`queue, this`posted, this`flag, this`told, this`inHand, this`armed, this`state, this`stop
      modifies this`emergency, this`remaining, this`pendingCfg, this`cfg, this`prog, this`maxProg, this`actions
      modifies this`nextPublish, this`history, this`watch, this`times, waiter.world, sender, sender.heldKeys
      modifies sender.keyMeta, sender.shared`mouseMask, sender.shared.keyBits, sender.shared.keyScan
      ensures Base() && TimePassed() && (live ==> RunOver())
    {
      hide Base, InRun, Clean, InMax, GateKnown, HandsAgree;
      if !maxProg.Ok() {
        FinishMax();
        return true;
      }
      var batch, copies := StartMax();
      var gate, next := 0, Again;
      live := MaxTurn(batch, copies);
      GateAtFirst();
      while live && next == Again
        invariant live && next == Again ==> Marked(AtFullSpeed) && watch.since.fast
        invariant TimePassed() && next != Proceed && next != IntoMax
        invariant next == Again ==> InMax(batch, copies) && GateKnown(gate, watch.permit)
        invariant next == Over ==> RunOver()
        invariant next == Cut ==> Base()
        decreases live && next == Again, waiter.world.fuel
      {
        next, batch, copies, gate := MaxPass(batch, copies, gate);
        if next == Again { live := MaxTurn(batch, copies); }
      }
      if next != Over {
        live := false;
        if next == Again { MaxIsBase(batch, copies); }
      }
    }

    method StartMax() returns (batch: seq<Input>, copies: nat)
      requires InRun() && Clean(watch.hands, 0) && watch.work.step == 0 && cfg.maxMode
      ensures InMax(batch, copies)
    {
      hide Base, RunControls, Copies;
      NoSteps(prog.steps[..0]);
      batch, copies := PrepareBatch();
    }

    lemma GateAtFirst()
      ensures GateKnown(0, watch.permit)
    {
    }

    lemma MaxIsBase(batch: seq<Input>, copies: nat)
      requires InMax(batch, copies)
      ensures Base()
    {
      hide Base, RunControls, Copies;
    }

    // -------------------------------------------------------------- one run

    /** A run, from the start to the clean-up. If it is not cut off, the engine is idle again afterwards. */
    method DoRun(limits: Modes.RunLimits) returns (live: bool)
      requires Idle() && inHand == [] && !watch.controls.blocked && !watch.controls.quitting
      requires (watch.controls.holdOnly ==> watch.controls.edgeDown) && watch.asked == Some(limits) && watch.poll.heard
      modifies this, waiter.world, waiter, sender, sender.heldKeys, sender.keyMeta
      modifies sender.shared`mouseMask, sender.shared.keyBits, sender.shared.keyScan
      ensures Base() && TimePassed() && (live ==> Idle() && inHand == [] && (watch.controls.quitting ==> Quit in queue))
      ensures live && old(prog.Ok()) ==> state == (if armed then Armed else Disarmed) && watch.asked == None
      ensures live && !old(prog.Ok()) ==> watch == old(watch) && prog == old(prog)
      ensures live ==> watch.poll.heard
    {
      hide Book, Base, RunControls, Clean, InRun, RunOver;
      if !prog.Ok() { return true; }
      BeginRun(limits);
      if cfg.maxMode { live := RunMax(); } else { live := RunTimed(); }
      if live { EndRun(); }
    }

    method BeginRun(limits: Modes.RunLimits)
      requires Idle() && inHand == [] && !watch.controls.blocked && !watch.controls.quitting
      requires (watch.controls.holdOnly ==> watch.controls.edgeDown) && watch.asked == Some(limits) && watch.poll.heard
      modifies this`stop, this`emergency, this`remaining, this`endQpc, this`actions, this`missed, this`state
      modifies this`queue, this`posted, this`flag, this`told, this`armed, this`nextPublish, this`history, this`watch
      modifies this`times, waiter.world`clock
      ensures InRun() && Clean(watch.hands, 0) && watch.work.step == 0 && TimePassed()
      ensures watch.grid == FreshStart(watch.grid) && actions == missed == 0 && watch.poll.done
      ensures watch.grid.limited == (limits.durationMs > 0)
      ensures watch.grid.limited ==> watch.grid.ticks == MsToTicks(limits.durationMs, freq)
      ensures watch.work.granted == if limits.maxActions != 0 then limits.maxActions else UNLIMITED
      ensures if limits.durationMs == 0 then endQpc == NO_END
              else old(waiter.world.clock) <= endQpc - MsToTicks(limits.durationMs, freq) <= waiter.world.clock
    {
      hide Base, Idle, RunControls, Clean, InRun, MsToTicks, Book, Written, Accepted, Fold, Timely;
      var now := IdleClock();
      SetLimits(limits, now);
      IdleMeans();
      EnterRun(limits);
      RunBegins();
      Publish(now, true);
    }

    method SetLimits(limits: Modes.RunLimits, now: int)
      modifies this`stop, this`emergency, this`remaining, this`endQpc, this`actions, this`missed
      ensures !stop && !emergency && actions == missed == 0
      ensures remaining == if limits.maxActions != 0 then limits.maxActions else UNLIMITED
      ensures endQpc == if limits.durationMs > 0 then now + MsToTicks(limits.durationMs, freq) else NO_END
    {
      stop, emergency, actions, missed := false, false, 0, 0;
      remaining := if limits.maxActions != 0 then limits.maxActions else UNLIMITED;
      endQpc := if limits.durationMs > 0 then now + MsToTicks(limits.durationMs, freq) else NO_END;
    }

    lemma IdleMeans()
      requires Idle()
      ensures Base() && !watch.work.live && watch.work.step == 0 && NoneDue(watch)
      ensures watch.hands.fits ==> watch.hands.held == NOTHING
    {
    }

    method EnterRun(ghost limits: Modes.RunLimits)
      requires Base() && !watch.work.live && !watch.controls.blocked && watch.asked == Some(limits)
      requires watch.poll.heard && watch.poll.due <= |watch.seen|
      requires endQpc == if limits.durationMs > 0 then waiter.world.clock + MsToTicks(limits.durationMs, freq)
                         else NO_END
      modifies this`state, this`history, this`watch, this`times
      ensures Base() && state == Running && watch.controls == old(watch).controls && watch.asked == None
      ensures watch.grid == NO_GRID.(limited := limits.durationMs > 0, ticks := MsToTicks(limits.durationMs, freq),
                                     end := endQpc)
      ensures var w := watch.work;
              w.live && !w.stopped && w.step == w.completed == 0
              && w.granted == w.left == if limits.maxActions != 0 then limits.maxActions else UNLIMITED
      ensures watch.hands.fits == old(watch).hands.fits && watch.hands.held == old(watch).hands.held
      ensures watch.poll == old(watch).poll.(done := true) && watch.permit.open && watch.seen == old(watch).seen
    {
      hide Base, MsToTicks;
      RecordStarted(limits);
      SetState(Running);
    }

    lemma RunBegins()
      requires Base() && state == Running && !stop && inHand == [] && watch.work.live && watch.grid.end == endQpc
      requires !watch.controls.blocked && !watch.controls.quitting
      requires watch.controls.holdOnly ==> watch.controls.edgeDown
      requires watch.work.completed == 0 && remaining == watch.work.granted == watch.work.left
      requires !watch.work.stopped && watch.asked == None && watch.permit.open && watch.poll.heard && NoneDue(watch)
      requires watch.work.step == 0 && (watch.hands.fits ==> watch.hands.held == NOTHING)
      ensures InRun() && Clean(watch.hands, 0)
    {
      hide Base;
      NoSteps(prog.steps[..0]);
    }

    method IdleClock() returns (t: int)
      requires Idle()
      modifies waiter.world`clock, this`queue, this`posted, this`flag, this`told, this`armed, this`history, this`watch
      modifies this`times
      ensures Idle() && TimePassed() && t == waiter.world.clock
      ensures OthersOnly(old(watch), watch) && old(queue) <= queue
    {
      hide Book, Programs, HandsAgree;
      t := Clock();
    }

    ghost method RecordStarted(l: Modes.RunLimits)
      requires Base() && !watch.work.live && watch.asked == Some(l)
      requires watch.poll.heard && watch.poll.due <= |watch.seen|
      requires endQpc == if l.durationMs > 0 then waiter.world.clock + MsToTicks(l.durationMs, freq) else NO_END
      modifies this`history, this`watch, this`times
      ensures Base()
      ensures var most := if l.maxActions != 0 then l.maxActions else UNLIMITED;
              watch == old(watch).(
                work := old(watch).work.(step := 0, live := true, completed := 0, granted := most, left := most,
                                         stopped := false),
                grid := NO_GRID.(limited := l.durationMs > 0, ticks := MsToTicks(l.durationMs, freq), end := endQpc),
                asked := None, since := watch.since, poll := old(watch).poll.(done := true),
                permit := Permit(true, 0, 0, false))
    {
      hide Book, Programs, HandsAgree, MsToTicks;
      FreqIsSet();
      Record(Started(l, MsToTicks(l.durationMs, freq), endQpc));
    }

    /** Everything is released, and the engine is Armed or Disarmed as the flag now says. */
    method EndRun()
      requires RunOver()
      modifies this`state, this`queue, this`posted, this`flag, this`told, this`armed, this`nextPublish, this`cfg
      modifies this`pendingCfg, this`prog, this`maxProg, this`history, this`watch, this`times, waiter.world`clock
      modifies sender, sender.heldKeys, sender.keyMeta, sender.shared`mouseMask, sender.shared.keyBits
      modifies sender.shared.keyScan
      ensures Idle() && TimePassed() && inHand == [] && (watch.controls.quitting ==> Quit in queue)
      ensures state == (if armed then Armed else Disarmed) && watch.hands.held == Freed(old(watch).hands.held)
      ensures cfg == if old(pendingCfg).Some? then old(pendingCfg).value else old(cfg)
      ensures watch.asked == None && watch.poll.heard
    {
      hide Base, Freed, Configure, Small;
      var end := Settle();
      Publish(end, true);
      if pendingCfg.Some? { UsePending(); }
    }

    /** The waiting configuration comes into use. */
    method UsePending()
      requires Base() && pendingCfg.Some? && watch.work.step == 0
      modifies this`cfg, this`pendingCfg, this`prog, this`maxProg, this`history, this`watch, this`times
      ensures Base() && cfg == old(pendingCfg).value && pendingCfg == None
      ensures watch.work == Configure(old(watch).work, cfg, prog, maxProg)
      ensures watch.work.step == 0 && watch.work.live == old(watch).work.live
      ensures watch == old(watch).(work := watch.work, pending := None,
                                   controls := old(watch).controls.(params := cfg.mode),
                                   since := old(watch).since.(look := NoLook, judged := false))
    {
      hide Base, Most, InRange, IsHold;
      var c := TakeConfig();
      ApplyConfig(c);
    }

    method TakeConfig() returns (c: EngineConfig)
      requires Base() && pendingCfg.Some?
      modifies this`pendingCfg
      ensures Most() && pendingCfg == None && watch.pending == Some(c) && c == old(pendingCfg).value && InRange(c)
      ensures watch.controls.holdOnly ==> IsHold(c)
    {
      hide Book, Programs, HandsAgree;
      c := pendingCfg.value;
      pendingCfg := None;
    }

    method Settle() returns (end: int)
      requires RunOver()
      modifies this`state, this`queue, this`posted, this`flag, this`told, this`armed, this`history, this`watch
      modifies this`times, waiter.world`clock, sender, sender.heldKeys, sender.keyMeta, sender.shared`mouseMask
      modifies sender.shared.keyBits, sender.shared.keyScan
      ensures Base() && state == (if armed then Armed else Disarmed) && !watch.work.live && watch.work.step == 0
      ensures watch.hands.fits ==> watch.hands.held == NOTHING
      ensures watch.hands.held == Freed(old(watch).hands.held)
      ensures TimePassed() && (watch.controls.quitting ==> Quit in queue)
      ensures (watch.controls.blocked ==> state == Disarmed) && inHand == []
      ensures watch.asked == None && watch.poll.heard && NoneDue(watch)
    {
      hide Book, Programs, Configs, HandsAgree, Freed;
      Release();
      end := OthersActAtEnd();
      SetState(if armed then Armed else Disarmed);
    }

    method OthersActAtEnd() returns (t: int)
      requires Base()
      modifies this`queue, this`posted, this`flag, this`told, this`armed, this`history, this`watch, this`times
      modifies waiter.world`clock
      ensures Base() && OthersOnly(old(watch), watch) && old(queue) <= queue
      ensures t == waiter.world.clock >= old(waiter.world.clock)
    {
      hide Book, Programs, Configs, HandsAgree, Shared;
      t := Clock();
    }

    // -------------------------------------------------------------- the idle loop

    /** What a command means while idle. */
    twostate predicate IdleEffect(c: Command, start: bool, limits: Modes.RunLimits,
                                  start': bool, limits': Modes.RunLimits)
      reads this`armed, this`state, this`cfg, this`watch
    {
      && cfg == (if c.SetConfig? then c.cfg else old(cfg))
      && (watch.controls.stores == old(watch.controls.stores) ==>
            armed == (if c.Arm? then c.on else if c == Emergency then false else old(armed)))
      && watch.controls.stores >= old(watch.controls.stores)
      && watch.hands.held == (if c == Emergency then Freed(old(watch.hands.held)) else old(watch.hands.held))
      && (c != Emergency ==> watch.hands.delivered == old(watch.hands.delivered))
      && watch.seen == old(watch.seen) + [c] && watch.arms == old(watch.arms) + [armed] && watch.poll == old(watch.poll)
      && match c
      case SetConfig(new_) => start' == start && limits' == limits && state == old(state)
      case Arm(on) =>
        armed == on && state == (if on then Armed else Disarmed) && start' == start && limits' == limits
      case TriggerDown =>
        && start' == (start || armed) && state == old(state)
        && (armed ==> limits' == RunFor(cfg.mode)) && (!armed ==> limits' == limits)
      case TriggerUp => start' == (start && cfg.mode.mode != Modes.Hold) && limits' == limits && state == old(state)
      case StartRun(l) => start' && limits' == l && state == old(state)
      case StopRun => !start' && state == old(state)
      case Emergency => !start' && !armed && state == Disarmed
      case _ => start' == start && limits' == limits && state == old(state)
    }

    /** The run that the commands so far ask for, if start, has these limits. */
    ghost predicate Wanted(start: bool, limits: Modes.RunLimits)
      reads this`watch
    {
      watch.asked == if start then Some(limits) else None
    }

    /** A command handled while idle. start: whether a run is to follow the batch. */
    method HandleIdleCommand(c: Command, start: bool, limits: Modes.RunLimits)
        returns (start': bool, limits': Modes.RunLimits)
      requires Wanted(start, limits)
      requires Idle() && inHand != [] && inHand[0] == c
      requires (c.SetConfig? ==> InRange(c.cfg)) && (start ==> MayStart(watch.controls))
      modifies this`queue, this`posted, this`flag, this`told, this`inHand, this`armed, this`state, this`cfg, this`prog
      modifies this`maxProg, this`history, this`watch, this`times, sender, sender.heldKeys, sender.keyMeta
      modifies sender.shared`mouseMask, sender.shared.keyBits, sender.shared.keyScan, waiter.world`clock
      ensures Wanted(start', limits')
      ensures Idle() && inHand == old(inHand)[1..] && (start' ==> MayStart(watch.controls))
      ensures waiter.world.clock >= old(waiter.world.clock)
      ensures watch.controls.quitting == (old(watch).controls.quitting || c == Quit)
      ensures IdleEffect(c, start, limits, start', limits')
    {
      hide Idle, MayStart, ObserveCommand, RunFor, IdleEffect;
      start', limits' := start, limits;
      if c.SetConfig? {
        IdleConfig(c.cfg, start, limits);
      } else if c.Arm? {
        IdleArm(c.on, start, limits);
      } else if c.Emergency? {
        start' := false;
        IdleEmergency(start, limits);
      } else {
        start', limits' := IdleStart(c, start, limits);
      }
    }

    method IdleConfig(new_: EngineConfig, ghost start: bool, ghost limits: Modes.RunLimits)
      requires Wanted(start, limits)
      requires Idle() && inHand != [] && inHand[0] == SetConfig(new_)
      requires InRange(new_) && (start ==> MayStart(watch.controls))
      modifies this`cfg, this`prog, this`maxProg, this`history, this`watch, this`times, this`inHand
      ensures Wanted(start, limits)
      ensures Idle() && inHand == old(inHand)[1..] && (start ==> MayStart(watch.controls))
      ensures watch.controls.quitting == old(watch).controls.quitting
      ensures IdleEffect(SetConfig(new_), start, limits, start, limits)
    {
      hide Book, Programs, HandsAgree, AllGood, Kept, InRange, Observe;
      IdleTook(watch, SetConfig(new_));
      TakeCommand(SetConfig(new_));
      ApplyConfig(new_);
    }

    method IdleArm(on: bool, ghost start: bool, ghost limits: Modes.RunLimits)
      requires Wanted(start, limits)
      requires Idle() && inHand != [] && inHand[0] == Arm(on) && (start ==> MayStart(watch.controls))
      modifies this`armed, this`state, this`history, this`watch, this`times, this`inHand
      ensures Wanted(start, limits)
      ensures Idle() && inHand == old(inHand)[1..] && (start ==> MayStart(watch.controls))
      ensures watch.controls.quitting == old(watch).controls.quitting
      ensures IdleEffect(Arm(on), start, limits, start, limits)
    {
      hide Base, Observe;
      IdleTook(watch, Arm(on));
      StoreArmed(on);
      SetState(if on then Armed else Disarmed);
    }

    method StoreArmed(on: bool)
      requires Base() && inHand != [] && inHand[0] == Arm(on)
      modifies this`armed, this`history, this`watch, this`times, this`inHand
      ensures Base() && inHand == old(inHand)[1..] && armed == on
      ensures watch == Observe(old(watch), Handled(Arm(on)))
    {
      hide Book, Programs, Configs, HandsAgree, AllGood, Kept, Observe;
      Took(watch, Arm(on));
      TakeCommand(Arm(on));
      armed := on;
    }

    method IdleEmergency(ghost start: bool, ghost limits: Modes.RunLimits)
      requires Wanted(start, limits)
      requires Idle() && inHand != [] && inHand[0] == Emergency
      modifies this`armed, this`state, this`history, this`watch, this`times, this`inHand
      modifies sender, sender.heldKeys, sender.keyMeta
      modifies sender.shared`mouseMask, sender.shared.keyBits, sender.shared.keyScan, waiter.world`clock
      ensures Wanted(false, limits)
      ensures Idle() && inHand == old(inHand)[1..] && watch.controls.quitting == old(watch).controls.quitting
      ensures IdleEffect(Emergency, start, limits, false, limits) && waiter.world.clock >= old(waiter.world.clock)
    {
      hide Base, Freed, Observe;
      IdleTook(watch, Emergency);
      DisarmForEmergency();
      Release();
      SetState(Disarmed);
    }

    method DisarmForEmergency()
      requires Base() && inHand != [] && inHand[0] == Emergency
      modifies this`armed, this`history, this`watch, this`times, this`inHand
      ensures Base() && inHand == old(inHand)[1..] && !armed
      ensures watch == Observe(old(watch), Handled(Emergency))
    {
      hide Book, Programs, Configs, HandsAgree, AllGood, Kept, Observe;
      Took(watch, Emergency);
      TakeCommand(Emergency);
      armed := false;
    }

    /** Commands that decide whether a run follows. */
    method IdleStart(c: Command, start: bool, limits: Modes.RunLimits) returns (start': bool, limits': Modes.RunLimits)
      requires Wanted(start, limits)
      requires Idle() && inHand != [] && inHand[0] == c
      requires (start ==> MayStart(watch.controls)) && !c.SetConfig? && !c.Arm? && !c.Emergency?
      modifies this`queue, this`posted, this`flag, this`told, this`inHand, this`armed, this`history, this`watch
      modifies this`times
      ensures Wanted(start', limits')
      ensures Idle() && inHand == old(inHand)[1..] && (start' ==> MayStart(watch.controls))
      ensures watch.controls.quitting == (old(watch).controls.quitting || c == Quit)
      ensures IdleEffect(c, start, limits, start', limits')
    {
      hide Idle, RunFor;
      IdleOthers();
      if c == TriggerDown {
        start', limits' := IdleDown(start, limits);
      } else {
        start', limits' := IdleDecide(c, start, limits);
      }
    }

    method IdleOthers()
      requires Idle()
      modifies this`queue, this`posted, this`flag, this`told, this`armed, this`history, this`watch, this`times
      ensures Idle() && OthersOnly(old(watch), watch)
      ensures watch.controls.stores == old(watch).controls.stores ==> armed == old(armed)
    {
      hide Book, Programs, HandsAgree, AllGood, Kept;
      OthersAct();
    }

    method IdleDown(start: bool, limits: Modes.RunLimits) returns (start': bool, limits': Modes.RunLimits)
      requires Wanted(start, limits)
      requires Idle() && inHand != [] && inHand[0] == TriggerDown && (start ==> MayStart(watch.controls))
      modifies this`inHand, this`history, this`watch, this`times
      ensures Wanted(start', limits')
      ensures Idle() && inHand == old(inHand)[1..] && (start' ==> MayStart(watch.controls))
      ensures watch.controls == old(watch).controls.(edgeDown := true)
      ensures start' == (start || armed) && limits' == if armed then RunFor(cfg.mode) else limits
      ensures watch.hands == old(watch).hands
      ensures watch.seen == old(watch).seen + [TriggerDown] && watch.arms == old(watch).arms + [armed]
      ensures watch.poll == old(watch).poll
    {
      hide Book, Programs, HandsAgree, AllGood, Kept, Observe;
      start', limits' := start, limits;
      IdleTook(watch, TriggerDown);
      TakeCommand(TriggerDown);
      if armed {
        match Modes.DecideOnTriggerDown(cfg.mode, false)
        case Start(l) => start', limits' := true, l;
        case _ =>
      }
    }

    method IdleDecide(c: Command, start: bool, limits: Modes.RunLimits) returns (start': bool, limits': Modes.RunLimits)
      requires Wanted(start, limits)
      requires Idle() && inHand != [] && inHand[0] == c && (start ==> MayStart(watch.controls))
      requires !c.SetConfig? && !c.Arm? && !c.Emergency? && !c.TriggerDown?
      modifies this`inHand, this`history, this`watch, this`times
      ensures Wanted(start', limits')
      ensures Idle() && inHand == old(inHand)[1..] && (start' ==> MayStart(watch.controls))
      ensures watch.controls.quitting == (old(watch).controls.quitting || c == Quit)
      ensures watch.controls.stores == old(watch).controls.stores && watch.hands == old(watch).hands
      ensures watch.seen == old(watch).seen + [c] && watch.arms == old(watch).arms + [armed]
      ensures watch.poll == old(watch).poll
      ensures match c
              case TriggerUp => start' == (start && cfg.mode.mode != Modes.Hold) && limits' == limits
              case StartRun(l) => start' && limits' == l
              case StopRun => !start'
              case _ => start' == start && limits' == limits
    {
      hide Book, Programs, HandsAgree, AllGood, Kept, Observe;
      start', limits' := start, limits;
      IdleTook(watch, c);
      TakeCommand(c);
      match c
      case TriggerUp => if start && cfg.mode.mode == Modes.Hold { start' := false; }
      case StartRun(l) => start', limits' := true, l;
      case StopRun => start' := false;
      case _ =>
    }

    /** A whole batch. arms: what armed was when each command had been handled. */
    method IdleBatch(cmds: seq<Command>)
        returns (start: bool, limits: Modes.RunLimits, quit: bool, ghost arms: seq<bool>)
      requires Idle() && AllGood(cmds) && inHand == cmds && (watch.controls.quitting ==> Quit in cmds)
      requires watch.asked == None
      modifies this`queue, this`posted, this`flag, this`told, this`inHand, this`armed, this`state, this`cfg, this`prog
      modifies this`maxProg, this`history, this`watch, this`times, sender, sender.heldKeys, sender.keyMeta
      modifies sender.shared`mouseMask, sender.shared.keyBits, sender.shared.keyScan, waiter.world`clock
      ensures watch.asked == (if start then Some(limits) else None) && watch.poll == old(watch).poll
      ensures Idle() && inHand == [] && (start ==> MayStart(watch.controls))
      ensures quit == watch.controls.quitting && waiter.world.clock >= old(waiter.world.clock)
      ensures watch.seen == old(watch).seen + cmds && watch.arms == old(watch).arms + arms
      ensures |arms| == |cmds| && start == StartAt(cmds, arms, old(cfg).mode, |cmds|)
      ensures start ==> limits == LimitsAt(cmds, arms, old(cfg).mode, |cmds|)
      ensures watch.controls.stores == old(watch).controls.stores ==> arms == ArmsAlone(cmds, old(armed), |cmds|)
    {
      hide Idle, MayStart, StartAt, LimitsAt, RunFor, ParamsAt, ArmedAt, ArmsAlone;
      start, limits, quit, arms := false, Modes.UNLIMITED_RUN, false, [];
      NothingStarts(cmds, arms, cfg.mode, armed);
      assert watch.seen + cmds[..0] == watch.seen && watch.arms + arms == watch.arms;
      for i := 0 to |cmds|
        invariant Idle() && inHand == cmds[i..] && (start ==> MayStart(watch.controls))
        invariant (quit ==> watch.controls.quitting) && waiter.world.clock >= old(waiter.world.clock)
        invariant watch.controls.quitting ==> quit || Quit in cmds[i..]
        invariant BatchAt(cmds, i, start, limits, arms, old(watch), old(cfg).mode, old(armed)) && Wanted(start, limits)
      {
        start, limits, arms := BatchTurn(cmds, i, start, limits, arms, old(watch), old(cfg).mode, old(armed));
        if cmds[i] == Quit { quit := true; }
        WhatRemains(cmds, i);
      }
      assert cmds[..|cmds|] == cmds;
    }

    /** What is known after the first i commands of a batch. w, p and on: the record, the trigger parameters
        and the armed flag before it. */
    ghost predicate BatchAt(cmds: seq<Command>, i: nat, start: bool, limits: Modes.RunLimits, arms: seq<bool>, w: Watch,
                            p: Modes.ModeParams, on: bool)
      requires i <= |cmds|
      reads this`watch, this`cfg, this`armed
    {
      && watch.seen == w.seen + cmds[..i] && watch.arms == w.arms + arms && watch.poll == w.poll
      && |arms| == i && start == StartAt(cmds[..i], arms, p, i) && cfg.mode == ParamsAt(cmds[..i], p, i)
      && (start ==> limits == LimitsAt(cmds[..i], arms, p, i))
      && watch.controls.stores >= w.controls.stores
      && (watch.controls.stores == w.controls.stores ==>
            arms == ArmsAlone(cmds[..i], on, i) && armed == ArmedAt(cmds[..i], on, i))
    }

    method BatchTurn(cmds: seq<Command>, i: nat, start: bool, limits: Modes.RunLimits, ghost arms: seq<bool>,
                     ghost w: Watch, ghost p: Modes.ModeParams, ghost on: bool)
        returns (start': bool, limits': Modes.RunLimits, ghost arms': seq<bool>)
      requires Idle() && AllGood(cmds) && i < |cmds| && inHand == cmds[i..] && (start ==> MayStart(watch.controls))
      requires BatchAt(cmds, i, start, limits, arms, w, p, on) && Wanted(start, limits)
      modifies this`queue, this`posted, this`flag, this`told, this`inHand, this`armed, this`state, this`cfg, this`prog
      modifies this`maxProg, this`history, this`watch, this`times, sender, sender.heldKeys, sender.keyMeta
      modifies sender.shared`mouseMask, sender.shared.keyBits, sender.shared.keyScan, waiter.world`clock
      ensures Idle() && inHand == cmds[i + 1..] && (start' ==> MayStart(watch.controls))
      ensures watch.controls.quitting == (old(watch).controls.quitting || cmds[i] == Quit)
      ensures waiter.world.clock >= old(waiter.world.clock)
      ensures BatchAt(cmds, i + 1, start', limits', arms', w, p, on) && Wanted(start', limits')
    {
      hide Idle, MayStart, StartAt, LimitsAt, RunFor, ParamsAt, ArmedAt, ArmsAlone;
      WhatRemains(cmds, i);
      start', limits' := HandleIdleCommand(cmds[i], start, limits);
      BatchStep(cmds, arms, p, on, i, armed);
      arms' := arms + [armed];
      assert w.arms + arms' == w.arms + arms + [armed];
    }

    /** The scheduler thread, cut off at any point; done if it has ended by itself. */
    method ThreadMain() returns (done: bool)
      requires Fresh()
      modifies this, waiter.world, wakeUp, waiter, sender, sender.heldKeys, sender.keyMeta
      modifies sender.shared`mouseMask, sender.shared.keyBits, sender.shared.keyScan
      ensures Accepted(history) && Timely(history, times)
      ensures sender.Valid() && sender.Now() == Fold(history).hands.held
      ensures sender.delivered == Delivered(history) && sender.stamps == GivenAt(history)
      ensures posted == Commands(history) + inHand + queue
      ensures wakeUp.waits == Waits(history) && waiter.world.passes == Passes(history)
      ensures waiter.world.readings == Readings(history)
      ensures done ==> Fold(history).controls.quitting && inHand == []
      ensures done && Fold(history).hands.fits ==> sender.Now() == NOTHING
    {
      hide Idle, MayStart, Base, Fresh, Accepted, Fold, Timely;
      FirstPrograms();
      var now := IdleClock();
      Publish(now, true);
      IdleMeans();
      done := false;
      var live := true;
      while live && !done
        invariant Base() && (live ==> Idle()) && (live && watch.controls.quitting ==> done || Quit in queue)
        invariant live && !done ==> Answered()
        invariant (live ==> inHand == []) && (done ==> live && watch.controls.quitting)
        decreases live && !done, waiter.world.fuel
      {
        live, done := IdlePass();
      }
      if done { FinalRelease(); }
      TiedToHistory();
    }

    /** The run that was asked for has been started, unless there is nothing to run; and commands have been looked
        for. */
    ghost predicate Answered()
      reads this`watch, this`prog
    {
      (watch.asked.Some? ==> !prog.Ok()) && watch.poll.heard
    }

    /** One pass through the idle loop: wait, handle a batch of commands, perhaps do a run. */
    method IdlePass() returns (live: bool, quit: bool)
      requires Idle() && inHand == [] && (watch.controls.quitting ==> Quit in queue) && Answered()
      modifies this, waiter.world, wakeUp, waiter, sender, sender.heldKeys, sender.keyMeta
      modifies sender.shared`mouseMask, sender.shared.keyBits, sender.shared.keyScan
      ensures Base() && TimePassed() && (live ==> Idle() && inHand == [] && waiter.world.fuel < old(waiter.world.fuel))
      ensures wakeUp.waits == old(wakeUp.waits) + if old(waiter.world.fuel) > 0 then 1 else 0
      ensures live && watch.controls.quitting ==> quit || Quit in queue
      ensures (quit ==> live && watch.controls.quitting) && (live && !quit ==> Answered())
    {
      hide Base, MayStart, Idle, StartAt;
      var cmds;
      live, cmds := AwaitCommands();
      quit := false;
      if live {
        var start, limits;
        ghost var arms;
        start, limits, quit, arms := IdleBatch(cmds);
        Publish(waiter.world.clock, true);
        IdleMeans();
        if !quit { live := RunIfAsked(start, limits); }
      } else {
        IdleMeans();
      }
    }

    method RunIfAsked(start: bool, limits: Modes.RunLimits) returns (live: bool)
      requires Idle() && inHand == [] && (start ==> MayStart(watch.controls) && !watch.controls.quitting)
      requires watch.asked == (if start then Some(limits) else None) && watch.poll.heard
      modifies this, waiter.world, waiter, sender, sender.heldKeys, sender.keyMeta
      modifies sender.shared`mouseMask, sender.shared.keyBits, sender.shared.keyScan
      ensures Base() && TimePassed() && (live ==> Idle() && inHand == [])
      ensures !start ==> live && watch == old(watch) && queue == old(queue)
      ensures live ==> Answered()
      ensures start && live && watch.controls.quitting ==> Quit in queue
    {
      hide Base, Idle;
      IdleMeans();
      live := true;
      if start { live := DoRun(limits); }
      if emergency { emergency := false; }
    }

    method AwaitCommands() returns (live: bool, cmds: seq<Command>)
      requires Idle() && inHand == [] && (watch.controls.quitting ==> Quit in queue) && Answered()
      modifies this`queue, this`posted, this`flag, this`told, this`inHand, this`armed, this`history, this`watch
      modifies this`times, waiter.world`clock, waiter.world`fuel, waiter.world`readings, wakeUp`waits
      ensures Idle() && TimePassed() && live == (old(waiter.world.fuel) > 0)
      ensures live ==> wakeUp.waits == old(wakeUp.waits) + 1 && waiter.world.fuel < old(waiter.world.fuel)
      ensures !live ==> wakeUp.waits == old(wakeUp.waits)
      ensures live ==> AllGood(cmds) && inHand == cmds && (watch.controls.quitting ==> Quit in cmds)
      ensures live ==> watch.asked == None && watch.poll.heard
    {
      hide Idle;
      cmds := [];
      live := WaitIdle();
      if live {
        var now := IdleClock();
        cmds := DrainIdle();
      }
    }

    /** Everything is taken from the queue when an idle wait has ended. */
    method DrainIdle() returns (cmds: seq<Command>)
      requires Idle() && inHand == []
      modifies this`queue, this`flag, this`inHand, this`history, this`watch, this`times, waiter.world`readings
      ensures Idle() && AllGood(cmds) && cmds == inHand == old(queue) && watch.poll.heard
      ensures waiter.world.readings == old(waiter.world.readings) + [World.FlagRead(true, told, |posted|)]
      ensures watch == old(watch).(since := watch.since, poll := watch.poll, readings := watch.readings)
    {
      hide Idle, AllGood;
      cmds := DrainAll();
      RecordHeard();
    }

    method DrainAll() returns (cmds: seq<Command>)
      requires Idle() && inHand == []
      modifies this`queue, this`flag, this`inHand
      ensures Idle() && AllGood(cmds) && cmds == inHand == old(queue) && |posted| == |watch.seen| + |inHand|
    {
      hide Book, Programs, HandsAgree, AllGood, Configs;
      DrainIsGood();
      cmds := Drain();
    }

    ghost method RecordHeard()
      requires Idle() && |posted| == |watch.seen| + |inHand|
      modifies this`history, this`watch, this`times, waiter.world`readings
      ensures Idle() && watch.poll.heard
      ensures waiter.world.readings == old(waiter.world.readings) + [World.FlagRead(true, told, |posted|)]
      ensures watch == old(watch).(since := watch.since, poll := watch.poll, readings := watch.readings)
    {
      hide Written, Programs, HandsAgree, AllGood, Configs;
      FreqIsSet();
      waiter.world.Note(World.FlagRead(true, told, |posted|));
      StillWritten();
      RecordRead(World.FlagRead(true, told, |posted|));
    }

    lemma DrainIsGood()
      ensures AllGood([])
    {
    }

    /** The wait for commands; that it has ended is observed. */
    method WaitIdle() returns (live: bool)
      requires Idle() && Answered() && inHand == []
      modifies this`history, this`watch, this`times, waiter.world`clock, waiter.world`fuel, wakeUp`waits
      ensures Idle() && waiter.world.clock >= old(waiter.world.clock) && live == (old(waiter.world.fuel) > 0)
      ensures live ==> wakeUp.waits == old(wakeUp.waits) + 1 && waiter.world.fuel < old(waiter.world.fuel)
      ensures live ==> history == old(history) + [Waiting] && watch.marks.waits == wakeUp.waits
      ensures live ==> watch == old(watch).(controls := old(watch).controls.(holdOnly := IsHold(cfg)), asked := None,
                                            since := watch.since, marks := watch.marks,
                                            poll := old(watch).poll.(heard := false))
      ensures !live ==> wakeUp.waits == old(wakeUp.waits) && waiter.world.fuel == 0 && watch == old(watch)
    {
      hide Written, Programs, HandsAgree, AllGood, Kept;
      StateAgrees();
      FreqIsSet();
      live := wakeUp.Wait();
      StillWritten();
      if live { RecordWaiting(); }
    }

    /** An engine that has been created and not started. */
    ghost predicate Fresh()
      reads this, waiter.world`clock, waiter.world`passes, waiter.world`readings, wakeUp`waits, sender
      reads sender.heldKeys, sender.keyMeta, sender.shared, sender.shared.keyBits, sender.shared.keyScan
    {
      && Book() && HandsAgree(watch.hands) && state == Disarmed && !armed
      && queue == posted == inHand == [] && told == 0
      && pendingCfg == None && watch == START && InRange(cfg) && cfg.mode.mode == Modes.Toggle && freq >= 500_000
    }

    method FirstPrograms()
      requires Fresh()
      modifies this`prog, this`maxProg, this`history, this`watch, this`times
      ensures Base() && Idle() && !watch.controls.quitting && inHand == [] && watch.asked == None && watch.poll.heard
    {
      hide Book, HandsAgree, TimedProgram, MaxProgram, Program, Clamps, InRange, AllGood, Kept;
      NothingPosted();
      MakePrograms();
      RecordBegan();
      RecordConfigured();
    }

    method MakePrograms()
      requires InRange(cfg) && freq > 0
      modifies this`prog, this`maxProg
      ensures prog == TimedProgram(cfg, layout, freq) && maxProg == MaxProgram(cfg, layout, freq)
    {
      hide TimedProgram, MaxProgram;
      var clamped;
      prog, maxProg, clamped := RebuildProgram(cfg, layout, freq);
    }

    lemma NothingPosted()
      ensures posted == inHand == queue == [] && told == 0 ==> Kept([]) && AllGood(queue)
    {
    }

    method FinalRelease()
      requires Idle()
      modifies this`history, this`watch, this`times, sender, sender.heldKeys, sender.keyMeta
      modifies sender.shared`mouseMask, sender.shared.keyBits, sender.shared.keyScan, waiter.world`clock
      ensures Base() && (watch.hands.fits ==> watch.hands.held == NOTHING) && watch.controls == old(watch).controls
    {
      hide Base;
      Release();
    }

    lemma TiedToHistory()
      requires Base()
      ensures Accepted(history) && Timely(history, times) && watch == Fold(history)
      ensures sender.Valid() && sender.Now() == Fold(history).hands.held
      ensures sender.delivered == Delivered(history) && sender.stamps == GivenAt(history)
      ensures posted == Commands(history) + inHand + queue
      ensures wakeUp.waits == Waits(history) && waiter.world.passes == Passes(history)
      ensures waiter.world.readings == Readings(history)
    {
      hide Accepted, Fold, Timely, TimedProgram, MaxProgram, AllGood;
      FoldAccounts(history);
    }
  }

  lemma StepAllowed(w: Watch, s: Sending, fire: int, n: nat, t: int)
    requires SendingRule(w.hands, s) && Goes(w.controls) && fire <= s.at <= t
    requires w.work.live && !w.work.stopped && w.work.step < |w.work.prog| && !w.work.cfg.maxMode
    requires n > 1 ==> |w.work.prog| == 1 && w.work.cfg.latePolicy == CatchUp
    requires var p := w.work.prog[w.work.step];
             && 1 <= n <= MAX_BATCH && (n > 1 ==> n <= w.work.left) && w.grid.rate == w.work.cfg.cps && w.freq > 0
             && (w.work.step == 0 ==> w.work.left > 0 && w.pending == None && w.since.judged)
             && s.inputs == Copies(n, p.inputs) && w.grid.anchors > 0 && w.grid.mid == (w.work.step > 0)
             && OnTime(w.grid, fire, n, p.offset) && Rises(w.grid, p.offset)
    requires w.poll.done && w.poll.due <= |w.seen| && w.permit.open
    requires w.work.step == 0 ==> Recent(w.permit, MsToTicks(2, w.freq))
    ensures var e := SentStep(s, fire, n, w.work.prog[w.work.step].offset, w.work.step == 0,
                              w.work.step + 1 == |w.work.prog|);
            && HandsRule(w.hands, e) && ControlsRule(w.controls, e) && WorkRule(w.work, e) && GridRule(w.grid, e)
            && SinceRule(w, e) && OrderRule(w, e) && ReadRule(w, e) && TimeRule(e, t)
  {
    hide SendingRule, Copies, OnTime, Rises, Recent, MsToTicks;
  }

  lemma BatchAllowed(w: Watch, s: Sending, fire: int, n: nat, t: int)
    requires SendingRule(w.hands, s) && Goes(w.controls) && w.work.live && !w.work.stopped
    requires w.work.cfg.maxMode && w.work.step == 0 && w.freq > 0
    requires fire <= s.at <= t && w.since.look != NoLook
    requires n == BatchSize(w.work) && s.inputs == Copies(n, w.work.flat)
    requires w.poll.done && w.poll.due <= |w.seen| && w.permit.open && Recent(w.permit, MsToTicks(1, w.freq))
    requires w.work.cfg.maxInflight == 0 || w.permit.room
    ensures var e := SentBatch(s, fire, n);
            && HandsRule(w.hands, e) && ControlsRule(w.controls, e) && WorkRule(w.work, e) && GridRule(w.grid, e)
            && SinceRule(w, e) && OrderRule(w, e) && ReadRule(w, e) && TimeRule(e, t)
  {
    hide SendingRule, Copies, Recent, MsToTicks;
  }

  lemma StepRecorded(w: Watch, v: Watch, s: Sending, fire: int, n: nat)
    requires w.work.step < |w.work.prog| && SendingRule(w.hands, s)
    requires var (i, p) := (w.work.step, w.work.prog);
             var e := SentStep(s, fire, n, p[i].offset, i == 0, i + 1 == |p|);
             v == w.(hands := ObserveHands(w.hands, e), work := ObserveWork(w.work, w.controls.params, e),
                     grid := ObserveGrid(w.grid, e), since := w.since.(look := NoLook, judged := false))
    ensures v.hands.held == s.after && v.hands.delivered == w.hands.delivered + s.inputs[..s.ok]
    ensures v.hands.state == w.hands.state && v.hands.stamps == w.hands.stamps + InputSender.Stamps(s.at, s.ok)
    ensures var (i, p) := (w.work.step, w.work.prog); Sent(w, v, s.inputs, i, n, p[i].offset, i + 1 == |p|)
  {
    hide TrackAll, LastDue, InputSender.Stamps;
    if s.ok == |s.inputs| { assert s.inputs[..s.ok] == s.inputs; }
  }

  lemma BatchRecorded(w: Watch, s: Sending, fire: int, n: nat)
    requires SendingRule(w.hands, s)
    ensures var e := SentBatch(s, fire, n);
            var v := ObserveHands(w.hands, e);
            && ObserveWork(w.work, w.controls.params, e) == w.work.(completed := w.work.completed + n,
                                                                    left := Spend(w.work.left, n))
            && ObserveGrid(w.grid, e) == w.grid
            && v.held == s.after && v.delivered == w.hands.delivered + s.inputs[..s.ok] && v.state == w.hands.state
            && v.stamps == w.hands.stamps + InputSender.Stamps(s.at, s.ok)
            && v.fits == w.hands.fits && (v.full ==> w.hands.full && v.held == TrackAll(w.hands.held, s.inputs))
  {
    hide TrackAll, InputSender.Stamps;
    if s.ok == |s.inputs| { assert s.inputs[..s.ok] == s.inputs; }
  }

  /** The thread from its beginning: the shared block, the sender, the clock and the engine are made, and it runs.
      observed: after how many passes through its loops the view is cut off. */
  method RunThread(freq: nat, layout: Layout, start: EngineConfig, clock: int, observed: nat)
      returns (engine: Engine, done: bool)
    requires freq >= 500_000 && InRange(start) && start.mode.mode == Modes.Toggle
    ensures Accepted(engine.history) && Timely(engine.history, engine.times)
    ensures engine.sender.delivered == Delivered(engine.history)
    ensures engine.sender.stamps == GivenAt(engine.history)
    ensures engine.posted == Commands(engine.history) + engine.inHand + engine.queue
    ensures done && Fold(engine.history).hands.fits ==> engine.sender.Now() == NOTHING
  {
    hide Accepted, Fold, Timely;
    var world := new World.World(clock, observed);
    var wakeUp := new World.WakeUp(world);
    var block := new InputSender.HeldShared();
    var sender := new InputSender.Sender(block, world);
    var waiter := new PreciseWaiter.Waiter(world, freq as real / 1_000_000.0);
    engine := new Engine(freq, layout, waiter, sender, wakeUp, start);
    done := engine.ThreadMain();
  }

  /** What must hold of the controls when a run starts. */
  predicate MayStart(w: Controls) { !w.blocked && (w.holdOnly ==> w.edgeDown) }

  lemma WhatRemains(cmds: seq<Command>, i: nat)
    requires i < |cmds|
    ensures Quit in cmds[i..] <==> cmds[i] == Quit || Quit in cmds[i + 1..]
    ensures cmds[i..] != [] && cmds[i..][0] == cmds[i] && cmds[i..][1..] == cmds[i + 1..]
    ensures cmds[..i + 1] == cmds[..i] + [cmds[i]]
  {
    assert cmds[i..] == [cmds[i]] + cmds[i + 1..];
  }

  // ---------------------------------------------------------------- whether a batch starts a run

  /** The trigger parameters after the first n commands of a batch. */
  function ParamsAt(cmds: seq<Command>, p: Modes.ModeParams, n: nat): Modes.ModeParams
    requires n <= |cmds|
  {
    if n == 0 then p else if cmds[n - 1].SetConfig? then cmds[n - 1].cfg.mode else ParamsAt(cmds, p, n - 1)
  }

  /** The armed flag after the first n commands, if no other thread stores it. */
  function ArmedAt(cmds: seq<Command>, armed: bool, n: nat): bool
    requires n <= |cmds|
  {
    if n == 0 then armed
    else if cmds[n - 1].Arm? then cmds[n - 1].on
    else if cmds[n - 1] == Emergency then false
    else ArmedAt(cmds, armed, n - 1)
  }

  function ArmsAlone(cmds: seq<Command>, armed: bool, n: nat): (r: seq<bool>)
    requires n <= |cmds|
    ensures |r| == n && forall i :: 0 <= i < n ==> r[i] == ArmedAt(cmds, armed, i + 1)
  {
    if n == 0 then [] else ArmsAlone(cmds, armed, n - 1) + [ArmedAt(cmds, armed, n)]
  }

  /** Whether a run is to start after the first n commands of a batch; arms says what armed was at each. */
  predicate StartAt(cmds: seq<Command>, arms: seq<bool>, p: Modes.ModeParams, n: nat)
    requires n <= |cmds| && n <= |arms|
  {
    n > 0 && match cmds[n - 1]
             case TriggerDown => arms[n - 1] || StartAt(cmds, arms, p, n - 1)
             case TriggerUp => StartAt(cmds, arms, p, n - 1) && ParamsAt(cmds, p, n - 1).mode != Modes.Hold
             case StartRun(_) => true
             case StopRun => false
             case Emergency => false
             case _ => StartAt(cmds, arms, p, n - 1)
  }

  /** The limits of that run: those of a manual start, or the ones the trigger mode has at a Down. */
  function LimitsAt(cmds: seq<Command>, arms: seq<bool>, p: Modes.ModeParams, n: nat): Modes.RunLimits
    requires n <= |cmds| && n <= |arms|
  {
    if n == 0 then Modes.UNLIMITED_RUN
    else match cmds[n - 1]
         case TriggerDown => if arms[n - 1] then RunFor(ParamsAt(cmds, p, n - 1)) else LimitsAt(cmds, arms, p, n - 1)
         case StartRun(l) => l
         case _ => LimitsAt(cmds, arms, p, n - 1)
  }

  /** A command that asks for a run: a manual start, or a Down while armed. */
  predicate Asks(cmds: seq<Command>, arms: seq<bool>, i: nat)
    requires i < |cmds| && i < |arms|
  {
    cmds[i].StartRun? || (cmds[i] == TriggerDown && arms[i])
  }

  /** A command that takes it back: a stop, an emergency, or in Hold mode an Up. Disarming does not. */
  predicate TakesBack(cmds: seq<Command>, p: Modes.ModeParams, i: nat)
    requires i < |cmds|
  {
    cmds[i] == StopRun || cmds[i] == Emergency || (cmds[i] == TriggerUp && ParamsAt(cmds, p, i).mode == Modes.Hold)
  }

  /** A batch starts a run exactly if some command asks for one and none after it takes it back. */
  lemma {:induction false} StartIff(cmds: seq<Command>, arms: seq<bool>, p: Modes.ModeParams, n: nat)
    requires n <= |cmds| && n <= |arms|
    ensures StartAt(cmds, arms, p, n)
       <==> exists i: nat {:trigger Asks(cmds, arms, i)} :: i < n && Asks(cmds, arms, i)
              && forall j: nat {:trigger TakesBack(cmds, p, j)} :: i < j < n ==> !TakesBack(cmds, p, j)
  {
    if n > 0 {
      hide ParamsAt;
      StartIff(cmds, arms, p, n - 1);
      var last: nat := n - 1;
      if Asks(cmds, arms, last) {
        assert StartAt(cmds, arms, p, n);
      } else if !TakesBack(cmds, p, last) {
        assert StartAt(cmds, arms, p, n) == StartAt(cmds, arms, p, last);
      }
    }
  }

  /** If a run follows, its limits are what the last command that asks for one asks for. */
  lemma {:induction false} LastAskCounts(cmds: seq<Command>, arms: seq<bool>, p: Modes.ModeParams, n: nat)
      returns (i: nat)
    requires n <= |cmds| && n <= |arms| && StartAt(cmds, arms, p, n)
    ensures i < n && Asks(cmds, arms, i)
    ensures forall j: nat {:trigger Asks(cmds, arms, j)} :: i < j < n ==> !Asks(cmds, arms, j)
    ensures LimitsAt(cmds, arms, p, n)
            == if cmds[i].StartRun? then cmds[i].limits else RunFor(ParamsAt(cmds, p, i))
  {
    hide ParamsAt, RunFor;
    if Asks(cmds, arms, n - 1) {
      i := n - 1;
    } else {
      i := LastAskCounts(cmds, arms, p, n - 1);
    }
  }

  /** A trigger Down while armed, and a disarm behind it in the same batch: the run starts all the same. */
  lemma DisarmDoesNotTakeBack(p: Modes.ModeParams)
    ensures var cmds := [TriggerDown, Arm(false)];
            StartAt(cmds, ArmsAlone(cmds, true, 2), p, 2) && !ArmedAt(cmds, true, 2)
  {
    var cmds := [TriggerDown, Arm(false)];
    var arms := ArmsAlone(cmds, true, 2);
    assert ArmedAt(cmds, true, 0) && ArmedAt(cmds, true, 1);
    assert arms[0] == ArmedAt(cmds, true, 1);
    assert StartAt(cmds, arms, p, 1);
  }

  lemma NothingStarts(cmds: seq<Command>, arms: seq<bool>, p: Modes.ModeParams, armed: bool)
    requires arms == []
    ensures !StartAt(cmds[..0], arms, p, 0)
    ensures ParamsAt(cmds[..0], p, 0) == p && ArmedAt(cmds[..0], armed, 0) == armed
    ensures ArmsAlone(cmds[..0], armed, 0) == []
  {
  }

  /** One more command, seen from the commands so far. */
  lemma BatchStep(cmds: seq<Command>, arms: seq<bool>, p: Modes.ModeParams, armed0: bool, i: nat, armed: bool)
    requires i < |cmds| && |arms| == i
    ensures var (so, more, c) := (cmds[..i], cmds[..i + 1], cmds[i]);
            && ParamsAt(more, p, i + 1) == (if c.SetConfig? then c.cfg.mode else ParamsAt(so, p, i))
            && ArmedAt(more, armed0, i + 1)
               == (if c.Arm? then c.on else if c == Emergency then false else ArmedAt(so, armed0, i))
            && ArmsAlone(more, armed0, i + 1) == ArmsAlone(so, armed0, i) + [ArmedAt(more, armed0, i + 1)]
            && LimitsAt(more, arms + [armed], p, i + 1)
               == (match c
                   case TriggerDown => if armed then RunFor(ParamsAt(so, p, i)) else LimitsAt(so, arms, p, i)
                   case StartRun(l) => l
                   case _ => LimitsAt(so, arms, p, i))
            && (StartAt(more, arms + [armed], p, i + 1) <==>
                  match c
                  case TriggerDown => armed || StartAt(so, arms, p, i)
                  case TriggerUp => StartAt(so, arms, p, i) && ParamsAt(so, p, i).mode != Modes.Hold
                  case StartRun(_) => true
                  case StopRun => false
                  case Emergency => false
                  case _ => StartAt(so, arms, p, i))
  {
    var (so, more) := (cmds[..i], cmds[..i + 1]);
    SamePrefix(so, more, arms, arms + [armed], p, armed0, i);
  }

  lemma {:induction false} SamePrefix(a: seq<Command>, b: seq<Command>, arms: seq<bool>, arms': seq<bool>,
                                      p: Modes.ModeParams, armed0: bool, n: nat)
    requires n <= |a| && n <= |b| && n <= |arms| && n <= |arms'|
    requires forall i :: 0 <= i < n ==> a[i] == b[i] && arms[i] == arms'[i]
    ensures ParamsAt(a, p, n) == ParamsAt(b, p, n) && ArmedAt(a, armed0, n) == ArmedAt(b, armed0, n)
    ensures ArmsAlone(a, armed0, n) == ArmsAlone(b, armed0, n)
    ensures StartAt(a, arms, p, n) == StartAt(b, arms', p, n)
    ensures LimitsAt(a, arms, p, n) == LimitsAt(b, arms', p, n)
  {
    if n > 0 { SamePrefix(a, b, arms, arms', p, armed0, n - 1); }
  }

  /** What a new configuration does to the record. */
  ghost function Configure(w: Work, c: EngineConfig, prog: ActionProgram, maxProg: ActionProgram): Work {
    w.(prog := prog.steps, flat := maxProg.flat, ok := prog.Ok(), maxOk := maxProg.Ok(), cfg := c)
  }

  /** A run that has not begun its timeline. */
  ghost function FreshStart(g: Grid): Grid { NO_GRID.(limited := g.limited, ticks := g.ticks, end := g.end) }

  /** A limited run has room for n more actions. */
  predicate WithinBudget(w: Work, n: nat) { w.granted < UNLIMITED ==> w.completed + n <= w.granted }

  ghost predicate NothingHeld(w: Hands) { w.full && w.fits ==> w.held == NOTHING }

  /** Other threads change nothing but the queue and armed; storing true lifts an emergency stop. */
  ghost predicate OthersOnly(w: Watch, v: Watch) {
    && v == w.(controls := w.controls.(blocked := v.controls.blocked, armed := v.controls.armed,
                                       stores := v.controls.stores))
    && (v.controls.blocked ==> w.controls.blocked) && v.controls.stores >= w.controls.stores
    && (v.controls.stores == w.controls.stores ==> v == w)
  }

  /** What the commands handled during a run do to it. */
  function WorkAfter(w: Work, p: Modes.ModeParams, cmds: seq<Command>): Work {
    if cmds == [] then w else RunCommand(WorkAfter(w, p, cmds[..|cmds| - 1]), p, cmds[|cmds| - 1])
  }

  lemma {:induction false} WorkAfterAppend(w: Work, p: Modes.ModeParams, a: seq<Command>, b: seq<Command>)
    ensures WorkAfter(w, p, a + b) == WorkAfter(WorkAfter(w, p, a), p, b)
  {
    if b == [] {
      assert a + b == a;
    } else {
      var init := b[..|b| - 1];
      assert (a + b)[..|a + b| - 1] == a + init;
      WorkAfterAppend(w, p, a, init);
    }
  }

  lemma {:induction false} WorkAfterKeeps(w: Work, p: Modes.ModeParams, cmds: seq<Command>)
    ensures var v := WorkAfter(w, p, cmds);
            v == w.(granted := v.granted, left := v.left, stopped := v.stopped) && v.granted >= w.granted
  {
    if cmds != [] { WorkAfterKeeps(w, p, cmds[..|cmds| - 1]); }
  }

  /** The commands of a batch that a run looks at: up to the first Quit. */
  function Heeded(cmds: seq<Command>): seq<Command> {
    if cmds == [] then [] else if cmds[0] == Quit then [Quit] else [cmds[0]] + Heeded(cmds[1..])
  }

  lemma HeededNext(cmds: seq<Command>, i: nat)
    requires i < |cmds| && Heeded(cmds) == cmds[..i] + Heeded(cmds[i..])
    ensures if cmds[i] == Quit then Heeded(cmds) == cmds[..i + 1]
            else Heeded(cmds) == cmds[..i + 1] + Heeded(cmds[i + 1..])
  {
    WhatRemains(cmds, i);
    Regroup(cmds[..i], [cmds[i]], Heeded(cmds[i + 1..]));
  }

  lemma NothingHeeded(cmds: seq<Command>)
    requires cmds == []
    ensures Heeded(cmds) == []
  {
  }

  lemma Regroup<T>(a: seq<T>, b: seq<T>, c: seq<T>)
    ensures a + (b + c) == a + b + c
  {
  }

  /** What has been seen since the last look, the last anchor and the last pass stays seen. */
  predicate StillSince(w: Since, v: Since) {
    (w.look == AfterPause ==> v.look == AfterPause) && (w.paused ==> v.paused) && v.fast == w.fast
  }

  /** Between two moments of a run only this has changed: what is held, what commands control, and the budget exactly as
      the commands handled in between say. */
  ghost predicate SameRun(w: Watch, v: Watch) {
    && v == w.(hands := v.hands, controls := v.controls, work := v.work, pending := v.pending, seen := v.seen,
               heeded := v.heeded, arms := v.arms, since := v.since, marks := v.marks, poll := v.poll,
               permit := v.permit, readings := v.readings)
    && v.controls.params == w.controls.params && StillSince(w.since, v.since)
    && v.permit.boundary == w.permit.boundary
    && w.heeded <= v.heeded && v.work == WorkAfter(w.work, w.controls.params, v.heeded[|w.heeded|..])
  }

  /** What is held, what is known of the gate, and what commands are due are as they were. */
  ghost predicate Quiet(w: Watch, v: Watch) { v.hands == w.hands && v.poll == w.poll && v.permit == w.permit }

  lemma SameRunMeans(w: Watch, v: Watch)
    requires SameRun(w, v)
    ensures v.grid == w.grid && v.freq == w.freq && v.asked == w.asked && StillSince(w.since, v.since)
    ensures v.work == w.work.(granted := v.work.granted, left := v.work.left, stopped := v.work.stopped)
    ensures v.work.granted >= w.work.granted && v.permit.boundary == w.permit.boundary
  {
    WorkAfterKeeps(w.work, w.controls.params, v.heeded[|w.heeded|..]);
  }

  lemma SameRunTrivial(w: Watch)
    ensures w.heeded <= w.heeded && w.heeded[|w.heeded|..] == []
    ensures WorkAfter(w.work, w.controls.params, []) == w.work && SameRun(w, w)
  {
  }

  lemma SameRunTurn(w: Watch, v: Watch)
    requires v == w.(since := v.since, marks := v.marks, poll := v.poll, permit := v.permit, readings := v.readings)
    requires StillSince(w.since, v.since) && v.permit.boundary == w.permit.boundary
    ensures SameRun(w, v)
  {
    SameRunTrivial(w);
  }

  lemma SameRunTransitive(u: Watch, v: Watch, w: Watch)
    requires SameRun(u, v) && SameRun(v, w)
    ensures SameRun(u, w)
  {
    var (a, b) := (v.heeded[|u.heeded|..], w.heeded[|v.heeded|..]);
    assert w.heeded[|u.heeded|..] == a + b;
    hide WorkAfter;
    WorkAfterAppend(u.work, u.controls.params, a, b);
  }

  lemma Took(w: Watch, c: Command)
    ensures var v := Observe(w, Handled(c));
            && Quiet(w, v) && v.grid == w.grid && v.freq == w.freq && v.marks == w.marks && v.readings == w.readings
            && v.controls == ObserveCommand(w.controls, c) && v.pending == ObservePending(w.pending, Handled(c))
            && v.seen == w.seen + [c]
            && v.work == w.work.(granted := v.work.granted, left := v.work.left, stopped := v.work.stopped)
  {
    hide RunCommand;
    RunCommandKeeps(w.work, w.controls.params, c);
  }

  /** One command handled while idle. */
  lemma IdleTook(w: Watch, c: Command)
    requires !w.work.live
    ensures var v := Observe(w, Handled(c));
            v == w.(controls := ObserveCommand(w.controls, c),
                    asked := ObserveAsked(w.asked, w.controls, false, Handled(c)),
                    pending := ObservePending(w.pending, Handled(c)), seen := w.seen + [c], heeded := w.heeded + [c],
                    arms := w.arms + [ObserveCommand(w.controls, c).armed], since := v.since)
  {
  }

  /** One command handled during a run. */
  lemma InRunTook(w: Watch, c: Command)
    requires w.work.live
    ensures var v := Observe(w, Handled(c));
            && SameRun(w, v) && Quiet(w, v) && v.grid == w.grid && v.asked == w.asked && v.freq == w.freq
            && v.controls == ObserveCommand(w.controls, c) && v.pending == ObservePending(w.pending, Handled(c))
            && v.seen == w.seen + [c] && v.heeded == w.heeded + [c]
            && v.work == RunCommand(w.work, w.controls.params, c)
            && v.work == w.work.(granted := v.work.granted, left := v.work.left, stopped := v.work.stopped)
  {
    hide RunCommand, StopsRun;
    RunCommandKeeps(w.work, w.controls.params, c);
    var more := (w.heeded + [c])[|w.heeded|..];
    assert more == [c];
    assert WorkAfter(w.work, w.controls.params, [c]) == RunCommand(w.work, w.controls.params, c) by {
      assert [c][..0] == [];
    }
  }

  /** What remains after a trigger Down during a run. */
  function LeftAfterDown(left: nat, p: Modes.ModeParams): nat {
    if p.mode == Modes.Burst && left != UNLIMITED then (left + p.burstCount) % WORD else left
  }

  /** A trigger Down during a run stops it, or adds a burst, or does nothing, and a limit that stays one stays exact. */
  lemma DownDoes(w: Work, p: Modes.ModeParams)
    ensures var v := RunCommand(w, p, TriggerDown);
            && v.stopped == (w.stopped || StopsRun(TriggerDown, p.mode)) && v.left == LeftAfterDown(w.left, p)
            && ((w.granted < UNLIMITED ==> w.left + w.completed == w.granted) && v.granted < UNLIMITED
                ==> v.left + w.completed == v.granted)
  {
  }

  lemma RunCommandKeeps(w: Work, p: Modes.ModeParams, c: Command)
    ensures var v := RunCommand(w, p, c); v == w.(granted := v.granted, left := v.left, stopped := v.stopped)
  {
  }

  /** What sending one step does to the record. */
  ghost predicate Sent(w: Watch, v: Watch, es: seq<Input>, step: nat, n: nat, offset: int, last: bool) {
    && v == w.(hands := v.hands, work := v.work, grid := v.grid, since := w.since.(look := NoLook, judged := false))
    && v.work == (if last then w.work.(step := 0, completed := w.work.completed + n, left := Spend(w.work.left, n))
                  else w.work.(step := w.work.step + 1))
    && v.grid == w.grid.(mid := !last, begun := w.grid.begun + (if step == 0 then n else 0),
                         k := w.grid.k + (if last then n else 0), lastDue := LastDue(w.grid, n, offset))
    && v.hands.fits == w.hands.fits && v.hands.state == w.hands.state
    && (v.hands.full ==> w.hands.full && v.hands.held == TrackAll(w.hands.held, es))
  }

  lemma NoSteps(steps: seq<Step>)
    requires steps == []
    ensures TrackAll(NOTHING, FlatInputs(steps)) == NOTHING
  {
  }

  lemma GridKeepsEnd(g: Grid, e: Observation)
    ensures !e.Started? ==> ObserveGrid(g, e).end == g.end
  {
    hide LastDue, Modes.SlotAt;
  }

  lemma SlotZero(t0: int, period: real)
    ensures Modes.SlotAt(t0, period, 0) == t0
  {
    assert 0 as real * period == 0.0;
    assert (0.5).Floor == 0;
  }

  /** The last step of an action is due before the next slot. */
  lemma NextActionRises(c: EngineConfig, layout: Layout, freq: nat, g: Grid, n: nat)
    requires InRange(c) && !c.maxMode && freq > 0 && TimedProgram(c, layout, freq).steps != [] && n >= 1
    requires g.period == Period(freq, c.cps) >= WIDE_PERIOD
    ensures var steps := TimedProgram(c, layout, freq).steps;
            LastDue(g, n, steps[|steps| - 1].offset) < Modes.SlotAt(g.t0, g.period, g.k + n)
  {
    hide TimedProgram, Period, Modes.SlotAt;
    var p := TimedProgram(c, layout, freq);
    NineTicksSuffice(c, layout, freq);
    TimedIsCompiled(c, layout, freq);
    OffsetsWithinSpan(p, |p.steps| - 1);
    var k: nat := g.k + n - 1;
    Modes.GapIsAtLeastFloor(g.t0, g.period, k);
  }

  lemma DueOnTime(g: Grid, fire: int, n: nat, offset: int)
    requires forall i: nat {:trigger Modes.SlotAt(g.t0, g.period, i)} :: g.k <= i < g.k + n ==>
               Modes.SlotAt(g.t0, g.period, i) + offset <= fire && Modes.SlotAt(g.t0, g.period, i) < g.end
    ensures OnTime(g, fire, n, offset)
  {
    hide Modes.SlotAt;
  }

  /** Sending step i in full takes what the first i steps left held to what the first i + 1 leave held, which is
      nothing after the last; so do several copies of an action that is a single step. */
  lemma StepIsClean(c: EngineConfig, layout: Layout, freq: nat, i: nat, n: nat)
    requires c.cps > 0.0 && i < |TimedProgram(c, layout, freq).steps|
    requires 1 <= n && (n > 1 ==> |TimedProgram(c, layout, freq).steps| == 1)
    ensures var steps := TimedProgram(c, layout, freq).steps;
            var before, after := FlatInputs(steps[..i]), FlatInputs(steps[..if i + 1 == |steps| then 0 else i + 1]);
            TrackAll(TrackAll(NOTHING, before), Copies(n, steps[i].inputs)) == TrackAll(NOTHING, after)
            && Size(TrackAll(NOTHING, after)) <= MAX_RELEASE
  {
    hide *;
    ProgramsAreClean(c, layout, freq);
    var steps := TimedProgram(c, layout, freq).steps;
    NextFlat(steps, i);
    TrackAllAppend(NOTHING, FlatInputs(steps[..i]), steps[i].inputs);
    NoSteps(steps[..0]);
    assert steps[..|steps|] == steps;
    if n > 1 { CopiesAreClean(n, steps[i].inputs); }
    PartIsSmall(c, layout, freq, if i + 1 == |steps| then 0 else i + 1);
  }

  lemma {:induction false} FlatPrefix(steps: seq<Step>, i: nat)
    requires i <= |steps|
    ensures |FlatInputs(steps[..i])| <= |FlatInputs(steps)|
    decreases |steps|
  {
    if i < |steps| {
      var init := steps[..|steps| - 1];
      assert init[..i] == steps[..i];
      FlatPrefix(init, i);
    } else {
      assert steps[..i] == steps;
    }
  }

  /** A part of an action holds few keys, so that a release in mid-action has room for all of them. */
  lemma PartIsSmall(c: EngineConfig, layout: Layout, freq: nat, i: nat)
    requires c.cps > 0.0 && i <= |TimedProgram(c, layout, freq).steps|
    ensures Size(TrackAll(NOTHING, FlatInputs(TimedProgram(c, layout, freq).steps[..i]))) <= MAX_RELEASE
  {
    hide TimedProgram, FlatInputs, TrackAll, Size;
    var steps := TimedProgram(c, layout, freq).steps;
    ProgramsAreShort(c, layout, freq);
    FlatPrefix(steps, i);
    FewEventsHoldLittle(FlatInputs(steps[..i]));
  }

  lemma BatchIsClean(c: EngineConfig, layout: Layout, freq: nat, n: nat)
    requires c.cps > 0.0
    ensures TrackAll(NOTHING, Copies(n, MaxProgram(c, layout, freq).flat)) == NOTHING
  {
    hide MaxProgram, TrackAll, Copies;
    ProgramsAreClean(c, layout, freq);
    CopiesAreClean(n, MaxProgram(c, layout, freq).flat);
  }

  lemma NextFlat(steps: seq<Step>, i: nat)
    requires i < |steps|
    ensures FlatInputs(steps[..i + 1]) == FlatInputs(steps[..i]) + steps[i].inputs
    ensures i == 0 ==> TrackAll(NOTHING, FlatInputs(steps[..i])) == NOTHING
  {
    assert steps[..i + 1][..i] == steps[..i];
    if i == 0 { NoSteps(steps[..i]); }
  }

  lemma {:induction false} CopiesAreClean(n: nat, es: seq<Input>)
    requires TrackAll(NOTHING, es) == NOTHING
    ensures TrackAll(NOTHING, Copies(n, es)) == NOTHING
  {
    if n > 0 {
      CopiesAreClean(n - 1, es);
      TrackAllAppend(NOTHING, Copies(n - 1, es), es);
    }
  }

  /** At a rate of at most 1,000,000 per second a counter of 500 kHz gives at least half a tick per action. */
  lemma PeriodOfHalf(c: EngineConfig, freq: nat)
    requires InRange(c) && freq >= 500_000
    ensures Period(freq, c.cps) >= 0.5
  {
    var y := Period(freq, c.cps);
    assert y * c.cps == freq as real;
    MulLt(0.5, y, c.cps);
  }

  lemma {:induction false} CopiesPrefix(copies: nat, n: nat, es: seq<Input>)
    requires n <= copies
    ensures n * |es| <= |Copies(copies, es)| == copies * |es|
    ensures Copies(copies, es)[..n * |es|] == Copies(n, es)
  {
    if copies > 0 {
      assert copies * |es| == (copies - 1) * |es| + |es|;
      if n < copies {
        CopiesPrefix(copies - 1, n, es);
      } else {
        CopiesPrefix(copies - 1, 0, es);
        assert Copies(copies, es)[..n * |es|] == Copies(copies, es);
      }
    }
  }

  /** The buffer for several actions in one call. */
  method CopiesOf(n: nat, es: seq<Input>) returns (r: seq<Input>)
    ensures r == Copies(n, es)
  {
    r := [];
    for i := 0 to n
      invariant r == Copies(i, es)
    {
      r := r + es;
    }
  }
}
