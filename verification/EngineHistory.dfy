/** What can be observed of the scheduler thread, the rules that its observations keep, and what follows from the
    rules for every run. */
module EngineHistory {
  import opened Wrappers
  import opened Input
  import opened Actions
  import opened EngineProgram
  import InputSender
  import Modes
  import PreciseWaiter
  import opened World

  datatype EngineState = Disarmed | Armed | Running | Paused

  datatype Command =
    | SetConfig(cfg: EngineConfig) | Arm(on: bool) | TriggerDown | TriggerUp | StartRun(limits: Modes.RunLimits)
    | StopRun | Emergency | Quit | ResetTotals

  const UNLIMITED: nat := 0xFFFF_FFFF_FFFF_FFFF
  const NO_END: int := 0x7FFF_FFFF_FFFF_FFFF

  /** At most so many actions go out in one call, when catching up and in MAX mode. */
  const MAX_BATCH: nat := 8
  const MAX_COPIES: nat := 256

  const WORD: nat := 0x1_0000_0000_0000_0000

  function MsToTicks(ms: nat, freq: nat): int { (ms as real * freq as real / 1000.0 + 0.5).Floor }

  /** How long a run started by the trigger may last: Burst and Count by actions, Duration by time, at least one. */
  function RunFor(p: Modes.ModeParams): Modes.RunLimits {
    match p.mode
    case Burst => Modes.RunLimits(if p.burstCount == 0 then 1 else p.burstCount, 0)
    case Count => Modes.RunLimits(if p.fixedCount == 0 then 1 else p.fixedCount, 0)
    case Duration => Modes.RunLimits(0, if p.durationMs == 0 then 1 else p.durationMs)
    case _ => Modes.UNLIMITED_RUN
  }

  /** The commands that stop a run: an edge stops it in Hold mode when the trigger goes up, and in the three toggling
      modes when it goes down. */
  predicate StopsRun(c: Command, mode: Modes.TriggerMode) {
    || c == StopRun || c == Emergency || c == Quit || c == Arm(false)
    || (c == TriggerUp && mode == Modes.Hold)
    || (c == TriggerDown && (mode == Modes.Toggle || mode == Modes.Count || mode == Modes.Duration))
  }

  /** How many actions MAX mode prepares for one call. */
  function BatchCap(c: EngineConfig): (n: nat)
    ensures 1 <= n <= MAX_COPIES
  {
    if c.maxBatchActions < 1 then 1 else if c.maxBatchActions > MAX_COPIES then MAX_COPIES else c.maxBatchActions
  }

  datatype Ending =
    | Stopped                                     // by a command
    | Exhausted                                   // no action remains
    | TimeUp                                      // the next slot is not before the end
    | ClockUp(now: int)                           // MAX: the end has come
    | NoProgram
    | LeftMax                                     // a configuration left MAX mode

  /** One call of SendInput: what was handed over, how much of it Windows took, what is held afterwards, and when. */
  datatype Sending = Sending(inputs: seq<Input>, ok: nat, after: Held, at: int)

  /** Where a run makes another pass through a loop: paused, in MAX mode, or on the timeline with the code's own
      counters. */
  datatype Place = WhilePaused | AtFullSpeed | OnTimeline(k: nat, mid: bool, actions: nat, missed: nat)

  datatype Observation =
    | Began(freq: nat, cfg: EngineConfig)         // the thread starts, with the counter's rate and a configuration
    | Waiting                                     // an idle wait has ended; no run is about to start
    | Stored(on: bool)                            // another thread called arm() or emergency()
    | Handled(cmd: Command)
    | Dropped(cmds: seq<Command>)                 // drained behind a Quit during a run
    | Configured(cfg: EngineConfig, prog: ActionProgram, maxProg: ActionProgram)
    | Started(limits: Modes.RunLimits, ticks: int, end: int) // ticks: the duration, if there is one
    | Anchored(t0: int, cps: real, period: real, lastK: nat) // a new grid; lastK: the index the old one had reached
    | Rerated(cps: real, period: real, lastK: nat) // a new rate from the next slot on
    | Missed(n: nat, now: int)
    | Read(reading: Reading)                      // a look at the command flag, the gate or the backlog
    | SentStep(s: Sending, fire: int, n: nat, offset: int, first: bool, last: bool) // n copies of a timed step
    | Looked(now: int)                            // MAX: the time limit was looked at and not reached
    | SentBatch(s: Sending, fire: int, n: nat)    // MAX: n actions
    | Released(sent: seq<Input>, at: seq<int>, after: Held) // releaseAll: what Windows took and what is recorded
    | StateIs(state: EngineState)
    | Pass(remaining: nat, place: Place)          // a pass through the loop of a run begins
    | Ended(why: Ending)

  /** The engine's state and what it holds. fits: no release so far had more than 64 inputs to release. full:
      Windows accepted every input so far. delivered, stamps: every input that Windows took, and when. */
  datatype Hands = Hands(
    state: EngineState, held: Held, fits: bool, full: bool, delivered: seq<Input>, stamps: seq<int>)

  /** blocked: an Emergency was handled, and no arm(true) or startRun came after it. quitting: a Quit was handled.
      edgeDown: the last trigger edge handled is a Down. holdOnly: since an idle wait in Hold mode there were only
      Hold configurations and no manual start. params: of the configured trigger mode. armed: the flag; stores: how
      often other threads have stored it. */
  datatype Controls = Controls(
    blocked: bool, quitting: bool, edgeDown: bool, holdOnly: bool, params: Modes.ModeParams, armed: bool, stores: nat)

  /** Whether a MAX run has looked at its time limit since its last batch, and whether it was paused after that. */
  datatype Look = NoLook | Fresh | AfterPause

  /** paused: there was a pause since the grid was anchored. fast: the last pass was in MAX mode. judged: late slots
      have been given up, and then only other threads have acted. */
  datatype Since = Since(look: Look, paused: bool, fast: bool, judged: bool)

  /** What commands the thread knows of. due: how many have to be handled before anything goes on. done, heard: whether
      it has looked since the last pass of a run began, and since the last idle wait. */
  datatype Polling = Polling(due: nat, done: bool, heard: bool)

  /** Whether the gate and the backlog let actions go out. open: the last reading of the gate in this run, made at that
      time, did not find it closed. boundary: when the last look at slots or at the time limit was. room: since then the
      backlog was read and is small enough. */
  datatype Permit = Permit(open: bool, at: int, boundary: int, room: bool)

  /** The programs and the configuration in use, whether the programs can be run, the next step, and the action budget
      of the current run. left: what remains by 64-bit arithmetic, UNLIMITED for no limit. stopped: a command has
      stopped the run. */
  datatype Work = Work(
    prog: seq<Step>, flat: seq<Input>, ok: bool, maxOk: bool, cfg: EngineConfig, step: nat, live: bool, granted: nat,
    completed: nat, left: nat, stopped: bool)

  /** The timeline of the current run. ticks: how long it may last, if limited. epochs: slots passed in earlier
      epochs. rate: in actions per second. lastDue: when the last step sent on this grid was due. */
  datatype Grid = Grid(
    t0: int, period: real, limited: bool, ticks: int, end: int, k: nat, mid: bool, epochs: nat, anchors: nat,
    begun: nat, missed: nat, rate: real, lastDue: int)

  /** How many idle waits have ended, and how many passes through the loops of runs have begun. */
  datatype Marks = Marks(waits: nat, passes: nat)

  /** asked: the run that the commands since the last idle wait ask for, if it has not started. pending: the last
      configuration handled, if it is not in use yet. seen: every command taken from the queue and handled or dropped.
      heeded: those handled; arms: the armed flag as each of them found or left it. freq: of the counter, 0 before the
      beginning. readings: every look at what other threads have stored. */
  datatype Watch = Watch(
    hands: Hands, controls: Controls, work: Work, grid: Grid, asked: Option<Modes.RunLimits>,
    pending: Option<EngineConfig>, seen: seq<Command>, heeded: seq<Command>, arms: seq<bool>, since: Since,
    marks: Marks, freq: nat, poll: Polling, permit: Permit, readings: seq<Reading>)

  const NO_PARAMS := Modes.ModeParams(Modes.Toggle, 0, 0, 0)
  const NO_CONFIG := EngineConfig(InputAction(KeyChord(NoDevice, 0, 0, false, {}), 0, 1, 0, 120, ScanCode), NO_PARAMS,
                                  false, 1.0, PreciseWaiter.Standard, Skip, 1, 0)
  const NO_GRID := Grid(0, 1.0, false, 0, 0, 0, false, 0, 0, 0, 0, 0.0, 0)
  const START := Watch(Hands(Disarmed, NOTHING, true, true, [], []),
                       Controls(false, false, false, false, NO_PARAMS, false, 0),
                       Work([], [], false, false, NO_CONFIG, 0, false, 0, 0, 0, false), NO_GRID, None, None, [], [], [],
                       Since(NoLook, false, false, false), Marks(0, 0), 0, Polling(0, true, true),
                       Permit(true, 0, 0, false), [])

  function ObserveSending(w: Hands, s: Sending): Hands {
    w.(held := s.after, full := w.full && s.ok == |s.inputs|,
       delivered := if s.ok <= |s.inputs| then w.delivered + s.inputs[..s.ok] else w.delivered,
       stamps := w.stamps + InputSender.Stamps(s.at, s.ok))
  }

  function ObserveHands(w: Hands, e: Observation): Hands {
    match e
    case SentStep(s, _, _, _, _, _) => ObserveSending(w, s)
    case SentBatch(s, _, _) => ObserveSending(w, s)
    case Released(sent, at, after) =>
      w.(held := after, fits := w.fits && Size(w.held) <= MAX_RELEASE, delivered := w.delivered + sent,
         stamps := w.stamps + at)
    case StateIs(s) => w.(state := s)
    case _ => w
  }

  function ObserveCommand(w: Controls, c: Command): Controls {
    match c
    case SetConfig(cfg) => w.(holdOnly := w.holdOnly && cfg.mode.mode == Modes.Hold)
    case Arm(on) => w.(blocked := w.blocked && !on, armed := on)
    case TriggerDown => w.(edgeDown := true)
    case TriggerUp => w.(edgeDown := false)
    case StartRun(_) => w.(blocked := false, holdOnly := false)
    case Emergency => w.(blocked := true, armed := false)
    case Quit => w.(quitting := true)
    case _ => w
  }

  function ObserveControls(w: Controls, e: Observation): Controls {
    match e
    case Waiting => w.(holdOnly := w.params.mode == Modes.Hold)
    case Stored(on) => w.(blocked := w.blocked && !on, armed := on, stores := w.stores + 1)
    case Handled(c) => ObserveCommand(w, c)
    case Configured(cfg, _, _) => w.(params := cfg.mode)
    case _ => w
  }

  /** Adding to the actions that remain, as a 64-bit counter does. */
  function Extend(left: nat, more: nat): nat { if left == UNLIMITED then left else (left + more) % WORD }

  /** Taking n actions from those that remain. */
  function Spend(left: nat, n: nat): nat { if left == UNLIMITED then left else (left - n) % WORD }

  /** What a command does to a run in progress: a trigger Down in Burst mode grants another burst, others stop it. */
  function RunCommand(w: Work, p: Modes.ModeParams, c: Command): Work {
    var stopped := w.stopped || StopsRun(c, p.mode);
    if c == TriggerDown && p.mode == Modes.Burst then
      w.(granted := w.granted + p.burstCount, left := Extend(w.left, p.burstCount), stopped := stopped)
    else
      w.(stopped := stopped)
  }

  function ObserveWork(w: Work, p: Modes.ModeParams, e: Observation): Work {
    match e
    case Handled(c) => if w.live then RunCommand(w, p, c) else w
    case Configured(cfg, prog, maxProg) =>
      w.(prog := prog.steps, flat := maxProg.flat, ok := prog.Ok(), maxOk := maxProg.Ok(), cfg := cfg)
    case Started(l, _, _) =>
      var most := if l.maxActions != 0 then l.maxActions else UNLIMITED;
      w.(step := 0, live := true, granted := most, completed := 0, left := most, stopped := false)
    case SentStep(_, _, n, _, _, last) =>
      if last then w.(step := 0, completed := w.completed + n, left := Spend(w.left, n)) else w.(step := w.step + 1)
    case SentBatch(_, _, n) => w.(completed := w.completed + n, left := Spend(w.left, n))
    case Ended(_) => w.(live := false, step := 0)
    case _ => w
  }

  /** The run that is asked for while idle: by a trigger Down while armed, or by a manual start; a stop, an Emergency
      or, in Hold mode, an Up takes it back. */
  function ObserveAsked(a: Option<Modes.RunLimits>, w: Controls, live: bool, e: Observation): Option<Modes.RunLimits> {
    match e
    case Waiting => None
    case Started(_, _, _) => None
    case Handled(c) =>
      if live then a
      else (match c
            case TriggerDown => if w.armed then Some(RunFor(w.params)) else a
            case TriggerUp => if w.params.mode == Modes.Hold then None else a
            case StartRun(l) => Some(l)
            case StopRun => None
            case Emergency => None
            case _ => a)
    case _ => a
  }

  function ObservePending(p: Option<EngineConfig>, e: Observation): Option<EngineConfig> {
    match e
    case Began(_, c) => Some(c)
    case Handled(SetConfig(c)) => Some(c)
    case Configured(_, _, _) => None
    case _ => p
  }

  /** What may come between a look at the time limit and the batch: stores of other threads, looks at the gate and the
      backlog, or a pause, which begins with a release. */
  predicate IsOfPause(e: Observation) {
    || e.Stored? || e.Read? || e.Released? || e.StateIs? || e.Handled? || e.Dropped?
    || (e.Pass? && e.place == WhilePaused)
  }

  function ObserveLook(w: Look, e: Observation): Look {
    if e.Looked? then Fresh
    else if w == Fresh && (e.Stored? || e.Read?) then Fresh
    else if w == Fresh && e.Released? then AfterPause
    else if w == AfterPause && IsOfPause(e) then AfterPause
    else NoLook
  }

  function ObserveSince(w: Since, e: Observation): Since {
    Since(ObserveLook(w.look, e),
          if e.Started? || e.Anchored? then false else w.paused || e == StateIs(Paused),
          if e.Started? then false else if e.Pass? && e.place != WhilePaused then e.place == AtFullSpeed else w.fast,
          e.Missed? || (w.judged && e.Stored?))
  }

  /** When the step of the last of n actions from index k on is due. */
  function LastDue(g: Grid, n: nat, offset: int): int {
    if n == 0 then g.lastDue else Modes.SlotAt(g.t0, g.period, g.k + n - 1) + offset
  }

  function ObserveGrid(g: Grid, e: Observation): Grid {
    match e
    case Started(l, ticks, end) => NO_GRID.(limited := l.durationMs > 0, ticks := ticks, end := end)
    case Anchored(t0, cps, period, lastK) =>
      g.(epochs := g.epochs + lastK, anchors := g.anchors + 1, k := 0, t0 := t0, period := period, rate := cps,
         lastDue := t0 - 1)
    case Rerated(cps, period, lastK) =>
      var t0 := Modes.SlotAt(g.t0, g.period, g.k);
      g.(epochs := g.epochs + lastK, anchors := g.anchors + 1, k := 0, t0 := t0, period := period, rate := cps,
         lastDue := if g.period >= WIDE_PERIOD then g.lastDue else t0 - 1)
    case Missed(n, _) => g.(missed := g.missed + n, k := g.k + n)
    case SentStep(_, _, n, offset, first, last) =>
      g.(begun := if first then g.begun + n else g.begun, k := if last then g.k + n else g.k, mid := !last,
         lastDue := LastDue(g, n, offset))
    case _ => g
  }

  function ObserveSeen(seen: seq<Command>, e: Observation): seq<Command> {
    match e
    case Handled(c) => seen + [c]
    case Dropped(cs) => seen + cs
    case _ => seen
  }

  function ObserveMarks(w: Marks, e: Observation): Marks {
    match e
    case Waiting => w.(waits := w.waits + 1)
    case Pass(_, _) => w.(passes := w.passes + 1)
    case _ => w
  }

  function Max(a: nat, b: nat): nat { if a >= b then a else b }

  function ObservePolling(w: Polling, e: Observation): Polling {
    match e
    case Read(FlagRead(set_, _, queued)) => Polling(if set_ then Max(w.due, queued) else w.due, true, true)
    case Waiting => w.(heard := false)
    case Started(_, _, _) => w.(done := true)
    case Pass(_, _) => w.(done := false)
    case _ => w
  }

  function ObservePermit(w: Permit, c: EngineConfig, e: Observation): Permit {
    match e
    case Read(GateRead(open, at)) => w.(open := open, at := at)
    case Read(BacklogRead(inflight)) => w.(room := inflight <= c.maxInflight)
    case Started(_, _, _) => Permit(true, 0, 0, false)
    case Missed(_, now) => w.(boundary := now)
    case Looked(now) => w.(boundary := now, room := false)
    case _ => w
  }

  function Observe(w: Watch, e: Observation): Watch {
    var controls := ObserveControls(w.controls, e);
    Watch(ObserveHands(w.hands, e), controls, ObserveWork(w.work, w.controls.params, e), ObserveGrid(w.grid, e),
          ObserveAsked(w.asked, w.controls, w.work.live, e), ObservePending(w.pending, e), ObserveSeen(w.seen, e),
          if e.Handled? then w.heeded + [e.cmd] else w.heeded,
          if e.Handled? then w.arms + [controls.armed] else w.arms,
          ObserveSince(w.since, e), ObserveMarks(w.marks, e), if e.Began? then e.freq else w.freq,
          ObservePolling(w.poll, e), ObservePermit(w.permit, w.work.cfg, e),
          if e.Read? then w.readings + [e.reading] else w.readings)
  }

  // ---------------------------------------------------------------- the rules

  function Copies(n: nat, es: seq<Input>): (r: seq<Input>)
    ensures n == 1 ==> r == es
    ensures es == [] ==> r == []
  {
    if n == 0 then [] else Copies(n - 1, es) + es
  }

  /** What releaseAll leaves recorded. */
  function Freed(h: Held): Held { TrackAll(h, ReleaseList(h)) }

  /** Output happens only while running, and what is held follows what Windows accepted. Outside a run nothing is
      held. */
  ghost predicate HandsRule(w: Hands, e: Observation) {
    match e
    case SentStep(s, _, _, _, _, _) => SendingRule(w, s)
    case SentBatch(s, _, _) => SendingRule(w, s)
    case Released(sent, at, after) =>
      Small(w) && |at| == |sent| && after == Freed(w.held) && sent <= ReleaseList(w.held)
    case StateIs(s) => s != Running && w.fits ==> w.held == NOTHING
    case Waiting => (w.state == Armed || w.state == Disarmed) && (w.fits ==> w.held == NOTHING)
    case _ => true
  }

  /** If Windows accepted everything, a release has room for all that is held. */
  predicate Small(w: Hands) { w.full && w.fits ==> Size(w.held) <= MAX_RELEASE }

  ghost predicate SendingRule(w: Hands, s: Sending) {
    w.state == Running && s.ok <= |s.inputs| && s.after == TrackAll(w.held, s.inputs[..s.ok])
  }

  predicate IsSent(e: Observation) { e.SentStep? || e.SentBatch? }

  /** A run goes on: it sends, or makes another pass through its loop. */
  predicate GoesOn(e: Observation) { IsSent(e) || e.Pass? }

  /** A run may go on. */
  predicate Goes(w: Controls) { !w.blocked && !w.quitting && (w.holdOnly ==> w.edgeDown) }

  predicate ControlsRule(w: Controls, e: Observation) {
    && (GoesOn(e) ==> Goes(w))
    && (e.StateIs? && w.blocked ==> e.state == Disarmed)
    && (e.Dropped? ==> w.quitting)
  }

  /** How many actions a MAX batch has. */
  function BatchSize(w: Work): nat {
    if w.left == UNLIMITED || BatchCap(w.cfg) < w.left then BatchCap(w.cfg) else w.left
  }

  /** The steps of a program are sent one after another, each as it was compiled, several actions in one call only
      when catching up and if an action is a single step. No action begins when none remains, and nothing goes on
      that a command has stopped. A run ends when it is stopped, or has a reason of its own. */
  predicate WorkRule(w: Work, e: Observation) {
    match e
    case SentStep(s, _, n, offset, first, last) =>
      && w.live && !w.stopped && !w.cfg.maxMode && w.step < |w.prog| && 1 <= n <= MAX_BATCH
      && (n > 1 ==> |w.prog| == 1 && w.cfg.latePolicy == CatchUp && n <= w.left) && (first ==> w.left > 0)
      && s.inputs == Copies(n, w.prog[w.step].inputs) && offset == w.prog[w.step].offset
      && first == (w.step == 0) && last == (w.step + 1 == |w.prog|)
    case SentBatch(s, _, n) =>
      && w.live && !w.stopped && w.cfg.maxMode && w.step == 0 && n == BatchSize(w) && s.inputs == Copies(n, w.flat)
    case Looked(_) => w.live && w.cfg.maxMode && w.left > 0
    case Configured(_, _, _) => w.step == 0
    case Started(_, _, _) => !w.live
    case Anchored(_, _, _, _) => w.live && w.step == 0
    case Rerated(_, _, _) => w.live && w.step == 0
    case Missed(_, _) => w.live && w.step == 0
    case StateIs(s) => w.live == (s == Running || s == Paused)
    case Pass(r, _) => w.live && !w.stopped && r == w.left
    case Ended(why) =>
      && w.live
      && (match why
          case Stopped => w.stopped
          case Exhausted => w.left == 0
          case NoProgram => !w.ok || (w.cfg.maxMode && !w.maxOk)
          case LeftMax => !w.cfg.maxMode
          case _ => true)
    case _ => true
  }

  /** No step is sent before its deadline, and no action whose slot is not before the end of the run. */
  ghost predicate OnTime(g: Grid, fire: int, n: nat, offset: int) {
    forall i: nat {:trigger Modes.SlotAt(g.t0, g.period, i)} :: g.k <= i < g.k + n ==>
      Modes.SlotAt(g.t0, g.period, i) + offset <= fire && Modes.SlotAt(g.t0, g.period, i) < g.end
  }

  /** At a period of at least 9 ticks each step is due after the one sent before it in the same epoch. */
  ghost predicate Rises(g: Grid, offset: int) {
    g.period >= WIDE_PERIOD ==> g.lastDue < Modes.SlotAt(g.t0, g.period, g.k) + offset
  }

  function Mid(g: Grid): nat { if g.mid then 1 else 0 }

  /** A run ends on its time limit only when the next slot reaches it. */
  ghost predicate GridRule(g: Grid, e: Observation) {
    match e
    case SentStep(_, fire, n, offset, first, last) =>
      g.anchors > 0 && 1 <= n && first == !g.mid && (n > 1 ==> first && last)
      && OnTime(g, fire, n, offset) && Rises(g, offset)
    case Anchored(_, _, period, lastK) => !g.mid && lastK == g.k && period > 0.0
    case Rerated(_, period, lastK) => !g.mid && g.anchors > 0 && lastK == g.k && period > 0.0
    case Missed(_, _) => !g.mid && g.anchors > 0
    case Looked(now) => now < g.end
    case Ended(TimeUp) => !g.mid && g.anchors > 0 && Modes.SlotAt(g.t0, g.period, g.k) >= g.end
    case Ended(ClockUp(now)) => now >= g.end
    case _ => true
  }

  /** With everything accepted, exactly what the steps of the current action sent so far leave held is held. */
  ghost predicate AsSent(w: Hands, prog: seq<Step>, step: nat) {
    step <= |prog| && (w.full && w.fits ==> w.held == TrackAll(NOTHING, FlatInputs(prog[..step])))
  }

  /** At every pass the code's counters on the timeline conserve slots, and what is held is what was sent, which
      between two actions is nothing. */
  ghost predicate PassRule(w: Watch, e: Observation) {
    e.Pass? ==>
      && AsSent(w.hands, w.work.prog, w.work.step)
      && match e.place
         case WhilePaused => w.hands.state == Paused && w.work.step == 0
         case AtFullSpeed => w.hands.state == Running && w.work.cfg.maxMode && w.work.step == 0
         case OnTimeline(k, mid, actions, missed) =>
           && w.hands.state == Running && !w.work.cfg.maxMode
           && k == w.grid.k && mid == w.grid.mid == (w.work.step > 0)
           && w.grid.epochs + k + Mid(w.grid) == actions + missed
  }

  /** After an emergency stop the engine waits Disarmed. A MAX batch is sent only after a look at the time limit, and
      only a MAX run ends by that, or by leaving MAX mode. On the timeline an action begins only when late slots have
      been given up. A new grid from the present comes only at the start and after a pause. */
  predicate SinceRule(w: Watch, e: Observation) {
    match e
    case Waiting => w.controls.blocked ==> w.hands.state == Disarmed
    case SentStep(_, _, _, _, first, _) => first ==> w.since.judged
    case SentBatch(_, _, _) => w.since.look != NoLook
    case Anchored(_, _, _, _) => w.grid.anchors == 0 || w.since.paused
    case Ended(ClockUp(_)) => w.since.fast
    case Ended(LeftMax) => w.since.fast
    case _ => true
  }

  /** How many slots are given up at an action boundary: none before the first action; then, when skipping or more
      than 250 ms behind, as many as skipLate passes over. */
  function ToSkip(g: Grid, skips: bool, slack: int, now: int): int {
    if g.begun > 0 && (skips || now - Modes.SlotAt(g.t0, g.period, g.k) > slack) then
      Modes.SkipTarget(g.t0, g.period, g.k, now) - g.k
    else 0
  }

  /** Whether these are the programs of a configuration, in some keyboard layout. */
  ghost predicate AreProgramsOf(c: EngineConfig, prog: ActionProgram, maxProg: ActionProgram, freq: nat) {
    exists layout: Layout :: prog == TimedProgram(c, layout, freq) && maxProg == MaxProgram(c, layout, freq)
  }

  /** What is done is what commands ask for. A run is started as the commands since the last idle wait ask for it, and
      by the next wait it has been, unless there is no program. A configuration comes into use when it was handled, and
      before the next action begins on the timeline or a MAX run next looks at its limits. The grid has its rate, and
      loses slots only as skipLate says. */
  ghost predicate OrderRule(w: Watch, e: Observation) {
    && e.Began? == (w.freq == 0)
    && match e
       case Began(freq, _) => freq > 0
       case Waiting => w.pending == None && (w.asked.Some? ==> !w.work.ok)
       case Configured(c, prog, maxProg) => w.pending == Some(c) && AreProgramsOf(c, prog, maxProg, w.freq)
       case Started(l, ticks, _) => w.asked == Some(l) && ticks == MsToTicks(l.durationMs, w.freq)
       case SentStep(_, _, _, _, first, _) => w.grid.rate == w.work.cfg.cps && (first ==> w.pending == None)
       case Looked(_) => w.pending == None
       case Anchored(_, cps, period, _) => cps == w.work.cfg.cps > 0.0 && period == Period(w.freq, cps)
       case Rerated(cps, period, _) =>
         cps == w.work.cfg.cps > 0.0 && period == Period(w.freq, cps) && cps != w.grid.rate
       case Missed(n, now) => n == ToSkip(w.grid, w.work.cfg.latePolicy == Skip, MsToTicks(250, w.freq), now)
       case StateIs(s) => (s == Armed ==> w.controls.armed) && (s == Disarmed ==> !w.controls.armed)
       case _ => true
  }

  /** The last reading of the gate is less than so many ticks older than the look at slots or at the time limit; the
      clock itself may be younger than that. */
  predicate Recent(p: Permit, ticks: int) { p.boundary - p.at < ticks || p.boundary <= p.at || p.boundary < ticks }

  /** Commands and the gate are attended to. Nothing goes on while a command is due, and no run makes another pass, and
      no idle wait and no run begins, without a look for commands. A flag that is not set means that every command
      posted in full has been taken. Nothing is sent while the gate was last found closed, or when that was not looked
      at lately, or by a MAX run with too many events on their way. */
  predicate ReadRule(w: Watch, e: Observation) {
    && (GoesOn(e) || e == Waiting || e.Started? ==> w.poll.due <= |w.seen|)
    && (GoesOn(e) ==> w.poll.done) && (e == Waiting || e.Started? ==> w.poll.heard)
    && (IsSent(e) ==> w.permit.open)
    && match e
       case Read(FlagRead(set_, told, queued)) => told <= queued && (!set_ ==> told <= |w.seen|)
       case SentStep(_, _, _, _, first, _) => first ==> Recent(w.permit, MsToTicks(2, w.freq))
       case SentBatch(_, _, _) =>
         Recent(w.permit, MsToTicks(1, w.freq)) && (w.work.cfg.maxInflight == 0 || w.permit.room)
       case _ => true
  }

  ghost predicate Rule(w: Watch, e: Observation) {
    && HandsRule(w.hands, e) && ControlsRule(w.controls, e) && WorkRule(w.work, e) && GridRule(w.grid, e)
    && SinceRule(w, e) && PassRule(w, e) && OrderRule(w, e) && ReadRule(w, e)
  }

  function Fold(h: seq<Observation>): Watch {
    if h == [] then START else Observe(Fold(h[..|h| - 1]), h[|h| - 1])
  }

  /** Every observation kept the rules when it was made. */
  ghost predicate Accepted(h: seq<Observation>) {
    forall i :: 0 <= i < |h| ==> Rule(Fold(h[..i]), h[i])
  }

  /** What the clock says at an observation made at time t: a step is given to Windows no earlier than the moment that
      was compared with its deadline, a new grid starts at the present, and a time limit runs from the present. */
  ghost predicate TimeRule(e: Observation, t: int) {
    match e
    case SentStep(s, fire, _, _, _, _) => fire <= s.at <= t
    case SentBatch(s, fire, _) => fire <= s.at <= t
    case Released(_, at, _) => forall x :: x in at ==> x <= t
    case Started(l, ticks, end) => end == if l.durationMs > 0 then t + ticks else NO_END
    case Anchored(t0, _, _, _) => t0 == t
    case Missed(_, now) => now == t
    case Ended(ClockUp(now)) => now == t
    case Looked(now) => now == t
    case Read(GateRead(_, at)) => at == t
    case _ => true
  }

  /** times says when each observation was made, by a clock that never goes back. */
  ghost predicate Timely(h: seq<Observation>, times: seq<int>) {
    && |times| == |h|
    && (forall i :: 0 <= i < |h| ==> TimeRule(h[i], times[i]))
    && (forall i, j :: 0 <= i < j < |h| ==> times[i] <= times[j])
  }

  lemma RecordedAt(h: seq<Observation>, times: seq<int>, e: Observation, t: int)
    requires Timely(h, times) && TimeRule(e, t) && (times != [] ==> times[|times| - 1] <= t)
    ensures Timely(h + [e], times + [t])
  {
    hide TimeRule;
  }

  lemma Recorded(h: seq<Observation>, e: Observation)
    requires Accepted(h) && Rule(Fold(h), e)
    ensures Accepted(h + [e]) && Fold(h + [e]) == Observe(Fold(h), e)
  {
    hide Rule, Observe;
    var g := h + [e];
    assert g[..|h|] == h;
    forall i | 0 <= i < |h| ensures Rule(Fold(g[..i]), g[i]) {
      assert g[..i] == h[..i];
    }
  }

  lemma NoHistory(h: seq<Observation>)
    requires h == []
    ensures Fold(h) == START && Accepted(h) && Timely(h, [])
  {
  }

  /** One more event of an accepted history. */
  lemma NextWatch(h: seq<Observation>, i: nat)
    requires Accepted(h) && i < |h|
    ensures Rule(Fold(h[..i]), h[i])
    ensures var (w, v, e) := (Fold(h[..i]), Fold(h[..i + 1]), h[i]);
            && v.hands == ObserveHands(w.hands, e) && v.controls == ObserveControls(w.controls, e)
            && v.work == ObserveWork(w.work, w.controls.params, e) && v.grid == ObserveGrid(w.grid, e)
            && v.seen == ObserveSeen(w.seen, e)
            && v.since == ObserveSince(w.since, e) && v.asked == ObserveAsked(w.asked, w.controls, w.work.live, e)
            && v.pending == ObservePending(w.pending, e)
            && v.poll == ObservePolling(w.poll, e) && v.permit == ObservePermit(w.permit, w.work.cfg, e)
  {
    assert h[..i + 1][..i] == h[..i];
    hide ObserveHands, ObserveControls, ObserveWork, ObserveGrid, Rule;
  }

  // ---------------------------------------------------------------- what follows for whole runs

  lemma NothingHeldStays()
    ensures Freed(NOTHING) == NOTHING
  {
    NothingToRelease(NOTHING);
  }

  lemma IdleStepKeepsNothingHeld(w: Hands, e: Observation)
    requires HandsRule(w, e) && (w.fits && w.state != Running ==> w.held == NOTHING)
    ensures var v := ObserveHands(w, e); v.fits && v.state != Running ==> v.held == NOTHING
  {
    NothingHeldStays();
    hide TrackAll, ReleaseList;
  }

  /** Nothing is ever held while the engine is armed, disarmed or paused, whatever part of each send Windows
      accepted, so long as no release had more than 64 inputs to release. */
  lemma {:induction false} NeverStuck(h: seq<Observation>, i: nat)
    requires Accepted(h) && i <= |h|
    ensures var w := Fold(h[..i]).hands; w.fits && w.state != Running ==> w.held == NOTHING
  {
    if i == 0 {
      NoHistory(h[..0]);
    } else {
      hide HandsRule, ObserveHands, Fold, Accepted;
      NeverStuck(h, i - 1);
      NextWatch(h, i - 1);
      IdleStepKeepsNothingHeld(Fold(h[..i - 1]).hands, h[i - 1]);
    }
  }

  lemma FullStep(w: Hands, e: Observation)
    requires HandsRule(w, e) && (w.full ==> w.fits)
    ensures var v := ObserveHands(w, e); v.full ==> v.fits
  {
    hide TrackAll, ReleaseList;
  }

  lemma {:induction false} FullMeansFits(h: seq<Observation>, i: nat)
    requires Accepted(h) && i <= |h|
    ensures var w := Fold(h[..i]).hands; w.full ==> w.fits
  {
    hide HandsRule, ObserveHands, Fold, Accepted;
    if i == 0 {
      NoHistory(h[..0]);
    } else {
      FullMeansFits(h, i - 1);
      NextWatch(h, i - 1);
      FullStep(Fold(h[..i - 1]).hands, h[i - 1]);
    }
  }

  /** If Windows accepts everything, then at every pass through the loop of a run exactly what the steps of the current
      action sent so far leave held is held: nothing between two actions, in MAX mode and in a pause. PassRule says so
      and every pass leaves its mark; the proof is that the engine meets the rule, by Engine.Clean, which Fire and
      FireBatch keep. */
  lemma CleanBoundaries(h: seq<Observation>, i: nat)
    requires Accepted(h) && i < |h| && h[i].Pass? && Fold(h[..i]).hands.full
    ensures var w := Fold(h[..i]);
            && w.work.step <= |w.work.prog|
            && w.hands.held == TrackAll(NOTHING, FlatInputs(w.work.prog[..w.work.step]))
            && (w.work.step == 0 ==> w.hands.held == NOTHING)
            && (h[i].place.OnTimeline? || w.work.step == 0)
  {
    hide Fold, Accepted, FlatInputs, TrackAll, HandsRule, WorkRule, GridRule, ControlsRule;
    NextWatch(h, i);
    FullMeansFits(h, i);
    var steps := Fold(h[..i]).work.prog;
    NoStepsHoldNothing(steps[..0]);
  }

  lemma NoStepsHoldNothing(steps: seq<Step>)
    requires steps == []
    ensures TrackAll(NOTHING, FlatInputs(steps)) == NOTHING
  {
  }

  predicate Lifts(e: Observation) {
    || e == Stored(true) || e == Handled(Arm(true)) || (e.Handled? && e.cmd.StartRun?)
  }

  lemma BlockedStays(w: Controls, e: Observation)
    requires w.blocked && !Lifts(e)
    ensures ObserveControls(w, e).blocked
  {
  }

  lemma {:induction false} StillBlocked(h: seq<Observation>, i: nat, j: nat)
    requires Accepted(h) && i < j <= |h| && h[i] == Handled(Emergency)
    requires forall m :: i < m < j ==> !Lifts(h[m])
    ensures Fold(h[..j]).controls.blocked
  {
    hide Rule, Fold, Accepted, Lifts;
    NextWatch(h, j - 1);
    if j > i + 1 {
      hide ObserveControls;
      StillBlocked(h, i, j - 1);
      BlockedStays(Fold(h[..j - 1]).controls, h[j - 1]);
    }
  }

  /** Once an Emergency has been handled, from any state, nothing is sent, no run makes another pass through its loop,
      and the engine enters no state but Disarmed, until another thread arms it or asks for a run. */
  lemma EmergencyDominates(h: seq<Observation>, i: nat, j: nat)
    requires Accepted(h) && i < j < |h| && h[i] == Handled(Emergency)
    requires GoesOn(h[j]) || (h[j].StateIs? && h[j].state != Disarmed)
    ensures exists m :: i < m < j && Lifts(h[m])
  {
    hide Fold, Accepted, Lifts, HandsRule, WorkRule, GridRule, SinceRule, OrderRule;
    NextWatch(h, j);
    assert !Fold(h[..j]).controls.blocked;
    if forall m :: i < m < j ==> !Lifts(h[m]) {
      StillBlocked(h, i, j);
    }
  }

  /** And so it is Disarmed with nothing held when it next waits. */
  lemma EmergencyDisarms(h: seq<Observation>, i: nat, j: nat)
    requires Accepted(h) && i < j < |h| && h[i] == Handled(Emergency) && h[j] == Waiting
    requires forall m :: i < m < j ==> !Lifts(h[m])
    ensures var w := Fold(h[..j]).hands; w.state == Disarmed && (w.fits ==> w.held == NOTHING)
  {
    hide Fold, Accepted, Lifts, WorkRule, GridRule, ControlsRule;
    NextWatch(h, j);
    StillBlocked(h, i, j);
  }

  /** All that Windows is given in the meantime are UP events. */
  lemma {:induction false} EmergencyOnlyReleases(h: seq<Observation>, i: nat, j: nat)
    requires Accepted(h) && i < j <= |h| && h[i] == Handled(Emergency)
    requires forall m :: i < m < j ==> !Lifts(h[m])
    ensures var (before, after) := (Fold(h[..i]).hands.delivered, Fold(h[..j]).hands.delivered);
            before <= after && forall e :: e in after[|before|..] ==> IsUp(e)
    decreases j
  {
    hide Rule, Fold, Accepted, Lifts, IsUp;
    NextWatch(h, j - 1);
    var w := Fold(h[..j - 1]).hands;
    if j > i + 1 {
      EmergencyOnlyReleases(h, i, j - 1);
      StillBlocked(h, i, j - 1);
      BlockedOnlyReleases(Fold(h[..j - 1]), h[j - 1]);
    }
  }

  lemma BlockedOnlyReleases(w: Watch, e: Observation)
    requires Rule(w, e) && w.controls.blocked
    ensures exists more :: ObserveHands(w.hands, e).delivered == w.hands.delivered + more
                           && forall u :: u in more ==> IsUp(u)
  {
    hide WorkRule, GridRule, SinceRule, OrderRule, TrackAll, IsUp;
    AllUps(w.hands.held);
    var more := if e.Released? then e.sent else [];
    assert ObserveHands(w.hands, e).delivered == w.hands.delivered + more;
  }

  /** The last trigger edge handled is a Down. */
  predicate LastEdgeIsDown(h: seq<Observation>) {
    h != [] && (var e := h[|h| - 1];
                if e == Handled(TriggerDown) then true
                else if e == Handled(TriggerUp) then false
                else LastEdgeIsDown(h[..|h| - 1]))
  }

  lemma EdgeStep(w: Controls, e: Observation)
    ensures ObserveControls(w, e).edgeDown
         == if e == Handled(TriggerDown) then true else if e == Handled(TriggerUp) then false else w.edgeDown
  {
  }

  lemma {:induction false} EdgeIsLastEdge(h: seq<Observation>)
    ensures Fold(h).controls.edgeDown == LastEdgeIsDown(h)
  {
    if h != [] {
      hide ObserveControls, ObserveHands, ObserveWork, ObserveGrid;
      EdgeIsLastEdge(h[..|h| - 1]);
      EdgeStep(Fold(h[..|h| - 1]).controls, h[|h| - 1]);
    }
  }

  predicate LeavesHold(e: Observation) {
    e.Handled? && (e.cmd.StartRun? || (e.cmd.SetConfig? && e.cmd.cfg.mode.mode != Modes.Hold))
  }

  /** In Hold mode, with no other configuration on its way, since an idle wait. */
  predicate InHold(w: Watch) {
    && w.freq > 0 && w.controls.holdOnly && w.controls.params.mode == Modes.Hold
    && (w.pending.Some? ==> w.pending.value.mode.mode == Modes.Hold)
  }

  lemma HoldStays(w: Watch, e: Observation)
    requires OrderRule(w, e) && InHold(w) && !LeavesHold(e)
    ensures var v := Observe(w, e); InHold(v)
  {
    hide ObserveHands, ObserveWork, ObserveGrid, ObserveAsked, ObserveSeen, ObserveSince, ToSkip, AreProgramsOf;
    hide MsToTicks;
  }

  lemma {:induction false} StillHold(h: seq<Observation>, i: nat, j: nat)
    requires Accepted(h) && i < j <= |h| && h[i] == Waiting
    requires Fold(h[..i]).controls.params.mode == Modes.Hold && forall m :: i < m < j ==> !LeavesHold(h[m])
    ensures InHold(Fold(h[..j]))
  {
    hide Rule, Fold, Accepted, LeavesHold, Observe;
    FoldNext(h, j - 1);
    if j > i + 1 {
      StillHold(h, i, j - 1);
      RuleOrders(Fold(h[..j - 1]), h[j - 1]);
      HoldStays(Fold(h[..j - 1]), h[j - 1]);
    } else {
      RuleOrders(Fold(h[..i]), h[i]);
      HoldBegins(Fold(h[..i]));
    }
  }

  lemma HoldBegins(w: Watch)
    requires OrderRule(w, Waiting) && w.controls.params.mode == Modes.Hold
    ensures InHold(Observe(w, Waiting))
  {
  }

  lemma RuleOrders(w: Watch, e: Observation)
    requires Rule(w, e)
    ensures OrderRule(w, e)
  {
    hide HandsRule, ControlsRule, WorkRule, GridRule, SinceRule, PassRule, OrderRule;
  }

  lemma FoldNext(h: seq<Observation>, i: nat)
    requires Accepted(h) && i < |h|
    ensures Rule(Fold(h[..i]), h[i]) && Fold(h[..i + 1]) == Observe(Fold(h[..i]), h[i])
  {
    hide Rule, Observe;
    assert h[..i + 1][..i] == h[..i];
  }

  /** From an idle wait in Hold mode on, with only Hold configurations and no manual start, every action is sent while
      the last trigger edge handled is a Down. */
  lemma HoldSafety(h: seq<Observation>, i: nat, j: nat)
    requires Accepted(h) && i < j < |h| && h[i] == Waiting && IsSent(h[j])
    requires Fold(h[..i]).controls.params.mode == Modes.Hold && forall m :: i < m < j ==> !LeavesHold(h[m])
    ensures LastEdgeIsDown(h[..j])
  {
    hide Fold, Accepted, LeavesHold, LastEdgeIsDown, HandsRule, WorkRule, GridRule, SinceRule, OrderRule;
    NextWatch(h, j);
    StillHold(h, i, j);
    EdgeIsLastEdge(h[..j]);
  }

  lemma QuitStays(w: Controls, e: Observation)
    requires w.quitting
    ensures ObserveControls(w, e).quitting
  {
  }

  lemma {:induction false} StillQuitting(h: seq<Observation>, i: nat, j: nat)
    requires Accepted(h) && i < j <= |h| && h[i] == Handled(Quit)
    ensures Fold(h[..j]).controls.quitting
  {
    hide Rule, Fold, Accepted;
    NextWatch(h, j - 1);
    if j > i + 1 {
      hide ObserveControls;
      StillQuitting(h, i, j - 1);
      QuitStays(Fold(h[..j - 1]).controls, h[j - 1]);
    }
  }

  /** After a Quit nothing more is sent. */
  lemma NothingAfterQuit(h: seq<Observation>, i: nat, j: nat)
    requires Accepted(h) && i < j < |h| && h[i] == Handled(Quit)
    ensures !IsSent(h[j])
  {
    hide Fold, Accepted, HandsRule, WorkRule, GridRule, SinceRule, OrderRule;
    StillQuitting(h, i, j);
    NextWatch(h, j);
  }

  // ---------------------------------------------------------------- what the history accounts for

  /** Every input that Windows took, according to the history. */
  function Delivered(h: seq<Observation>): seq<Input> {
    if h == [] then []
    else
      var e := h[|h| - 1];
      Delivered(h[..|h| - 1])
      + (if e.Released? then e.sent
         else if IsSent(e) && e.s.ok <= |e.s.inputs| then e.s.inputs[..e.s.ok]
         else [])
  }

  /** When each of them was given to Windows. */
  function GivenAt(h: seq<Observation>): seq<int> {
    if h == [] then []
    else
      var e := h[|h| - 1];
      GivenAt(h[..|h| - 1])
      + (if e.Released? then e.at else if IsSent(e) then InputSender.Stamps(e.s.at, e.s.ok) else [])
  }

  /** How many idle waits have ended. */
  function Waits(h: seq<Observation>): nat {
    if h == [] then 0 else Waits(h[..|h| - 1]) + if h[|h| - 1] == Waiting then 1 else 0
  }

  /** How many passes through the loops of runs have begun. */
  function Passes(h: seq<Observation>): nat {
    if h == [] then 0 else Passes(h[..|h| - 1]) + if h[|h| - 1].Pass? then 1 else 0
  }

  /** The armed flag: what was last stored, by another thread or by a command. */
  predicate IsArmed(h: seq<Observation>) {
    h != [] && match h[|h| - 1]
               case Stored(on) => on
               case Handled(Arm(on)) => on
               case Handled(Emergency) => false
               case _ => IsArmed(h[..|h| - 1])
  }

  /** The armed flag as each handled command found or left it. */
  function ArmedAtCommands(h: seq<Observation>): seq<bool> {
    if h == [] then []
    else ArmedAtCommands(h[..|h| - 1]) + if h[|h| - 1].Handled? then [IsArmed(h)] else []
  }

  /** Every command taken from the queue, in order, according to the history. */
  function Commands(h: seq<Observation>): seq<Command> {
    if h == [] then []
    else
      var e := h[|h| - 1];
      Commands(h[..|h| - 1]) + (if e.Handled? then [e.cmd] else if e.Dropped? then e.cmds else [])
  }

  /** Every look at what other threads have stored, according to the history. */
  function Readings(h: seq<Observation>): seq<Reading> {
    if h == [] then [] else Readings(h[..|h| - 1]) + if h[|h| - 1].Read? then [h[|h| - 1].reading] else []
  }

  lemma {:induction false} FoldAccounts(h: seq<Observation>)
    ensures Fold(h).hands.delivered == Delivered(h) && Fold(h).hands.stamps == GivenAt(h)
    ensures Fold(h).seen == Commands(h) && Fold(h).marks == Marks(Waits(h), Passes(h))
    ensures Fold(h).controls.armed == IsArmed(h) && Fold(h).arms == ArmedAtCommands(h)
    ensures Fold(h).readings == Readings(h)
  {
    if h != [] {
      FoldAccounts(h[..|h| - 1]);
      OneAccounts(Fold(h[..|h| - 1]), h[|h| - 1]);
      hide Observe;
    }
  }

  lemma OneAccounts(w: Watch, e: Observation)
    ensures var v := Observe(w, e);
            && v.hands.delivered
               == w.hands.delivered + (if e.Released? then e.sent
                                       else if IsSent(e) && e.s.ok <= |e.s.inputs| then e.s.inputs[..e.s.ok] else [])
            && v.hands.stamps
               == w.hands.stamps + (if e.Released? then e.at
                                    else if IsSent(e) then InputSender.Stamps(e.s.at, e.s.ok) else [])
            && v.seen == w.seen + (if e.Handled? then [e.cmd] else if e.Dropped? then e.cmds else [])
            && v.marks == Marks(w.marks.waits + (if e == Waiting then 1 else 0),
                                w.marks.passes + (if e.Pass? then 1 else 0))
            && v.arms == w.arms + (if e.Handled? then [v.controls.armed] else [])
            && v.readings == w.readings + (if e.Read? then [e.reading] else [])
            && v.controls.armed == match e
                                   case Stored(on) => on
                                   case Handled(Arm(on)) => on
                                   case Handled(Emergency) => false
                                   case _ => w.controls.armed
  {
    hide InputSender.Stamps, ObserveLook, LastDue, Modes.SlotAt;
  }

  /** Commands are dropped only behind a Quit. */
  lemma DroppedOnlyAfterQuit(h: seq<Observation>, i: nat)
    requires Accepted(h) && i < |h| && h[i].Dropped?
    ensures exists m :: 0 <= m < i && h[m] == Handled(Quit)
  {
    hide Fold, Accepted, HandsRule, WorkRule, GridRule, SinceRule, OrderRule;
    NextWatch(h, i);
    QuittingMeansQuit(h, i);
  }

  lemma {:induction false} QuittingMeansQuit(h: seq<Observation>, i: nat)
    requires Accepted(h) && i <= |h| && Fold(h[..i]).controls.quitting
    ensures exists m :: 0 <= m < i && h[m] == Handled(Quit)
  {
    hide Rule, Fold, Accepted, ObserveHands, ObserveWork, ObserveGrid, ObserveAsked, ObservePending, ObserveSince;
    hide ObservePolling, ObservePermit;
    if i == 0 {
      NoHistory(h[..0]);
    } else {
      NextWatch(h, i - 1);
      if Fold(h[..i - 1]).controls.quitting {
        QuittingMeansQuit(h, i - 1);
      } else {
        assert h[i - 1] == Handled(Quit);
      }
    }
  }

  // ---------------------------------------------------------------- the action budget

  /** What remains makes up the grant with what is completed, so long as the grant is a limit. */
  ghost predicate Budgeted(w: Work) {
    w.live && w.granted < UNLIMITED ==> w.left + w.completed == w.granted && (w.step > 0 ==> w.left > 0)
  }

  lemma WorkStep(w: Work, p: Modes.ModeParams, e: Observation)
    requires WorkRule(w, e) && Budgeted(w)
    ensures Budgeted(ObserveWork(w, p, e))
  {
    hide Copies, StopsRun;
  }

  /** A limited run never completes more actions than it was granted, extensions included; what it completed and what
      the code counts as remaining make up the grant. */
  lemma {:induction false} NeverOverBudget(h: seq<Observation>, i: nat)
    requires Accepted(h) && i <= |h|
    ensures var w := Fold(h[..i]).work;
            Budgeted(w) && (w.live && w.granted < UNLIMITED ==> w.completed <= w.granted)
  {
    if i == 0 {
      NoHistory(h[..0]);
    } else {
      hide WorkRule, ObserveWork, Fold, Accepted, Budgeted;
      NeverOverBudget(h, i - 1);
      NextWatch(h, i - 1);
      WorkStep(Fold(h[..i - 1]).work, Fold(h[..i - 1]).controls.params, h[i - 1]);
      BudgetedMeans(Fold(h[..i]).work);
    }
  }

  lemma BudgetedMeans(w: Work)
    requires Budgeted(w)
    ensures w.live && w.granted < UNLIMITED ==> w.left + w.completed == w.granted
  {
  }

  /** At every pass the actions completed and the actions remaining by the code's own count make up the grant, and a
      run that ends because none remain has completed exactly the grant. */
  lemma BudgetKept(h: seq<Observation>, i: nat)
    requires Accepted(h) && i < |h| && Fold(h[..i]).work.granted < UNLIMITED
    ensures h[i].Pass? ==> Fold(h[..i]).work.completed + h[i].remaining == Fold(h[..i]).work.granted
    ensures h[i] == Ended(Exhausted) ==> Fold(h[..i]).work.completed == Fold(h[..i]).work.granted
  {
    NextWatch(h, i);
    NeverOverBudget(h, i);
    hide Fold, Accepted, HandsRule, GridRule, ControlsRule, AsSent, SinceRule, OrderRule;
  }

  // ---------------------------------------------------------------- slots

  ghost predicate Counted(g: Grid) {
    && g.begun + g.missed == g.epochs + g.k + Mid(g)
    && (g.anchors == 0 ==> g.begun == g.missed == g.epochs == g.k == 0 && !g.mid)
    && (g.anchors > 0 ==> g.period > 0.0)
    && (g.anchors == 1 ==> g.epochs == 0 && (g.begun == 0 || g.begun <= Modes.SlotsBefore(g.end - g.t0, g.period)))
  }

  lemma OnTimeCount(g: Grid, fire: int, n: nat, offset: int)
    requires g.period > 0.0 && n >= 1 && OnTime(g, fire, n, offset)
    ensures g.k + n <= Modes.SlotsBefore(g.end - g.t0, g.period)
  {
    var last: nat := g.k + n - 1;
    assert Modes.SlotAt(g.t0, g.period, last) < g.end;
    Modes.SlotBeforeEndIff(g.t0, g.period, g.end - g.t0, last);
  }

  lemma GridStep(g: Grid, e: Observation)
    requires Counted(g) && GridRule(g, e)
    ensures Counted(ObserveGrid(g, e))
  {
    if e.SentStep? { OnTimeCount(g, e.fire, e.n, e.offset); }
    hide OnTime, Modes.SlotsBefore, Modes.SlotAt;
  }

  lemma {:induction false} AlwaysCounted(h: seq<Observation>, i: nat)
    requires Accepted(h) && i <= |h|
    ensures Counted(Fold(h[..i]).grid)
  {
    if i == 0 {
      NoHistory(h[..0]);
    } else {
      hide GridRule, ObserveGrid, Fold, Accepted, Counted;
      AlwaysCounted(h, i - 1);
      NextWatch(h, i - 1);
      GridStep(Fold(h[..i - 1]).grid, h[i - 1]);
    }
  }

  /** Every slot that has gone by was either used for one action or counted missed once: under skipping, catching
      up, batching, pauses and changes of rate. */
  lemma SlotsConserved(h: seq<Observation>, i: nat)
    requires Accepted(h) && i < |h|
    ensures var g := Fold(h[..i]).grid;
            && g.epochs + g.k + Mid(g) == g.begun + g.missed
            && (h[i].Pass? && h[i].place.OnTimeline? ==>
                  h[i].place.k == g.k && h[i].place.actions + h[i].place.missed == g.begun + g.missed)
  {
    hide Fold, Accepted, WorkRule, HandsRule, ControlsRule, AsSent;
    AlwaysCounted(h, i);
    NextWatch(h, i);
  }

  /** No input of a step is given to Windows before the step's deadline, and no action is sent whose slot is past the
      end, each action of a batch included. h[i].s.at is when SendInput was called, by the sender's own log. */
  lemma NeverEarlyNeverLate(h: seq<Observation>, times: seq<int>, i: nat, j: nat)
    requires Accepted(h) && Timely(h, times) && i < |h| && h[i].SentStep? && j < h[i].n
    ensures var g := Fold(h[..i]).grid;
            Modes.SlotAt(g.t0, g.period, g.k + j) + h[i].offset <= h[i].fire <= h[i].s.at <= times[i]
            && Modes.SlotAt(g.t0, g.period, g.k + j) < g.end
  {
    hide Fold, Accepted, WorkRule, HandsRule, ControlsRule;
    NextWatch(h, i);
    assert TimeRule(h[i], times[i]);
  }

  /** So in the log of what was given to Windows the inputs of a step stand at times from its deadline on. */
  lemma LogIsNeverEarly(h: seq<Observation>, times: seq<int>, i: nat, j: nat, p: nat)
    requires Accepted(h) && Timely(h, times) && i < |h| && h[i].SentStep? && j < h[i].n
    requires |GivenAt(h[..i])| <= p < |GivenAt(h[..i + 1])|
    ensures |GivenAt(h[..i + 1])| == |GivenAt(h[..i])| + h[i].s.ok && p < |GivenAt(h)|
    ensures var g := Fold(h[..i]).grid; Modes.SlotAt(g.t0, g.period, g.k + j) + h[i].offset <= GivenAt(h)[p]
  {
    hide Fold, Accepted, Timely, GivenAt, Modes.SlotAt;
    StampOfStep(h, i, p);
    NeverEarlyNeverLate(h, times, i, j);
  }

  lemma StampOfStep(h: seq<Observation>, i: nat, p: nat)
    requires i < |h| && h[i].SentStep? && |GivenAt(h[..i])| <= p < |GivenAt(h[..i + 1])|
    ensures |GivenAt(h[..i + 1])| == |GivenAt(h[..i])| + h[i].s.ok && p < |GivenAt(h)|
    ensures GivenAt(h)[p] == h[i].s.at
  {
    assert h[..i + 1][..i] == h[..i];
    LogGrows(h, i + 1);
    var t := InputSender.Stamps(h[i].s.at, h[i].s.ok);
    assert GivenAt(h[..i + 1]) == GivenAt(h[..i]) + t;
    assert t[p - |GivenAt(h[..i])|] in t;
  }

  lemma {:induction false} LogGrows(h: seq<Observation>, i: nat)
    requires i <= |h|
    ensures GivenAt(h[..i]) <= GivenAt(h)
    decreases |h|
  {
    if i < |h| {
      var init := h[..|h| - 1];
      assert init[..i] == h[..i];
      LogGrows(init, i);
    } else {
      assert h[..i] == h;
    }
  }

  /** A run that stays in one epoch begins at most ceil((D - 1/2) / period) actions, where D is the time from its
      anchor to its end; and exactly that many if it misses none and ends on its time limit. */
  lemma OneEpochCount(h: seq<Observation>, i: nat)
    requires Accepted(h) && i < |h| && Fold(h[..i]).grid.anchors == 1
    ensures var g := Fold(h[..i]).grid;
            g.period > 0.0 &&
            var most := Modes.SlotsBefore(g.end - g.t0, g.period);
            && g.begun <= (if most > 0 then most else 0)
            && (h[i] == Ended(TimeUp) && g.missed == 0 ==> g.begun == (if most > 0 then most else 0))
  {
    hide Fold, Accepted, WorkRule, HandsRule, ControlsRule, PassRule, Modes.SlotsBefore, Modes.SlotAt;
    AlwaysCounted(h, i);
    NextWatch(h, i);
    var g := Fold(h[..i]).grid;
    Modes.SlotBeforeEndIff(g.t0, g.period, g.end - g.t0, g.k);
  }

  /** The limit of a run has not begun later than now, and its first grid no earlier than the limit. */
  predicate Limited(g: Grid, now: int) {
    g.limited ==> g.end - g.ticks <= now && (g.anchors == 1 ==> g.end - g.t0 <= g.ticks)
  }

  lemma LimitStep(g: Grid, e: Observation, before: int, t: int)
    requires Limited(g, before) && before <= t && TimeRule(e, t)
    ensures Limited(ObserveGrid(g, e), t) || (e.Rerated? && g.anchors == 0)
  {
    hide LastDue, Modes.SlotAt;
  }

  lemma {:induction false} AlwaysLimited(h: seq<Observation>, times: seq<int>, i: nat)
    requires Accepted(h) && Timely(h, times) && i < |h|
    ensures Limited(Fold(h[..i + 1]).grid, times[i])
  {
    hide Rule, ObserveGrid, Fold, Accepted, TimeRule, Limited;
    NextWatch(h, i);
    NoHistory(h[..0]);
    if i > 0 { AlwaysLimited(h, times, i - 1); }
    assert i == 0 ==> Limited(START.grid, times[i]) by { NotLimited(times[i]); }
    LimitStep(Fold(h[..i]).grid, h[i], if i > 0 then times[i - 1] else times[i], times[i]);
    assert !(h[i].Rerated? && Fold(h[..i]).grid.anchors == 0) by { RerateNeedsAnchor(Fold(h[..i]), h[i]); }
  }

  lemma NotLimited(now: int)
    ensures Limited(START.grid, now)
  {
  }

  lemma RerateNeedsAnchor(w: Watch, e: Observation)
    requires Rule(w, e)
    ensures !(e.Rerated? && w.grid.anchors == 0)
  {
    hide HandsRule, WorkRule, ControlsRule, PassRule;
  }

  /** A Duration run of T ticks that stays in one epoch begins at most ceil((T - 1/2) / period) actions. */
  lemma DurationBound(h: seq<Observation>, times: seq<int>, i: nat)
    requires Accepted(h) && Timely(h, times) && i < |h| && Fold(h[..i]).grid.anchors == 1
    requires Fold(h[..i]).grid.limited
    ensures var g := Fold(h[..i]).grid;
            g.period > 0.0 &&
            var most := Modes.SlotsBefore(g.ticks, g.period);
            g.begun <= (if most > 0 then most else 0)
  {
    hide Rule, Fold, Accepted, Timely, Modes.SlotsBefore;
    OneEpochCount(h, i);
    NoHistory(h[..0]);
    AlwaysLimited(h, times, i - 1);
    var g := Fold(h[..i]).grid;
    Modes.MoreTimeMoreSlots(g.end - g.t0, g.ticks, g.period);
  }

  // ---------------------------------------------------------------- order on a grid

  /** What starts a new grid from the present. */
  predicate NewGrid(e: Observation) { e.Anchored? || e.Started? }

  lemma DueStep(g: Grid, e: Observation)
    requires GridRule(g, e) && !NewGrid(e) && g.period >= WIDE_PERIOD
    ensures ObserveGrid(g, e).lastDue >= g.lastDue
  {
    if e.SentStep? { Modes.SlotMonotone(g.t0, g.period, g.k, g.k + e.n - 1); }
    hide OnTime, Modes.SlotAt;
  }

  lemma {:induction false} DueNeverFalls(h: seq<Observation>, i: nat, j: nat)
    requires Accepted(h) && i <= j <= |h|
    requires forall m :: i <= m < j ==> Fold(h[..m]).grid.period >= WIDE_PERIOD && !NewGrid(h[m])
    ensures Fold(h[..j]).grid.lastDue >= Fold(h[..i]).grid.lastDue
    decreases j - i
  {
    hide GridRule, ObserveGrid, Fold, Accepted, NewGrid;
    if i < j {
      DueNeverFalls(h, i, j - 1);
      NextWatch(h, j - 1);
      DueStep(Fold(h[..j - 1]).grid, h[j - 1]);
    }
  }

  /** In every run, while the period is at least 9 ticks: of two steps sent with no fresh start of the grid between
      them the later one is due strictly after the earlier one, the last action of a batch included. So the UP of an
      action is due, and sent, before the DOWN of the next one is due, also when the action was exchanged or the rate
      changed in between. */
  lemma StepsInOrder(h: seq<Observation>, i: nat, j: nat)
    requires Accepted(h) && i < j < |h| && h[i].SentStep? && h[j].SentStep?
    requires forall m :: i <= m <= j ==> Fold(h[..m]).grid.period >= WIDE_PERIOD
    requires forall m :: i < m < j ==> !NewGrid(h[m])
    ensures var (g, g') := (Fold(h[..i]).grid, Fold(h[..j]).grid);
            LastDue(g, h[i].n, h[i].offset) < Modes.SlotAt(g'.t0, g'.period, g'.k) + h[j].offset
  {
    hide Fold, Accepted, WorkRule, HandsRule, ControlsRule, OnTime, Modes.SlotAt;
    NextWatch(h, i);
    DueNeverFalls(h, i + 1, j);
    NextWatch(h, j);
    assert Fold(h[..j]).grid.period >= WIDE_PERIOD;
  }

  // ---------------------------------------------------------------- the time limit in MAX mode

  predicate OnlyLooks(e: Observation) { e.Stored? || e.Read? }

  /** From the look at m to j there is nothing but stores of other threads and looks at the gate and the backlog, or a
      pause. */
  predicate LookedAt(h: seq<Observation>, m: nat, j: nat) {
    && m < j <= |h| && h[m].Looked? && (forall n :: m < n < j ==> IsOfPause(h[n]))
    && ((forall n :: m < n < j ==> OnlyLooks(h[n])) || (exists n :: m < n < j && h[n].Released?))
  }

  lemma {:induction false} LookIsReal(h: seq<Observation>, j: nat) returns (m: nat)
    requires Accepted(h) && j <= |h| && Fold(h[..j]).since.look != NoLook
    ensures LookedAt(h, m, j)
    ensures Fold(h[..j]).since.look == Fresh ==> forall n :: m < n < j ==> OnlyLooks(h[n])
    ensures Fold(h[..j]).since.look == AfterPause ==> exists n :: m < n < j && h[n].Released?
    ensures Fold(h[..m]).grid.end == Fold(h[..j]).grid.end
  {
    hide Rule, Fold, Accepted, IsOfPause, OnlyLooks;
    NoHistory(h[..0]);
    NextWatch(h, j - 1);
    var e := h[j - 1];
    LookStep(Fold(h[..j - 1]), e);
    if e.Looked? {
      m := j - 1;
    } else {
      m := LookIsReal(h, j - 1);
      assert forall n :: m < n < j ==> n < j - 1 || h[n] == e;
      if Fold(h[..j]).since.look == AfterPause && Fold(h[..j - 1]).since.look == Fresh { assert h[j - 1].Released?; }
    }
  }

  lemma LookStep(w: Watch, e: Observation)
    ensures var look := ObserveLook(w.since.look, e);
            look != NoLook ==>
              && ObserveGrid(w.grid, e).end == w.grid.end
              && (e.Looked? ==> look == Fresh)
              && (!e.Looked? ==>
                    && w.since.look != NoLook && IsOfPause(e)
                    && (look == Fresh ==> w.since.look == Fresh && OnlyLooks(e))
                    && (look == AfterPause && w.since.look == Fresh ==> e.Released?))
  {
    hide LastDue, Modes.SlotAt;
  }

  /** The time limit is looked at before the gate and not again: each batch of a MAX run follows a look that was before
      the end, and between the two there is nothing but stores of other threads and looks at the gate and the backlog,
      or a pause. So a batch is late, at or after the end, only by the time between two readings of the clock, or by a
      pause. */
  lemma LateBatch(h: seq<Observation>, times: seq<int>, j: nat) returns (m: nat)
    requires Accepted(h) && Timely(h, times) && j < |h| && h[j].SentBatch?
    ensures LookedAt(h, m, j) && times[m] < Fold(h[..j]).grid.end
  {
    hide Fold, Accepted, HandsRule, ControlsRule, GridRule, WorkRule, PassRule, LookedAt;
    NextWatch(h, j);
    m := LookIsReal(h, j);
    assert h[m].Looked? by { LookedMeans(h, m, j); }
    NextWatch(h, m);
    assert TimeRule(h[m], times[m]);
    LookIsEarly(Fold(h[..m]), h[m]);
  }

  lemma LookedMeans(h: seq<Observation>, m: nat, j: nat)
    requires LookedAt(h, m, j)
    ensures m < j <= |h| && h[m].Looked?
  {
  }

  lemma LookIsEarly(w: Watch, e: Observation)
    requires Rule(w, e) && e.Looked?
    ensures e.now < w.grid.end
  {
    hide HandsRule, WorkRule, ControlsRule, PassRule;
  }
}
