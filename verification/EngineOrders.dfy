/** What the runs of an accepted history owe to the commands: that they were asked for, how long they may last, which
    configuration they use, what stops them. */
module EngineOrders {
  import opened Wrappers
  import opened Input
  import opened Actions
  import opened EngineProgram
  import opened EngineHistory
  import Modes
  import opened World

  // ---------------------------------------------------------------- the limit of a run

  /** The parameters of the configured trigger mode. */
  function ParamsOf(h: seq<Observation>): Modes.ModeParams {
    if h == [] then NO_PARAMS
    else if h[|h| - 1].Configured? then h[|h| - 1].cfg.mode
    else ParamsOf(h[..|h| - 1])
  }

  /** The limits with which the last run was started. */
  function LimitsOf(h: seq<Observation>): Modes.RunLimits {
    if h == [] then Modes.UNLIMITED_RUN
    else if h[|h| - 1].Started? then h[|h| - 1].limits
    else LimitsOf(h[..|h| - 1])
  }

  /** What the trigger presses handled since then have added, in Burst mode. */
  function Bursts(h: seq<Observation>): nat {
    if h == [] || h[|h| - 1].Started? then 0
    else
      var init := h[..|h| - 1];
      var p := ParamsOf(init);
      Bursts(init) + (if h[|h| - 1] == Handled(TriggerDown) && p.mode == Modes.Burst then p.burstCount else 0)
  }

  /** The actions completed since then. */
  function Done(h: seq<Observation>): nat {
    if h == [] || h[|h| - 1].Started? then 0
    else
      var e := h[|h| - 1];
      Done(h[..|h| - 1]) + (if e.SentBatch? || (e.SentStep? && e.last) then e.n else 0)
  }

  function Most(l: Modes.RunLimits): nat { if l.maxActions != 0 then l.maxActions else UNLIMITED }

  /** The record of the run agrees with the observations. */
  ghost predicate Agrees(w: Watch, p: Modes.ModeParams, l: Modes.RunLimits, bursts: nat, done: nat) {
    && w.controls.params == p
    && (w.work.live ==>
          && w.freq > 0 && w.work.granted == Most(l) + bursts && w.work.completed == done
          && (l.maxActions == 0 ==> w.work.left == UNLIMITED)
          && w.grid.limited == (l.durationMs > 0) && w.grid.ticks == MsToTicks(l.durationMs, w.freq))
  }

  lemma AgreesStep(w: Watch, e: Observation, g: seq<Observation>)
    requires Rule(w, e) && Agrees(w, ParamsOf(g), LimitsOf(g), Bursts(g), Done(g))
    ensures var h := g + [e]; Agrees(Observe(w, e), ParamsOf(h), LimitsOf(h), Bursts(h), Done(h))
  {
    hide HandsRule, ControlsRule, GridRule, SinceRule, PassRule, MsToTicks, Copies, StopsRun, LastDue, ObserveHands;
    hide ObserveAsked, ObservePending, ObserveSeen, ObserveSince, ObserveMarks, Modes.SlotAt, ToSkip, AreProgramsOf;
    hide ParamsOf, LimitsOf, Bursts, Done;
    OneMore(g, e);
  }

  lemma AgreesAtFirst()
    ensures Agrees(START, ParamsOf([]), LimitsOf([]), Bursts([]), Done([]))
  {
  }

  lemma {:induction false} RunAgrees(h: seq<Observation>, i: nat)
    requires Accepted(h) && i <= |h|
    ensures Agrees(Fold(h[..i]), ParamsOf(h[..i]), LimitsOf(h[..i]), Bursts(h[..i]), Done(h[..i]))
  {
    hide Rule, Observe, Fold, Accepted, Agrees, ParamsOf, LimitsOf, Bursts, Done;
    if i == 0 {
      NoHistory(h[..0]);
      AgreesAtFirst();
    } else {
      RunAgrees(h, i - 1);
      FoldNext(h, i - 1);
      assert h[..i] == h[..i - 1] + [h[i - 1]];
      AgreesStep(Fold(h[..i - 1]), h[i - 1], h[..i - 1]);
    }
  }

  lemma OneMore(g: seq<Observation>, e: Observation)
    ensures var (h, p) := (g + [e], ParamsOf(g));
            && ParamsOf(h) == (if e.Configured? then e.cfg.mode else p)
            && LimitsOf(h) == (if e.Started? then e.limits else LimitsOf(g))
            && Bursts(h) == (if e.Started? then 0
                             else Bursts(g) + (if e == Handled(TriggerDown) && p.mode == Modes.Burst then p.burstCount
                                               else 0))
            && Done(h) == (if e.Started? then 0
                           else Done(g) + (if e.SentBatch? || (e.SentStep? && e.last) then e.n else 0))
  {
    assert (g + [e])[..|g|] == g;
  }

  /** A run started with a limit of N actions completes at most N and the bursts asked for while it lasts, and exactly
      that many if it ends because none remain; a run without a limit does not end for that. */
  lemma LimitKept(h: seq<Observation>, i: nat)
    requires Accepted(h) && i < |h| && Fold(h[..i]).work.live
    ensures var (most, done) := (LimitsOf(h[..i]).maxActions + Bursts(h[..i]), Done(h[..i]));
            if LimitsOf(h[..i]).maxActions == 0 then h[i] != Ended(Exhausted)
            else most < UNLIMITED ==>
                   && done <= most && (h[i] == Ended(Exhausted) ==> done == most)
                   && (h[i].Pass? ==> h[i].remaining == most - done)
  {
    hide Fold, Accepted, HandsRule, ControlsRule, GridRule, SinceRule, PassRule, OrderRule, MsToTicks;
    RunAgrees(h, i);
    NeverOverBudget(h, i);
    NextWatch(h, i);
  }

  /** A run started with a duration, in one epoch, begins at most ceil((T - 1/2) / period) actions, T being that
      duration in ticks. */
  lemma DurationKept(h: seq<Observation>, times: seq<int>, i: nat)
    requires Accepted(h) && Timely(h, times) && i < |h| && Fold(h[..i]).work.live
    requires LimitsOf(h[..i]).durationMs > 0 && Fold(h[..i]).grid.anchors == 1
    ensures var g := Fold(h[..i]).grid;
            g.period > 0.0 &&
            var most := Modes.SlotsBefore(MsToTicks(LimitsOf(h[..i]).durationMs, Fold(h[..i]).freq), g.period);
            g.begun <= (if most > 0 then most else 0)
  {
    hide Fold, Accepted, Timely, MsToTicks, Modes.SlotsBefore;
    RunAgrees(h, i);
    DurationBound(h, times, i);
  }

  // ---------------------------------------------------------------- who asked for a run

  /** A command that asks for a run with limits l: a manual start, or a trigger Down while idle and armed. */
  predicate AsksFor(w: Watch, e: Observation, l: Modes.RunLimits) {
    && e.Handled? && !w.work.live
    && (e.cmd == StartRun(l) || (e.cmd == TriggerDown && w.controls.armed && l == RunFor(w.controls.params)))
  }

  /** What settles it: the run starts, or a command takes it back, or it comes to nothing. */
  predicate Settles(w: Watch, e: Observation) {
    || e == Waiting || e.Started?
    || (e.Handled? && !w.work.live
        && (e.cmd == StopRun || e.cmd == Emergency || (e.cmd == TriggerUp && w.controls.params.mode == Modes.Hold)))
  }

  lemma AskedStep(w: Watch, e: Observation)
    ensures var a := Observe(w, e).asked;
            && (a.Some? ==> AsksFor(w, e, a.value) || (a == w.asked && !Settles(w, e)))
            && (forall l {:trigger AsksFor(w, e, l)} :: AsksFor(w, e, l) ==> a == Some(l))
            && (w.asked.Some? && !Settles(w, e) ==> a.Some?)
  {
    hide ObserveHands, ObserveWork, ObserveGrid, ObserveSince, RunFor;
  }

  lemma {:induction false} AskIsReal(h: seq<Observation>, i: nat) returns (m: nat)
    requires Accepted(h) && i <= |h| && Fold(h[..i]).asked.Some?
    ensures m < i && AsksFor(Fold(h[..m]), h[m], Fold(h[..i]).asked.value)
    ensures forall n {:trigger h[n]} :: m < n < i ==> !Settles(Fold(h[..n]), h[n])
  {
    hide Rule, Observe, Fold, Accepted, AsksFor, Settles;
    NoHistory(h[..0]);
    FoldNext(h, i - 1);
    var (w, e) := (Fold(h[..i - 1]), h[i - 1]);
    AskedStep(w, e);
    if AsksFor(w, e, Fold(h[..i]).asked.value) {
      m := i - 1;
    } else {
      m := AskIsReal(h, i - 1);
    }
  }

  /** Every run was asked for, with its limits, by a command handled since the last wait and the last run, and nothing
      has taken it back. */
  lemma EveryRunIsAsked(h: seq<Observation>, i: nat) returns (m: nat)
    requires Accepted(h) && i < |h| && h[i].Started?
    ensures m < i && AsksFor(Fold(h[..m]), h[m], h[i].limits)
    ensures forall n {:trigger h[n]} :: m < n < i ==> !Settles(Fold(h[..n]), h[n])
  {
    hide Fold, Accepted, HandsRule, ControlsRule, WorkRule, GridRule, SinceRule, PassRule, AsksFor, Settles, MsToTicks;
    NextWatch(h, i);
    m := AskIsReal(h, i);
  }

  lemma {:induction false} StillAsked(h: seq<Observation>, i: nat, j: nat, l: Modes.RunLimits)
    requires Accepted(h) && i < j <= |h| && AsksFor(Fold(h[..i]), h[i], l)
    requires forall n {:trigger h[n]} :: i < n < j ==> !Settles(Fold(h[..n]), h[n])
    ensures Fold(h[..j]).asked.Some?
  {
    hide Rule, Observe, Fold, Accepted, AsksFor, Settles;
    FoldNext(h, j - 1);
    AskedStep(Fold(h[..j - 1]), h[j - 1]);
    if j > i + 1 { StillAsked(h, i, j - 1, l); }
  }

  /** And every run that is asked for is started before the next wait, unless it is taken back or there is nothing that
      can be run. */
  lemma EveryAskIsHeard(h: seq<Observation>, i: nat, j: nat, l: Modes.RunLimits)
    requires Accepted(h) && i < j < |h| && AsksFor(Fold(h[..i]), h[i], l) && h[j] == Waiting
    ensures (exists n {:trigger h[n]} :: i < n < j && Settles(Fold(h[..n]), h[n])) || !Fold(h[..j]).work.ok
  {
    hide Fold, Accepted, HandsRule, ControlsRule, WorkRule, GridRule, SinceRule, PassRule, AsksFor, Settles;
    NextWatch(h, j);
    if forall n {:trigger h[n]} :: i < n < j ==> !Settles(Fold(h[..n]), h[n]) { StillAsked(h, i, j, l); }
  }

  // ---------------------------------------------------------------- what stops a run

  lemma StopStep(w: Watch, e: Observation)
    ensures var (u, v) := (w.work, Observe(w, e).work);
            && (u.stopped && !e.Started? ==> v.stopped)
            && (v.stopped ==> u.stopped || (e.Handled? && u.live && StopsRun(e.cmd, w.controls.params.mode)))
            && (e.Handled? && u.live && StopsRun(e.cmd, w.controls.params.mode) ==> v.stopped)
  {
    hide ObserveHands, ObserveGrid, ObserveSince, ObserveAsked, StopsRun;
  }

  lemma {:induction false} StillStopped(h: seq<Observation>, i: nat, j: nat)
    requires Accepted(h) && i < j <= |h| && h[i].Handled? && Fold(h[..i]).work.live
    requires StopsRun(h[i].cmd, Fold(h[..i]).controls.params.mode) && forall n :: i < n < j ==> !h[n].Started?
    ensures Fold(h[..j]).work.stopped
  {
    hide Rule, Observe, Fold, Accepted, StopsRun;
    FoldNext(h, j - 1);
    StopStep(Fold(h[..j - 1]), h[j - 1]);
    if j > i + 1 { StillStopped(h, i, j - 1); }
  }

  /** Once a command that stops the run has been handled, nothing is sent and no loop makes another pass until another
      run starts. */
  lemma StopIsHeeded(h: seq<Observation>, i: nat, j: nat)
    requires Accepted(h) && i < j < |h| && h[i].Handled? && Fold(h[..i]).work.live
    requires StopsRun(h[i].cmd, Fold(h[..i]).controls.params.mode) && GoesOn(h[j])
    ensures exists n :: i < n < j && h[n].Started?
  {
    hide Fold, Accepted, HandsRule, ControlsRule, GridRule, SinceRule, PassRule, OrderRule, StopsRun, Copies;
    NextWatch(h, j);
    if forall n :: i < n < j ==> !h[n].Started? { StillStopped(h, i, j); }
  }

  lemma {:induction false} StopIsReal(h: seq<Observation>, j: nat) returns (i: nat)
    requires Accepted(h) && j <= |h| && Fold(h[..j]).work.stopped
    ensures i < j && h[i].Handled? && Fold(h[..i]).work.live
    ensures StopsRun(h[i].cmd, Fold(h[..i]).controls.params.mode) && forall n :: i < n < j ==> !h[n].Started?
  {
    hide Rule, Observe, Fold, Accepted, StopsRun;
    NoHistory(h[..0]);
    FoldNext(h, j - 1);
    var (w, e) := (Fold(h[..j - 1]), h[j - 1]);
    StopStep(w, e);
    StartedIsNotStopped(w, e);
    if w.work.stopped && !e.Started? {
      i := StopIsReal(h, j - 1);
    } else {
      i := j - 1;
    }
  }

  lemma StartedIsNotStopped(w: Watch, e: Observation)
    ensures e.Started? ==> !Observe(w, e).work.stopped
  {
  }

  /** A run that ends as stopped was stopped by a command handled while it lasted. */
  lemma StoppedByCommand(h: seq<Observation>, j: nat) returns (i: nat)
    requires Accepted(h) && j < |h| && h[j] == Ended(Stopped)
    ensures i < j && h[i].Handled? && Fold(h[..i]).work.live
    ensures StopsRun(h[i].cmd, Fold(h[..i]).controls.params.mode) && forall n :: i < n < j ==> !h[n].Started?
  {
    hide Fold, Accepted, HandsRule, ControlsRule, GridRule, SinceRule, PassRule, OrderRule, StopsRun;
    NextWatch(h, j);
    i := StopIsReal(h, j);
  }

  // ---------------------------------------------------------------- which configuration is used

  /** The last configuration handled, or the one at the beginning. */
  function LastConfig(h: seq<Observation>): EngineConfig {
    if h == [] then NO_CONFIG
    else match h[|h| - 1]
         case Began(_, c) => c
         case Handled(SetConfig(c)) => c
         case _ => LastConfig(h[..|h| - 1])
  }

  lemma ConfigStep(w: Watch, e: Observation, c: EngineConfig)
    requires OrderRule(w, e) && c == (if w.pending.Some? then w.pending.value else w.work.cfg)
    ensures var v := Observe(w, e);
            (if v.pending.Some? then v.pending.value else v.work.cfg)
            == match e
               case Began(_, d) => d
               case Handled(SetConfig(d)) => d
               case _ => c
  {
    hide ObserveHands, ObserveGrid, ObserveSince, ObserveAsked, StopsRun, AreProgramsOf, MsToTicks, ToSkip, Period;
  }

  lemma {:induction false} ConfigIsLast(h: seq<Observation>, i: nat)
    requires Accepted(h) && i <= |h|
    ensures var w := Fold(h[..i]);
            LastConfig(h[..i]) == if w.pending.Some? then w.pending.value else w.work.cfg
  {
    hide Rule, Observe, Fold, Accepted, OrderRule;
    if i == 0 {
      NoHistory(h[..0]);
    } else {
      ConfigIsLast(h, i - 1);
      FoldNext(h, i - 1);
      RuleOrders(Fold(h[..i - 1]), h[i - 1]);
      assert h[..i][..i - 1] == h[..i - 1];
      ConfigStep(Fold(h[..i - 1]), h[i - 1], LastConfig(h[..i - 1]));
    }
  }

  /** No configuration comes into use but the last one handled; and it is in use at every idle wait and whenever an
      action begins on the timeline, or a MAX run looks at its limits. */
  lemma LastConfigIsUsed(h: seq<Observation>, i: nat)
    requires Accepted(h) && i < |h|
    ensures h[i].Configured? ==> h[i].cfg == LastConfig(h[..i])
    ensures h[i] == Waiting || h[i].Looked? || (h[i].SentStep? && h[i].first) ==>
              Fold(h[..i]).work.cfg == LastConfig(h[..i])
  {
    hide Fold, Accepted, Rule, OrderRule;
    FoldNext(h, i);
    RuleOrders(Fold(h[..i]), h[i]);
    ConfigIsLast(h, i);
    ConfigMeans(Fold(h[..i]), h[i]);
  }

  lemma ConfigMeans(w: Watch, e: Observation)
    requires OrderRule(w, e)
    ensures e.Configured? ==> w.pending == Some(e.cfg)
    ensures e == Waiting || e.Looked? || (e.SentStep? && e.first) ==> w.pending == None
  {
    hide AreProgramsOf, MsToTicks, ToSkip, Period;
  }

  // ---------------------------------------------------------------- the grid

  ghost predicate HasItsRate(g: Grid, freq: nat) {
    g.anchors > 0 ==> g.rate > 0.0 && g.period == Period(freq, g.rate)
  }

  lemma RateStep(w: Watch, e: Observation)
    requires OrderRule(w, e) && HasItsRate(w.grid, w.freq) && (w.freq == 0 ==> w.grid.anchors == 0)
    ensures var v := Observe(w, e); HasItsRate(v.grid, v.freq) && (v.freq == 0 ==> v.grid.anchors == 0)
  {
    hide ObserveHands, ObserveWork, ObserveSince, ObserveAsked, AreProgramsOf, MsToTicks, ToSkip, Modes.SlotAt, LastDue;
    hide Period;
  }

  lemma RateAtFirst()
    ensures HasItsRate(START.grid, START.freq)
  {
  }

  lemma {:induction false} AlwaysItsRate(h: seq<Observation>, i: nat)
    requires Accepted(h) && i <= |h|
    ensures var w := Fold(h[..i]); HasItsRate(w.grid, w.freq) && (w.freq == 0 ==> w.grid.anchors == 0)
  {
    hide Rule, Observe, Fold, Accepted, OrderRule, HasItsRate;
    if i == 0 {
      NoHistory(h[..0]);
      RateAtFirst();
    } else {
      AlwaysItsRate(h, i - 1);
      FoldNext(h, i - 1);
      RuleOrders(Fold(h[..i - 1]), h[i - 1]);
      RateStep(Fold(h[..i - 1]), h[i - 1]);
    }
  }

  /** Every step is sent on a grid of the configured rate. */
  lemma StepsHaveTheRate(h: seq<Observation>, i: nat)
    requires Accepted(h) && i < |h| && h[i].SentStep?
    ensures var w := Fold(h[..i]); w.work.cfg.cps > 0.0 && w.grid.period == Period(w.freq, w.work.cfg.cps)
  {
    hide Fold, Accepted, HandsRule, ControlsRule, WorkRule, SinceRule, PassRule, OnTime, Rises, Period;
    AlwaysItsRate(h, i);
    NextWatch(h, i);
  }

  lemma PausedStep(w: Since, e: Observation)
    ensures var v := ObserveSince(w, e);
            v.paused ==> e == StateIs(Paused) || (w.paused && !e.Anchored? && !e.Started?)
  {
  }

  lemma {:induction false} PausedIsReal(h: seq<Observation>, j: nat) returns (i: nat)
    requires Accepted(h) && j <= |h| && Fold(h[..j]).since.paused
    ensures i < j && h[i] == StateIs(Paused) && forall n :: i < n < j ==> !h[n].Anchored? && !h[n].Started?
  {
    hide Rule, ObserveSince, Fold, Accepted;
    NoHistory(h[..0]);
    NextWatch(h, j - 1);
    PausedStep(Fold(h[..j - 1]).since, h[j - 1]);
    if h[j - 1] == StateIs(Paused) {
      i := j - 1;
    } else {
      i := PausedIsReal(h, j - 1);
    }
  }

  /** No drift: within a run the grid starts again from the present only after a pause. */
  lemma OnlyPausesRestart(h: seq<Observation>, j: nat) returns (i: nat)
    requires Accepted(h) && j < |h| && h[j].Anchored? && Fold(h[..j]).grid.anchors > 0
    ensures i < j && h[i] == StateIs(Paused) && forall n :: i < n < j ==> !h[n].Anchored? && !h[n].Started?
  {
    hide Fold, Accepted, HandsRule, ControlsRule, WorkRule, GridRule, PassRule, OrderRule;
    NextWatch(h, j);
    i := PausedIsReal(h, j);
  }

  function AtLeastOne(n: nat): nat { if n == 0 then 1 else n }

  /** What the modes of the trigger grant: a burst or a count of actions, or a duration in milliseconds, of at least
      one; and no limit otherwise. */
  lemma TriggerGrants(p: Modes.ModeParams)
    ensures var l := RunFor(p);
            && (p.mode == Modes.Burst ==> l.maxActions == AtLeastOne(p.burstCount) && l.durationMs == 0)
            && (p.mode == Modes.Count ==> l.maxActions == AtLeastOne(p.fixedCount) && l.durationMs == 0)
            && (p.mode == Modes.Duration ==> l.maxActions == 0 && l.durationMs == AtLeastOne(p.durationMs))
            && (p.mode == Modes.Hold || p.mode == Modes.Toggle ==> l.maxActions == l.durationMs == 0)
  {
  }

  /** A run that the trigger started in Burst or Count mode completes at most what that mode grants, and a burst for
      each further press. */
  lemma TriggeredRunIsShort(h: seq<Observation>, s: nat, i: nat) returns (m: nat)
    requires Accepted(h) && s < i < |h| && h[s].Started? && Fold(h[..i]).work.live && LimitsOf(h[..i]) == h[s].limits
    ensures m < s && AsksFor(Fold(h[..m]), h[m], h[s].limits)
    ensures var (p, grant) := (Fold(h[..m]).controls.params, h[s].limits.maxActions);
            h[m] == Handled(TriggerDown) && (p.mode == Modes.Burst || p.mode == Modes.Count) ==>
              && grant == AtLeastOne(if p.mode == Modes.Burst then p.burstCount else p.fixedCount)
              && (grant + Bursts(h[..i]) < UNLIMITED ==> Done(h[..i]) <= grant + Bursts(h[..i]))
  {
    hide Fold, Accepted, Settles, LimitsOf, Bursts, Done, RunFor;
    m := EveryRunIsAsked(h, s);
    LimitKept(h, i);
    TriggerGrants(Fold(h[..m]).controls.params);
  }

  /** Slots are given up only when late: every slot given up was due, and so is the one that comes next. */
  lemma SkipsOnlyWhatIsDue(h: seq<Observation>, times: seq<int>, i: nat, k: nat)
    requires Accepted(h) && Timely(h, times) && i < |h| && h[i].Missed? && Fold(h[..i]).grid.period >= 0.5
    requires Fold(h[..i]).grid.k <= k < Fold(h[..i]).grid.k + h[i].n
    ensures var g := Fold(h[..i]).grid;
            g.begun > 0 && Modes.SlotAt(g.t0, g.period, k) <= Modes.SlotAt(g.t0, g.period, g.k + h[i].n) <= times[i]
  {
    hide Fold, Accepted, HandsRule, ControlsRule, WorkRule, GridRule, SinceRule, PassRule, MsToTicks, Modes.SlotAt;
    hide Modes.SkipTarget;
    NextWatch(h, i);
    assert TimeRule(h[i], times[i]);
    var g := Fold(h[..i]).grid;
    Modes.SkipKeepsGrid(g.t0, g.period, g.k, times[i]);
    Modes.SlotMonotone(g.t0, g.period, k, g.k + h[i].n);
    SkipMoves(g, times[i]);
  }

  /** From m to i other threads may have stored the armed flag, and nothing else has happened. */
  predicate OnlyStores(h: seq<Observation>, m: nat, i: nat) {
    m < i <= |h| && forall n :: m < n < i ==> h[n].Stored?
  }

  lemma {:induction false} JudgedIsReal(h: seq<Observation>, i: nat) returns (m: nat)
    requires Accepted(h) && i <= |h| && Fold(h[..i]).since.judged
    ensures OnlyStores(h, m, i) && h[m].Missed? && Fold(h[..i]).grid == Fold(h[..m + 1]).grid
    ensures Fold(h[..i]).work == Fold(h[..m]).work && Fold(h[..i]).freq == Fold(h[..m]).freq
  {
    hide Rule, Observe, Fold, Accepted;
    NoHistory(h[..0]);
    FoldNext(h, i - 1);
    JudgedStep(Fold(h[..i - 1]), h[i - 1]);
    if h[i - 1].Missed? {
      m := i - 1;
    } else {
      m := JudgedIsReal(h, i - 1);
    }
  }

  lemma JudgedStep(w: Watch, e: Observation)
    ensures var v := Observe(w, e);
            v.since.judged ==>
              && (e.Missed? || (w.since.judged && e.Stored? && v.grid == w.grid))
              && v.work == w.work && v.freq == w.freq
  {
    hide ObserveHands, ObserveLook, ObserveSeen;
  }

  /** When an action begins after the first of its run, skipLate has just been asked for its slot: always when skipping,
      and when more than 250 ms behind otherwise. Then it begins on the slot that skipLate chose at that time. */
  lemma BeginsWhereSkipLands(h: seq<Observation>, times: seq<int>, i: nat) returns (m: nat)
    requires Accepted(h) && Timely(h, times) && i < |h| && h[i].SentStep? && h[i].first
    ensures OnlyStores(h, m, i) && h[m].Missed?
    ensures var (g, w, now) := (Fold(h[..m]).grid, Fold(h[..i]), times[m]);
            && w.grid.t0 == g.t0 && w.grid.period == g.period && w.grid.begun == g.begun
            && w.grid.k == (if g.begun > 0 && (w.work.cfg.latePolicy == Skip || now - Modes.SlotAt(g.t0, g.period, g.k)
                                                                                > MsToTicks(250, w.freq))
                            then Modes.SkipTarget(g.t0, g.period, g.k, now) else g.k)
  {
    hide Fold, Accepted, HandsRule, ControlsRule, WorkRule, GridRule, PassRule, MsToTicks, Modes.SlotAt;
    hide Modes.SkipTarget, OnlyStores;
    NextWatch(h, i);
    m := JudgedIsReal(h, i);
    assert m < i && h[m].Missed? by { StoresMean(h, m, i); }
    FoldNext(h, m);
    NextWatch(h, m);
    assert TimeRule(h[m], times[m]);
  }

  lemma StoresMean(h: seq<Observation>, m: nat, i: nat)
    requires OnlyStores(h, m, i)
    ensures m < i <= |h|
  {
  }

  lemma SkipMoves(g: Grid, now: int)
    ensures Modes.SkipTarget(g.t0, g.period, g.k, now) != g.k ==> Modes.SkipActs(g.t0, g.period, g.k, now)
  {
    hide Modes.SlotAt, Modes.StepBack, Modes.SkipActs;
  }

  // ---------------------------------------------------------------- a batch after the end

  /** One more observation, at time t. */
  lemma Then(h: seq<Observation>, times: seq<int>, w: Watch, e: Observation, t: int)
      returns (h': seq<Observation>, times': seq<int>, w': Watch)
    requires Accepted(h) && Timely(h, times) && w == Fold(h) && Rule(w, e) && TimeRule(e, t)
    requires times != [] ==> times[|times| - 1] <= t
    ensures Accepted(h') && Timely(h', times') && w' == Fold(h') == Observe(w, e)
    ensures h' == h + [e] && times' == times + [t]
  {
    hide Accepted, Fold, Timely, TimeRule, Rule, Observe;
    Recorded(h, e);
    RecordedAt(h, times, e, t);
    h', times', w' := h + [e], times + [t], Fold(h + [e]);
  }

  const MEGAHERTZ: nat := 1_000_000

  /** A history with its record, made until t. */
  ghost predicate Told(h: seq<Observation>, times: seq<int>, w: Watch, t: int) {
    Accepted(h) && Timely(h, times) && w == Fold(h) && (times != [] ==> times[|times| - 1] <= t)
  }

  ghost predicate Resting(w: Watch) {
    && w.hands == START.hands && !w.controls.blocked && !w.controls.quitting && !w.work.live && w.work.step == 0
    && w.pending == None && w.freq == MEGAHERTZ
  }

  /** The thread has begun, with configuration d, and waits. */
  lemma Begins(d: EngineConfig, layout: Layout) returns (h: seq<Observation>, times: seq<int>, w: Watch)
    ensures Told(h, times, w, 0) && Resting(w) && w.seen == [] && w.poll == Polling(0, true, false)
  {
    hide Accepted, Fold, Timely, TimedProgram, MaxProgram, TrackAll;
    NoHistory([]);
    h, times, w := [], [], START;
    h, times, w := Then(h, times, w, Began(MEGAHERTZ, d), 0);
    ConfigFits(w, d, layout);
    var e := Configured(d, TimedProgram(d, layout, MEGAHERTZ), MaxProgram(d, layout, MEGAHERTZ));
    h, times, w := Then(h, times, w, e, 0);
    h, times, w := Then(h, times, w, Waiting, 0);
  }

  lemma ConfigFits(w: Watch, c: EngineConfig, layout: Layout)
    requires w.pending == Some(c) && w.work.step == 0 && w.freq == MEGAHERTZ
    ensures Rule(w, Configured(c, TimedProgram(c, layout, MEGAHERTZ), MaxProgram(c, layout, MEGAHERTZ)))
  {
    hide TimedProgram, MaxProgram;
    assert AreProgramsOf(c, TimedProgram(c, layout, MEGAHERTZ), MaxProgram(c, layout, MEGAHERTZ), MEGAHERTZ);
  }

  /** Then two commands have been posted, and the first of them gives it configuration c. */
  lemma IsGivenConfig(d: EngineConfig, c: EngineConfig, layout: Layout)
      returns (h: seq<Observation>, times: seq<int>, w: Watch)
    ensures Told(h, times, w, 0) && Resting(w.(pending := None)) && w.pending == Some(c) && !w.controls.blocked
    ensures w.seen == [SetConfig(c)] && w.poll == Polling(2, true, true)
  {
    hide Accepted, Fold, Timely, TimedProgram, MaxProgram, TrackAll;
    h, times, w := Begins(d, layout);
    h, times, w := Then(h, times, w, Read(FlagRead(true, 2, 2)), 0);
    h, times, w := Then(h, times, w, Handled(SetConfig(c)), 0);
  }

  /** It is in use, and the second asks for a run of 1 ms. */
  lemma IsAsked(d: EngineConfig, c: EngineConfig, layout: Layout)
      returns (h: seq<Observation>, times: seq<int>, w: Watch)
    ensures Told(h, times, w, 0) && Resting(w) && w.asked == Some(Modes.RunLimits(0, 1)) && !w.controls.holdOnly
    ensures w.work.cfg == c && w.work.flat == MaxProgram(c, layout, MEGAHERTZ).flat
    ensures |w.seen| == 2 && w.poll == Polling(2, true, true)
  {
    hide Accepted, Fold, Timely, TimedProgram, MaxProgram, TrackAll;
    h, times, w := IsGivenConfig(d, c, layout);
    ConfigFits(w, c, layout);
    var e := Configured(c, TimedProgram(c, layout, MEGAHERTZ), MaxProgram(c, layout, MEGAHERTZ));
    h, times, w := Then(h, times, w, e, 0);
    h, times, w := Then(h, times, w, Handled(StartRun(Modes.RunLimits(0, 1))), 0);
  }

  ghost predicate AtFullTilt(w: Watch, c: EngineConfig, layout: Layout) {
    && w.hands == START.hands.(state := Running) && Goes(w.controls) && w.work.live && !w.work.stopped
    && w.work.step == 0 && w.work.left == UNLIMITED && w.work.cfg == c && w.pending == None && w.grid.end == 1000
    && w.work.flat == MaxProgram(c, layout, MEGAHERTZ).flat && w.freq > 0
    && |w.seen| == w.poll.due == 2
  }

  lemma OneMillisecond()
    ensures MsToTicks(1, MEGAHERTZ) == 1000
  {
  }

  /** The run starts at 0 and may last until 1000. */
  lemma RunStarts(d: EngineConfig, c: EngineConfig, layout: Layout)
      returns (h: seq<Observation>, times: seq<int>, w: Watch)
    requires c.maxMode
    ensures Told(h, times, w, 0) && AtFullTilt(w.(hands := w.hands.(state := Running)), c, layout) && w.poll.done
  {
    hide Accepted, Fold, Timely, MaxProgram, TrackAll, FlatInputs, MsToTicks, ToSkip;
    h, times, w := IsAsked(d, c, layout);
    OneMillisecond();
    h, times, w := Then(h, times, w, Started(Modes.RunLimits(0, 1), 1000, 1000), 0);
  }

  lemma GoesAtFullSpeed(d: EngineConfig, c: EngineConfig, layout: Layout)
      returns (h: seq<Observation>, times: seq<int>, w: Watch)
    requires c.maxMode
    ensures Told(h, times, w, 0) && AtFullTilt(w, c, layout)
  {
    hide Accepted, Fold, Timely, MaxProgram, TrackAll, FlatInputs, MsToTicks, ToSkip, Goes;
    h, times, w := RunStarts(d, c, layout);
    GoesIsFree(w.controls);
    h, times, w := Then(h, times, w, StateIs(Running), 0);
    PassIsFine(w, AtFullSpeed);
    h, times, w := Then(h, times, w, Pass(UNLIMITED, AtFullSpeed), 0);
  }

  lemma PassIsFine(w: Watch, p: Place)
    requires w.hands.held == NOTHING && w.work.step == 0 && w.work.live && !w.work.stopped && w.work.left == UNLIMITED
    requires Goes(w.controls) && w.work.cfg.maxMode && w.freq > 0 && w.poll.done && |w.seen| == w.poll.due
    requires if p == WhilePaused then w.hands.state == Paused else p == AtFullSpeed && w.hands.state == Running
    ensures Rule(w, Pass(UNLIMITED, p))
  {
    hide TrackAll, FlatInputs, Goes;
    NoStepsHoldNothing(w.work.prog[..0]);
  }

  /** It looks at the clock at 500, and is paused at 600. */
  lemma Looks(d: EngineConfig, c: EngineConfig, layout: Layout)
      returns (h: seq<Observation>, times: seq<int>, w: Watch)
    requires c.maxMode
    ensures Told(h, times, w, 500) && AtFullTilt(w, c, layout) && w.since.look == Fresh && w.poll.done
    ensures w.permit.boundary == 500
  {
    hide Accepted, Fold, Timely, MaxProgram, TrackAll, FlatInputs, Goes, MsToTicks, ToSkip;
    h, times, w := GoesAtFullSpeed(d, c, layout);
    h, times, w := Then(h, times, w, Read(FlagRead(false, 2, 2)), 0);
    h, times, w := Then(h, times, w, Looked(500), 500);
  }

  lemma FindsGateShut(d: EngineConfig, c: EngineConfig, layout: Layout)
      returns (h: seq<Observation>, times: seq<int>, w: Watch)
    requires c.maxMode
    ensures Told(h, times, w, 600) && AtFullTilt(w, c, layout) && w.since.look == Fresh && w.poll.done
    ensures w.permit.boundary == 500
  {
    hide Accepted, Fold, Timely, MaxProgram, TrackAll, FlatInputs, Goes, MsToTicks, ToSkip;
    h, times, w := Looks(d, c, layout);
    h, times, w := Then(h, times, w, Read(GateRead(false, 600)), 600);
  }

  lemma IsPaused(d: EngineConfig, c: EngineConfig, layout: Layout)
      returns (h: seq<Observation>, times: seq<int>, w: Watch)
    requires c.maxMode
    ensures Told(h, times, w, 600) && w.since.look == AfterPause && w.hands.state == Paused && w.poll.done
    ensures w.permit.boundary == 500
    ensures AtFullTilt(w.(hands := w.hands.(state := Running)), c, layout)
  {
    hide Accepted, Fold, Timely, MaxProgram, TrackAll, FlatInputs, Freed, ReleaseList, Size, Goes, MsToTicks, ToSkip;
    NothingIsSmall();
    h, times, w := FindsGateShut(d, c, layout);
    h, times, w := Then(h, times, w, Released([], [], NOTHING), 600);
    GoesIsFree(w.controls);
    h, times, w := Then(h, times, w, StateIs(Paused), 600);
  }

  lemma GoesIsFree(w: Controls)
    requires Goes(w)
    ensures !w.blocked
  {
  }

  /** It waits for the gate. */
  lemma WaitsForGate(d: EngineConfig, c: EngineConfig, layout: Layout)
      returns (h: seq<Observation>, times: seq<int>, w: Watch)
    requires c.maxMode
    ensures Told(h, times, w, 600) && w.since.look == AfterPause && w.hands.state == Paused && w.permit.boundary == 500
    ensures AtFullTilt(w.(hands := w.hands.(state := Running)), c, layout)
  {
    hide Accepted, Fold, Timely, MaxProgram, TrackAll, FlatInputs, Goes, MsToTicks, ToSkip;
    h, times, w := IsPaused(d, c, layout);
    PassIsFine(w, WhilePaused);
    h, times, w := Then(h, times, w, Pass(UNLIMITED, WhilePaused), 600);
  }

  /** The gate is found open at 2000. */
  lemma FindsGateOpen(d: EngineConfig, c: EngineConfig, layout: Layout)
      returns (h: seq<Observation>, times: seq<int>, w: Watch)
    requires c.maxMode
    ensures Told(h, times, w, 2000) && w.since.look == AfterPause && w.hands.state == Paused && w.poll.done
    ensures w.permit.open && w.permit.at == 2000 && w.permit.boundary == 500
    ensures AtFullTilt(w.(hands := w.hands.(state := Running)), c, layout)
  {
    hide Accepted, Fold, Timely, MaxProgram, TrackAll, FlatInputs, Goes, MsToTicks, ToSkip;
    h, times, w := WaitsForGate(d, c, layout);
    h, times, w := Then(h, times, w, Read(FlagRead(false, 2, 2)), 2000);
    h, times, w := Then(h, times, w, Read(GateRead(true, 2000)), 2000);
  }

  /** The run goes on. */
  lemma GoesOnLate(d: EngineConfig, c: EngineConfig, layout: Layout)
      returns (h: seq<Observation>, times: seq<int>, w: Watch)
    requires c.maxMode
    ensures Told(h, times, w, 2000) && AtFullTilt(w, c, layout) && w.since.look == AfterPause && w.poll.done
    ensures w.permit == Permit(true, 2000, 500, true)
  {
    hide Accepted, Fold, Timely, MaxProgram, TrackAll, FlatInputs, Goes, MsToTicks, ToSkip;
    h, times, w := FindsGateOpen(d, c, layout);
    GoesIsFree(w.controls);
    h, times, w := Then(h, times, w, StateIs(Running), 2000);
    h, times, w := Then(h, times, w, Read(BacklogRead(0)), 2000);
  }

  lemma NothingIsSmall()
    ensures Freed(NOTHING) == NOTHING && Size(NOTHING) == 0 && [] <= ReleaseList(NOTHING)
  {
    NothingHeldStays();
  }

  /** Whatever action and batch size are configured: a run in MAX mode for 1 ms that is paused behind the look at the
      time limit sends a batch when the pause is over, at 2000 when it should have ended at 1000. */
  lemma PauseMakesLate(d: EngineConfig, c: EngineConfig, layout: Layout)
      returns (h: seq<Observation>, times: seq<int>)
    requires c.maxMode && c.action.chord.device != NoDevice
    ensures Accepted(h) && Timely(h, times) && h != [] && h[|h| - 1].SentBatch?
    ensures var (e, w) := (h[|h| - 1], Fold(h[..|h| - 1]));
            && e.fire == 2000 && w.grid.end == 1000
            && e.n >= 1 && e.s.inputs == Copies(e.n, MaxProgram(c, layout, MEGAHERTZ).flat) != []
  {
    hide Accepted, Fold, Timely, MaxProgram, TrackAll, Copies;
    var w;
    h, times, w := GoesOnLate(d, c, layout);
    var flat := MaxProgram(c, layout, MEGAHERTZ).flat;
    var es := Copies(BatchCap(c), flat);
    assert es[..|es|] == es;
    var last := h;
    var e := SentBatch(Sending(es, |es|, TrackAll(NOTHING, es), 2000), 2000, BatchCap(c));
    h, times, w := Then(h, times, w, e, 2000);
    assert h[..|h| - 1] == last;
    SomethingToSend(c, layout, BatchCap(c));
  }

  lemma SomethingToSend(c: EngineConfig, layout: Layout, n: nat)
    requires c.action.chord.device != NoDevice && n >= 1
    ensures Copies(n, MaxProgram(c, layout, MEGAHERTZ).flat) != []
  {
    hide Program;
    var a := c.action.(downTimeUs := 0, repeatGapUs := 0);
    ProgramIsItsTimeline(a, layout, MEGAHERTZ);
  }
}
