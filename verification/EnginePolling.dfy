/** What a run owes to the other threads: it looks for commands in every pass and takes those that it finds, and it
    sends nothing while the gate is closed. */
module EnginePolling {
  import opened Actions
  import opened EngineProgram
  import opened EngineHistory
  import opened EngineOrders
  import opened World
  import Modes

  /** A look at the command flag, or for commands after an idle wait. */
  predicate LooksForCommands(e: Observation) { e.Read? && e.reading.FlagRead? }

  /** What must wait until all due commands are taken: output, another pass of a run, an idle wait, a run. */
  predicate Proceeds(e: Observation) { GoesOn(e) || e == Waiting || e.Started? }

  // ---------------------------------------------------------------- every command is taken

  lemma TakenStep(w: Watch, e: Observation)
    ensures var v := Observe(w, e);
            && v.poll.due >= w.poll.due && |v.seen| >= |w.seen|
            && (LooksForCommands(e) && e.reading.set_ ==> v.poll.due >= e.reading.queued)
  {
    hide ObserveHands, ObserveWork, ObserveGrid, ObserveSince, ObserveAsked, ObserveControls;
  }

  lemma {:induction false} DueGrows(h: seq<Observation>, i: nat, j: nat)
    requires Accepted(h) && i <= j <= |h|
    ensures Fold(h[..j]).poll.due >= Fold(h[..i]).poll.due && |Fold(h[..j]).seen| >= |Fold(h[..i]).seen|
    decreases j - i
  {
    hide Rule, Observe, Fold, Accepted;
    if i < j {
      DueGrows(h, i, j - 1);
      FoldNext(h, j - 1);
      TakenStep(Fold(h[..j - 1]), h[j - 1]);
    }
  }

  /** After a look for commands nothing goes on before every command that had been posted in full by then has been taken
      from the queue, to be handled, or to be dropped behind a Quit; and if the flag was found set, every command that
      was in the queue. told and queued count the commands ever posted, in order, and so does Commands. */
  lemma CommandsAreTaken(h: seq<Observation>, i: nat, j: nat)
    requires Accepted(h) && i < j < |h| && LooksForCommands(h[i]) && Proceeds(h[j])
    ensures var r := h[i].reading;
            r.told <= r.queued && r.told <= |Commands(h[..j])| && (r.set_ ==> r.queued <= |Commands(h[..j])|)
  {
    hide Fold, Accepted, Observe, HandsRule, ControlsRule, WorkRule, GridRule, SinceRule, PassRule, OrderRule, Commands;
    FoldNext(h, i);
    FoldNext(h, j);
    TakenStep(Fold(h[..i]), h[i]);
    DueGrows(h, i + 1, j);
    FoldAccounts(h[..j]);
  }

  lemma DoneStep(w: Watch, e: Observation)
    ensures var v := Observe(w, e);
            && (e.Pass? ==> !v.poll.done)
            && (v.poll.done ==> LooksForCommands(e) || e.Started? || (w.poll.done && !e.Pass?))
            && (e == Waiting ==> !v.poll.heard)
            && (v.poll.heard ==> LooksForCommands(e) || (w.poll.heard && e != Waiting))
  {
    hide ObserveHands, ObserveWork, ObserveGrid, ObserveSince, ObserveAsked, ObserveControls;
  }

  lemma {:induction false} DoneIsReal(h: seq<Observation>, i: nat, j: nat) returns (m: nat)
    requires Accepted(h) && i < j <= |h| && h[i].Pass? && Fold(h[..j]).poll.done
    ensures i < m < j && (LooksForCommands(h[m]) || h[m].Started?)
    decreases j - i
  {
    hide Rule, Observe, Fold, Accepted;
    FoldNext(h, j - 1);
    DoneStep(Fold(h[..j - 1]), h[j - 1]);
    if LooksForCommands(h[j - 1]) || h[j - 1].Started? {
      m := j - 1;
    } else {
      m := DoneIsReal(h, i, j - 1);
    }
  }

  lemma {:induction false} HeardIsReal(h: seq<Observation>, i: nat, j: nat) returns (m: nat)
    requires Accepted(h) && i < j <= |h| && h[i] == Waiting && Fold(h[..j]).poll.heard
    ensures i < m < j && LooksForCommands(h[m])
    decreases j - i
  {
    hide Rule, Observe, Fold, Accepted;
    FoldNext(h, j - 1);
    DoneStep(Fold(h[..j - 1]), h[j - 1]);
    if LooksForCommands(h[j - 1]) {
      m := j - 1;
    } else {
      m := HeardIsReal(h, i, j - 1);
    }
  }

  /** Every pass through the loop of a run, timed, at full speed or paused, looks at the command flag before anything is
      sent and before the next pass; and every command that had been posted in full when it looked is taken by then. */
  lemma EachPassTakesCommands(h: seq<Observation>, i: nat, j: nat) returns (m: nat)
    requires Accepted(h) && i < j < |h| && h[i].Pass? && GoesOn(h[j])
    ensures i < m < j && (LooksForCommands(h[m]) || h[m].Started?)
    ensures LooksForCommands(h[m]) ==> h[m].reading.told <= |Commands(h[..j])|
  {
    hide Fold, Accepted, HandsRule, ControlsRule, WorkRule, GridRule, SinceRule, PassRule, OrderRule, Commands;
    FoldNext(h, j);
    m := DoneIsReal(h, i, j);
    if LooksForCommands(h[m]) { CommandsAreTaken(h, m, j); }
  }

  /** So does every idle wait before the next one and before a run. */
  lemma EachWaitTakesCommands(h: seq<Observation>, i: nat, j: nat) returns (m: nat)
    requires Accepted(h) && i < j < |h| && h[i] == Waiting && (h[j] == Waiting || h[j].Started?)
    ensures i < m < j && LooksForCommands(h[m]) && h[m].reading.told <= |Commands(h[..j])|
  {
    hide Fold, Accepted, HandsRule, ControlsRule, WorkRule, GridRule, SinceRule, PassRule, OrderRule, Commands;
    FoldNext(h, j);
    m := HeardIsReal(h, i, j);
    CommandsAreTaken(h, m, j);
  }

  // ---------------------------------------------------------------- the gate

  predicate LooksAtGate(e: Observation) { e.Read? && e.reading.GateRead? }

  lemma OpenStep(w: Watch, e: Observation)
    ensures var v := Observe(w, e).permit;
            && (LooksAtGate(e) ==> v.open == e.reading.open && v.at == e.reading.at)
            && (!LooksAtGate(e) && !e.Started? ==> v.open == w.permit.open && v.at == w.permit.at)
            && (e.Started? ==> v.at == 0)
            && (e.Missed? || e.Looked? ==> v.boundary == e.now)
            && (!e.Missed? && !e.Looked? && !e.Started? ==> v.boundary == w.permit.boundary)
  {
    hide ObserveHands, ObserveWork, ObserveGrid, ObserveSince, ObserveAsked, ObserveControls;
  }

  lemma {:induction false} StaysShut(h: seq<Observation>, i: nat, j: nat)
    requires Accepted(h) && i < j <= |h| && LooksAtGate(h[i]) && !h[i].reading.open
    requires forall m :: i < m < j ==> !h[m].Started? && !(LooksAtGate(h[m]) && h[m].reading.open)
    ensures !Fold(h[..j]).permit.open
    decreases j - i
  {
    hide Rule, Observe, Fold, Accepted;
    FoldNext(h, j - 1);
    OpenStep(Fold(h[..j - 1]), h[j - 1]);
    if j > i + 1 { StaysShut(h, i, j - 1); }
  }

  /** Once a run has found the gate closed, it sends nothing before it finds it open. */
  lemma ClosedGateStopsOutput(h: seq<Observation>, i: nat, j: nat)
    requires Accepted(h) && i < j < |h| && LooksAtGate(h[i]) && !h[i].reading.open && IsSent(h[j])
    ensures exists m :: i < m < j && (h[m].Started? || (LooksAtGate(h[m]) && h[m].reading.open))
  {
    hide Fold, Accepted, HandsRule, ControlsRule, WorkRule, GridRule, SinceRule, PassRule, OrderRule;
    FoldNext(h, j);
    if forall m :: i < m < j ==> !h[m].Started? && !(LooksAtGate(h[m]) && h[m].reading.open) { StaysShut(h, i, j); }
  }

  lemma {:induction false} GateWasRead(h: seq<Observation>, j: nat) returns (m: nat)
    requires Accepted(h) && j <= |h| && Fold(h[..j]).permit.at != 0
    ensures m < j && LooksAtGate(h[m]) && h[m].reading.at == Fold(h[..j]).permit.at
  {
    hide Rule, Observe, Fold, Accepted;
    NoHistory(h[..0]);
    FoldNext(h, j - 1);
    OpenStep(Fold(h[..j - 1]), h[j - 1]);
    if LooksAtGate(h[j - 1]) {
      m := j - 1;
    } else {
      m := GateWasRead(h, j - 1);
    }
  }

  /** Neither slots nor a time limit are looked at between b and j, and no run starts. */
  predicate LastLook(h: seq<Observation>, b: nat, j: nat) {
    && b < j <= |h| && (h[b].Missed? || h[b].Looked?)
    && forall n :: b < n < j ==> !h[n].Missed? && !h[n].Looked? && !h[n].Started?
  }

  lemma {:induction false} BoundaryStays(h: seq<Observation>, b: nat, j: nat)
    requires Accepted(h) && LastLook(h, b, j)
    ensures Fold(h[..j]).permit.boundary == h[b].now
    decreases j - b
  {
    hide Rule, Observe, Fold, Accepted;
    FoldNext(h, j - 1);
    OpenStep(Fold(h[..j - 1]), h[j - 1]);
    if j > b + 1 { BoundaryStays(h, b, j - 1); }
  }

  lemma LookBehind(h: seq<Observation>, j: nat) returns (b: nat)
    requires Accepted(h) && j < |h| && (h[j].SentBatch? || (h[j].SentStep? && h[j].first))
    ensures LastLook(h, b, j)
  {
    hide Fold, Accepted, HandsRule, ControlsRule, WorkRule, GridRule, PassRule, OrderRule, ReadRule;
    FoldNext(h, j);
    if h[j].SentBatch? { b := LookIsReal(h, j); } else { b := JudgedIsReal(h, j); }
  }

  /** When an action begins, the gate was last looked at less than 2 ms before the action's slot was judged; when a MAX
      batch is sent, less than 1 ms before the time limit was looked at. Only in the first milliseconds of the clock a
      run may not have looked at all. */
  lemma GateIsLookedAtLately(h: seq<Observation>, times: seq<int>, j: nat) returns (b: nat)
    requires Accepted(h) && Timely(h, times) && j < |h| && (h[j].SentBatch? || (h[j].SentStep? && h[j].first))
    ensures LastLook(h, b, j)
    ensures var ticks := MsToTicks(if h[j].SentBatch? then 1 else 2, Fold(h[..j]).freq);
            times[b] >= ticks > 0 ==> exists m :: 0 <= m < j && LooksAtGate(h[m]) && times[b] - times[m] < ticks
  {
    hide Fold, Accepted, HandsRule, ControlsRule, WorkRule, GridRule, SinceRule, PassRule, OrderRule, MsToTicks;
    hide LastLook, LooksAtGate;
    b := LookBehind(h, j);
    FoldNext(h, j);
    BoundaryStays(h, b, j);
    BoundaryIsTime(h, times, b, j);
    var p := Fold(h[..j]).permit;
    if p.at != 0 {
      var m := GateWasRead(h, j);
      GateIsTime(h, times, m);
    }
  }

  lemma BoundaryIsTime(h: seq<Observation>, times: seq<int>, b: nat, j: nat)
    requires Timely(h, times) && LastLook(h, b, j)
    ensures h[b].now == times[b]
  {
    assert TimeRule(h[b], times[b]);
  }

  lemma GateIsTime(h: seq<Observation>, times: seq<int>, m: nat)
    requires Timely(h, times) && m < |h| && LooksAtGate(h[m])
    ensures h[m].reading.at == times[m]
  {
    assert TimeRule(h[m], times[m]);
  }

  // ---------------------------------------------------------------- the backlog

  lemma RoomStep(w: Watch, e: Observation)
    ensures Observe(w, e).permit.room ==>
              || (e.Read? && e.reading.BacklogRead? && e.reading.inflight <= w.work.cfg.maxInflight)
              || (w.permit.room && !e.Looked? && !e.Started? && !(e.Read? && e.reading.BacklogRead?))
  {
    hide ObserveHands, ObserveWork, ObserveGrid, ObserveSince, ObserveAsked, ObserveControls;
  }

  lemma {:induction false} RoomIsReal(h: seq<Observation>, j: nat) returns (m: nat)
    requires Accepted(h) && j <= |h| && Fold(h[..j]).permit.room
    ensures m < j && h[m].Read? && h[m].reading.BacklogRead?
            && h[m].reading.inflight <= Fold(h[..m]).work.cfg.maxInflight
    ensures forall n :: m < n < j ==> !h[n].Looked? && !h[n].Started?
  {
    hide Rule, Observe, Fold, Accepted;
    NoHistory(h[..0]);
    FoldNext(h, j - 1);
    RoomStep(Fold(h[..j - 1]), h[j - 1]);
    if h[j - 1].Read? && h[j - 1].reading.BacklogRead? {
      m := j - 1;
    } else {
      m := RoomIsReal(h, j - 1);
    }
  }

  /** With backpressure a MAX batch is sent only if, since the time limit was last looked at, no more events were found
      on their way than the limit. */
  lemma BacklogIsSmall(h: seq<Observation>, j: nat) returns (m: nat)
    requires Accepted(h) && j < |h| && h[j].SentBatch? && Fold(h[..j]).work.cfg.maxInflight > 0
    ensures m < j && h[m].Read? && h[m].reading.BacklogRead?
            && h[m].reading.inflight <= Fold(h[..m]).work.cfg.maxInflight
    ensures forall n :: m < n < j ==> !h[n].Looked? && !h[n].Started?
  {
    hide Fold, Accepted, HandsRule, ControlsRule, WorkRule, GridRule, SinceRule, PassRule, OrderRule, Recent;
    FoldNext(h, j);
    m := RoomIsReal(h, j);
  }
}
