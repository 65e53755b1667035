/** How commands reach the scheduler thread: a locked vector, an atomic flag that the hot loop polls, and
    an auto-reset event that ends any kernel wait. Any number of posters interleave with the engine; every
    shared access is a step of its own (sequentially consistent memory). */
module CommandQueue {

  datatype Cmd = Quit | Other(id: nat)

  /** Where the engine thread is. `idle` says which of the two callers of drain is at work: the idle loop,
      or the command handler of a run. */
  datatype Pc =
    | Blocked                                  // WaitForSingleObject(cmdEvent, INFINITE)
    | Swap(idle: bool)                         // about to take the lock and swap the vectors
    | Clear(idle: bool)                        // lock held, vectors swapped, flag not cleared yet
    | Handle(idle: bool, next: nat, quit: bool)
    | RunLoop                                  // in a run, between two waits
    | Woke                                     // a wait of the run consumed the event; the flag test is next
    | Requeue | RequeuePushed | RequeueFlagged // the run handler posts Quit again
    | Finished

  datatype State = State(
    queue: seq<Cmd>,
    flag: bool,
    event: bool,
    atFlag: set<nat>,   // posters that have pushed and will store the flag next
    atEvent: set<nat>,  // posters that have stored the flag and will set the event next
    pc: Pc,
    batch: seq<Cmd>,    // the engine's local vector
    pushed: seq<Cmd>,   // every command ever pushed, in push order
    handled: seq<Cmd>)  // every command whose case of the switch ran

  datatype Step =
    | PosterPush(p: nat, c: Cmd) | PosterFlag(p: nat) | PosterEvent(p: nat)
    | Wake | TakeAll | ClearFlag | HandleNext | HandleEnd(start: bool)
    | TestFlag | WaitConsumes | EndRun
    | EnginePush | EngineFlag | EngineEvent

  const INITIAL := State([], false, false, {}, {}, Blocked, [], [], [])

  predicate Enabled(s: State, a: Step) {
    match a
    case PosterPush(p, _) => p !in s.atFlag && p !in s.atEvent && !s.pc.Clear?
    case PosterFlag(p) => p in s.atFlag
    case PosterEvent(p) => p in s.atEvent
    case Wake => s.pc.Blocked? && s.event
    case TakeAll => s.pc.Swap?
    case ClearFlag => s.pc.Clear?
    case HandleNext => s.pc.Handle? && s.pc.next < |s.batch|
    case HandleEnd(_) => s.pc.Handle? && s.pc.next >= |s.batch|
    case TestFlag => s.pc.RunLoop? || s.pc.Woke?
    case WaitConsumes => s.pc.RunLoop? && s.event
    case EndRun => s.pc.RunLoop?
    case EnginePush => s.pc.Requeue?
    case EngineFlag => s.pc.RequeuePushed?
    case EngineEvent => s.pc.RequeueFlagged?
  }

  function Do(s: State, a: Step): State
    requires Enabled(s, a)
  {
    match a
    case PosterPush(p, c) =>
      s.(queue := s.queue + [c], pushed := s.pushed + [c], atFlag := s.atFlag + {p})
    case PosterFlag(p) => s.(flag := true, atFlag := s.atFlag - {p}, atEvent := s.atEvent + {p})
    case PosterEvent(p) => s.(event := true, atEvent := s.atEvent - {p})
    case Wake => s.(event := false, pc := Swap(true))
    case TakeAll => s.(batch := s.queue, queue := [], pc := Clear(s.pc.idle))
    case ClearFlag => s.(flag := false, pc := Handle(s.pc.idle, 0, false))
    case HandleNext =>
      var c := s.batch[s.pc.next];
      s.(handled := s.handled + [c],
         pc := if c.Quit? && !s.pc.idle then Requeue
               else Handle(s.pc.idle, s.pc.next + 1, s.pc.quit || c.Quit?))
    case HandleEnd(start) =>
      s.(pc := if !s.pc.idle then RunLoop else if s.pc.quit then Finished else if start then RunLoop else Blocked)
    case TestFlag => s.(pc := if s.flag then Swap(false) else RunLoop)
    case WaitConsumes => s.(event := false, pc := Woke)
    case EndRun => s.(pc := Blocked)
    case EnginePush => s.(queue := s.queue + [Quit], pushed := s.pushed + [Quit], pc := RequeuePushed)
    case EngineFlag => s.(flag := true, pc := RequeueFlagged)
    case EngineEvent => s.(event := true, pc := RunLoop)
  }

  predicate Executable(s: State, run: seq<Step>)
    decreases |run|
  {
    run == [] || (Enabled(s, run[0]) && Executable(Do(s, run[0]), run[1..]))
  }

  function Exec(s: State, run: seq<Step>): State
    requires Executable(s, run)
    decreases |run|
  {
    if run == [] then s else Exec(Do(s, run[0]), run[1..])
  }

  // ---------------------------------------------------------------- the invariant

  predicate HasQuit(cs: seq<Cmd>) {
    Quit in cs
  }

  /** The commands up to and including the first Quit. */
  function UpToQuit(cs: seq<Cmd>): seq<Cmd> {
    if cs == [] then [] else if cs[0].Quit? then [cs[0]] else [cs[0]] + UpToQuit(cs[1..])
  }

  /** Some thread will store the flag after its push. */
  predicate FlagPending(s: State) {
    s.atFlag != {} || s.pc.RequeuePushed?
  }

  /** Some thread will set the event after its push. */
  predicate EventPending(s: State) {
    FlagPending(s) || s.atEvent != {} || s.pc.RequeueFlagged?
  }

  /** The commands of the current batch that are still to be handled. */
  function Rest(s: State): seq<Cmd> {
    match s.pc
    case Clear(_) => s.batch
    case Handle(_, next, _) => if next <= |s.batch| then s.batch[next..] else []
    case _ => []
  }

  ghost predicate Inv(s: State) {
    && (s.queue != [] ==> s.flag || FlagPending(s))
    && (s.queue != [] && !s.pc.Swap? && !s.pc.Woke? && !s.pc.Finished? ==> s.event || EventPending(s))
    && (s.pc.Clear? ==> s.queue == [])
    && (s.pc.Handle? ==> s.pc.next <= |s.batch|)
    && (!HasQuit(s.handled) ==> s.handled + Rest(s) + s.queue == s.pushed)
    && (HasQuit(s.handled) ==> UpToQuit(s.handled) == UpToQuit(s.pushed))
    && (HasQuit(s.handled) ==> HasQuit(s.pushed))
    && (s.pc.Requeue? || s.pc.RequeuePushed? || s.pc.RequeueFlagged? || s.pc.Finished? ==> HasQuit(s.handled))
    && (s.pc.Handle? && s.pc.quit ==> HasQuit(s.handled))
  }

  lemma {:induction false} UpToQuitAppend(a: seq<Cmd>, b: seq<Cmd>)
    ensures UpToQuit(a + b) == if HasQuit(a) then UpToQuit(a) else a + UpToQuit(b)
  {
    if a == [] {
      assert a + b == b;
    } else {
      assert (a + b)[1..] == a[1..] + b;
      UpToQuitAppend(a[1..], b);
    }
  }

  /** Handling one more command of the batch, when no Quit has been handled yet. */
  lemma HandlingInOrder(handled: seq<Cmd>, rest: seq<Cmd>, queue: seq<Cmd>, pushed: seq<Cmd>)
    requires !HasQuit(handled) && rest != [] && handled + rest + queue == pushed
    ensures var h := handled + [rest[0]];
            if HasQuit(h) then UpToQuit(h) == UpToQuit(pushed) && HasQuit(pushed)
            else h + rest[1..] + queue == pushed
  {
    var h := handled + [rest[0]];
    assert pushed == h + (rest[1..] + queue);
    UpToQuitAppend(h, rest[1..] + queue);
    assert h + rest[1..] + queue == h + (rest[1..] + queue);
  }

  lemma HandlingKeepsOrder(s: State)
    requires Inv(s) && Enabled(s, HandleNext)
    ensures Inv(Do(s, HandleNext))
  {
    var c := s.batch[s.pc.next];
    assert Rest(s)[0] == c && Rest(s)[1..] == s.batch[s.pc.next + 1..];
    if HasQuit(s.handled) {
      UpToQuitAppend(s.handled, [c]);
    } else {
      HandlingInOrder(s.handled, Rest(s), s.queue, s.pushed);
    }
    hide UpToQuit;
  }

  lemma StepKeepsInv(s: State, a: Step)
    requires Inv(s) && Enabled(s, a)
    ensures Inv(Do(s, a))
  {
    match a
    case PosterPush(p, c) =>
      UpToQuitAppend(s.pushed, [c]);
      assert s.handled + Rest(s) + (s.queue + [c]) == (s.handled + Rest(s) + s.queue) + [c];
    case EnginePush =>
      UpToQuitAppend(s.pushed, [Quit]);
    case HandleNext =>
      HandlingKeepsOrder(s);
    case TakeAll =>
      assert s.handled + [] + s.queue == s.handled + s.queue + [];
    case ClearFlag =>
      assert s.batch[0..] == s.batch;
    case _ =>
  }

  lemma {:induction false} RunKeepsInv(s: State, run: seq<Step>)
    requires Inv(s) && Executable(s, run)
    ensures Inv(Exec(s, run))
    decreases |run|
  {
    if run != [] {
      StepKeepsInv(s, run[0]);
      RunKeepsInv(Do(s, run[0]), run[1..]);
    }
  }

  // ---------------------------------------------------------------- what it means

  /** No lost command: in every reachable state a non-empty queue has its flag set, or a thread that is about
      to set it; and the engine is never blocked on a queued command unless the event is set or about to be. */
  lemma NoLostCommand(run: seq<Step>)
    requires Executable(INITIAL, run)
    ensures var s := Exec(INITIAL, run);
            s.queue != [] ==> (s.flag || FlagPending(s)) && (s.pc.Blocked? ==> s.event || EventPending(s))
  {
    RunKeepsInv(INITIAL, run);
  }

  /** Commands up to the first Quit are handled in push order, none twice: what was handled, what the engine
      holds and what is queued are together exactly what was pushed. */
  lemma HandledInPushOrder(run: seq<Step>)
    requires Executable(INITIAL, run)
    ensures var s := Exec(INITIAL, run);
            if HasQuit(s.handled) then UpToQuit(s.handled) == UpToQuit(s.pushed)
            else s.handled + Rest(s) + s.queue == s.pushed
  {
    RunKeepsInv(INITIAL, run);
  }

  /** None is left behind either: once the engine blocks with the event unset and no post is under way,
      every pushed command has been handled. */
  lemma QuiescentMeansAllHandled(run: seq<Step>)
    requires Executable(INITIAL, run)
    requires var s := Exec(INITIAL, run);
             s.pc.Blocked? && !s.event && !EventPending(s) && !HasQuit(s.handled)
    ensures var s := Exec(INITIAL, run); s.handled == s.pushed
  {
    RunKeepsInv(INITIAL, run);
    var s := Exec(INITIAL, run);
    assert s.handled + Rest(s) + s.queue == s.handled;
  }

  /** A blocked engine with a queued command gets going again within three steps that need no further command:
      the pending poster finishes its post, and the wait ends. */
  lemma BlockedEngineWakes(s: State) returns (run: seq<Step>)
    requires Inv(s) && s.pc.Blocked? && s.queue != []
    ensures |run| <= 3 && Executable(s, run) && Exec(s, run).pc == Swap(true)
    ensures forall a :: a in run ==> !a.PosterPush?
    ensures Exec(s, run).queue == s.queue
  {
    run := [];
    if !s.event && s.atEvent == {} {
      var p :| p in s.atFlag;
      var a, b := PosterFlag(p), PosterEvent(p);
      ExecCons(Do(Do(s, a), b), Wake, []);
      ExecCons(Do(s, a), b, [Wake]);
      ExecCons(s, a, [b, Wake]);
      run := [a, b, Wake];
      assert run == [a] + [b, Wake] && [b, Wake] == [b] + [Wake];
    } else if !s.event {
      var p :| p in s.atEvent;
      var b := PosterEvent(p);
      ExecCons(Do(s, b), Wake, []);
      ExecCons(s, b, [Wake]);
      run := [b] + [Wake];
    } else {
      ExecCons(s, Wake, []);
      run := [Wake] + [];
    }
  }

  lemma ExecCons(s: State, a: Step, rest: seq<Step>)
    requires Enabled(s, a) && Executable(Do(s, a), rest)
    ensures Executable(s, [a] + rest) && Exec(s, [a] + rest) == Exec(Do(s, a), rest)
  {
    assert ([a] + rest)[1..] == rest;
  }
}
