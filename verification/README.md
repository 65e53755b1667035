# A verified model of the click scheduler

Infinity Clicker replays an input action (a key or a mouse button, with modifiers, hold time and repetition) at a
given rate, as long as a physical trigger says so. This project models the parts on which its guarantees rest, and
proves them:

* the scheduler thread (`Engine.dfy`, `EngineHistory.dfy`, `EngineOrders.dfy`, `EnginePolling.dfy`, `EngineProgram.dfy`,
  `Modes.dfy`, `PreciseWaiter.dfy`, `World.dfy`): the idle loop, timed runs on an absolute timeline with skipping,
  catching up and batching, MAX mode, pauses, changes of configuration and commands;
* how commands reach it (`CommandQueue.dfy`) and how telemetry leaves it (`SeqLock.dfy`, `Histogram.dfy`);
* what is sent and what is held (`Input.dfy`, `InputAction.dfy`, `ActionPresses.dfy`, `InputSender.dfy`), and the
  guardian process that releases held input when the program dies (`Guardian.dfy`);
* the trigger state machine in the hook thread (`Trigger.dfy`, `TriggerEdges.dfy`);
* the JSON printer and parser (`Json.dfy`, `JsonText.dfy`, `JsonRoundTrip.dfy`, `JsonNumbers.dfy`, `JsonStrings.dfy`,
  `Decimal.dfy`), and the profile names and the configuration made of a profile (`Profiles.dfy`).

Code that updates fields step by step is a class with methods and loops here too; each method is tied to a
specification function or keeps a stated invariant. The two concurrent protocols are state machines whose steps are
the single loads and stores of each thread.

**How the engine's guarantees are stated.** The class `Scheduler.Engine` keeps a ghost history of what can be observed
of it: commands handled, configurations taken into use, runs started and ended, states entered, every call of
`SendInput` with what Windows accepted, releases, epochs of the timeline, missed slots, and the counters the code itself
keeps. `EngineHistory.Rule` says what each observation must
satisfy given the ones before it, and every method keeps `Accepted(history)`. The whole-run theorems are lemmas about
any accepted history. The world is not trusted: the clock moves forward by any amount, `SendInput` accepts any prefix,
waits end at any time, the gate and the backlog have any value, and other threads post any commands and store `armed` at
any moment; a command is put into the queue first, and the flag is set at some later time. `World.fuel` only says where
one stops looking at a run that need not end; it may be any number, and every property holds up to that point.

The history is complete, and `ThreadMain` proves it against logs that the history does not write:

* every input that Windows took is in it, in order and with its time: the sender itself logs what each call of
  `SendInput` delivers, and when; the log equals `Delivered(history)` and `GivenAt(history)`;
* every command is in it: the commands ever put into the queue are, in order, those of the history, those in hand and
  those still queued;
* every idle wait and every pass through the loop of a run is in it: `World.dfy` counts them where they happen, and
  each pass carries the code's own counters, which are compared with what was sent;
* every look at the command flag, the gate and the backlog is in it: `World.dfy` logs each with its result, and a look at
  the flag with how many commands had been posted in full and how many were in the queue; the log equals
  `Readings(history)`;
* its times are the clock's: each observation is stamped by the clock when it is made, a grid starts at the present, a
  time limit runs from the present, and a step is compared with its deadline at the present, before it is sent.

And `sender.Now()`, the record of held keys itself, is the one the history ends with. So a theorem such as
`EmergencyDominates` or `NeverEarlyNeverLate` speaks of all output, at the time it was given to Windows, and not of what
happens to be recorded.

What a run may do is a function of the commands, in the history like anywhere else. The record folds the commands
themselves: which run they ask for, with which limits, what a trigger press adds to the budget of a Burst run, what stops
a run, which configuration is the last. A run, its limits, its budget, its configuration, its rate and its end must be
what the commands handled so far make them (`WorkRule`, `OrderRule`); `EngineOrders` states this without the record, as
functions of the observations alone: no run that nobody asked for and none left out, no action beyond the limit asked
for and the bursts pressed, no configuration but the last one. `EnginePolling` adds the other direction, from the queue
to the run: every pass looks for commands, and nothing goes on before those that were posted in full are taken.
`Scheduler.RunThread` builds the objects and runs the thread: what `ThreadMain` requires can be met.

## Model

| member | source | states |
|---|---|---|
| Scheduler.Engine.ThreadMain | src/scheduler/Engine.cpp:172-245 | the scheduler thread, cut off anywhere, leaves an accepted, timely and complete history: all that Windows was given, in order and with its time, is what the history delivered; all commands ever posted are, in order, those of the history, in hand and queued; all idle waits, all passes and all looks at the command flag, the gate and the backlog are in it; the sender's record of held input is the one the history ends with; if the thread has ended, a Quit was handled and nothing is held where the releases had room. Every whole-run theorem below therefore holds of it, with runs, limits, extensions, stops and configurations as the commands say, and with every command that was posted in full taken by the next pass |
| Scheduler.Engine.IdlePass | src/scheduler/Engine.cpp:187-241 | one pass of the idle loop waits exactly once and keeps the idle invariant: nothing held, no run alive, Disarmed if an Emergency stands, a pending Quit still queued; before the next wait the run that its batch asked for has been started unless there is nothing to run; that a run starts only if asked for, and with the limits asked for, is a rule of the history it keeps |
| Scheduler.Engine.WaitIdle | src/scheduler/Engine.cpp:188 | every idle wait that ends is counted and is the next observation of the history |
| Scheduler.Engine.HandleIdleCommand | src/scheduler/Engine.cpp:194-236 | the exact effect of each command while idle on state, armed flag, configuration, held and delivered input, and on whether and for how long a run follows, and that nothing else of these changes; a run can only be about to start if no Emergency blocks it and, in Hold mode, the last edge is a Down |
| Scheduler.Engine.IdleBatch | src/scheduler/Engine.cpp:190-237 | a whole batch starts a run exactly as StartAt says of its commands, of armed as the history has it at each of them, and of the mode, and with the limits that LimitsAt says; this is what the record has as asked for; unless another thread stores armed meanwhile, that follows from the commands alone; Quit was seen exactly if one was handled |
| Scheduler.StartIff | src/scheduler/Engine.cpp:201-222 | a batch starts a run if and only if some command asks for one (a manual start, or a Down while armed) and none after it takes it back (a stop, an Emergency, or an Up in Hold mode) |
| Scheduler.LastAskCounts | src/scheduler/Engine.cpp:201-219 | the limits of that run are what the last command that asks for one asks for: those of the manual start, or the ones that the mode configured by then has for a trigger Down |
| Scheduler.DisarmDoesNotTakeBack | src/scheduler/Engine.cpp:196-208 | a trigger Down and a disarm behind it in one batch: the run starts although armed is false, in every mode |
| Scheduler.Engine.HandleRunCommand | src/scheduler/Engine.cpp:252-279 | the exact effect of each command during a run: what stops it in each mode, what extends it, what becomes of armed and of the pending configuration |
| Scheduler.Engine.HandleRunCommands | src/scheduler/Engine.cpp:247-282 | the run is told to stop exactly if some drained command stops it; a Quit is queued again and what is behind it is not looked at; the budget, the remaining count and the stop flag become exactly what WorkAfter makes of the commands up to the first Quit: each trigger Down in Burst mode adds the burst count, nothing else adds anything; held input and timeline are untouched |
| Scheduler.ExtensionIsExactIff | src/scheduler/Engine.cpp:261 | a Burst extension of the 64-bit counter adds exactly, and stays a limit, if and only if the sum is below the "unlimited" value |
| Scheduler.ExtensionUnlimits | src/scheduler/Engine.cpp:261 | with 2^64 - 2 actions to go one more makes the run unlimited |
| Scheduler.Engine.DoRun | src/scheduler/Engine.cpp:284-351 | a run that is not cut off ends idle with the state that the armed flag says, a re-queued Quit still in the queue |
| Scheduler.Engine.BeginRun | src/scheduler/Engine.cpp:293-308 | a run starts only with the limits asked for, with their exact grant and end time, nothing held and all counters zero |
| Scheduler.Engine.EndRun | src/scheduler/Engine.cpp:319-350 | everything recorded as held is released before the final state is entered, that state is the one the armed flag says, and the pending configuration, if there is one, is the configuration afterwards, else it is unchanged |
| Scheduler.Engine.RunTurn | src/scheduler/Engine.cpp:382-387 | every pass through a loop of a run, timed, MAX or paused, is counted and is the next observation of the history, with the remaining count and the place, which must agree with what was granted, completed, sent and skipped; no pass begins unless commands have been looked for since the last one |
| Scheduler.Engine.ReadFlag | src/scheduler/Engine.cpp:426 | a run reads the command flag itself; the look is logged with how many commands had been posted in full and queued, and if the flag is set all that are queued are due: the run may not go on before they are taken |
| Scheduler.Engine.PollCommands | src/scheduler/Engine.cpp:425-426 | each pass of a run looks at the flag once; it goes on only if none of the commands taken stops it, with the gate as it was known and the budget as those commands say, and is over otherwise |
| Scheduler.Engine.DrainIdle | src/scheduler/Engine.cpp:188-189 | after an idle wait the whole queue is taken, and everything posted until then is due |
| Scheduler.Engine.PauseUntilGate | src/scheduler/Engine.cpp:374-398 | a pause begins with a release; it ends running with nothing held, or stopped by a command; timeline and progress are untouched, and the budget is changed exactly as the commands handled in the pause say (SameRun) |
| Scheduler.Engine.TakePendingConfig | src/scheduler/Engine.cpp:429-445 | a configuration takes effect only between two actions, and the next slot stays where it is even if the rate changes |
| Scheduler.Engine.DropLateSlots | src/scheduler/Engine.cpp:458-464 | late slots are given up exactly under the configured policy, every one is counted as missed once; the record says that this was done, without which no action may begin |
| Scheduler.Engine.ChooseBatch | src/scheduler/Engine.cpp:487-491 | a catch-up batch is the longest run of due slots before the end of the run, at most 8 and at most what remains; under any other policy it is a single action |
| Scheduler.Engine.Fire | src/scheduler/Engine.cpp:481-512 | called with the clock at or after the deadline, sending a step keeps budget, slots and held input accounted for, for single steps, several steps and batches |
| Scheduler.Engine.AwaitDeadline | src/scheduler/Engine.cpp:468-480 | the send is reached only at or after the deadline |
| Scheduler.Engine.RunTimed | src/scheduler/Engine.cpp:411-515 | a timed run keeps all rules and ends over, also when it goes on in MAX mode; by ReadRule each of its passes looks at the command flag, and nothing goes on before what is due is taken |
| Scheduler.Engine.RunMax | src/scheduler/Engine.cpp:517-585 | so does a run in MAX mode, passes and commands included: each of its calls sends as many actions as configured, between 1 and 256, or what remains if that is less, each follows a look at the time limit with no configuration waiting and actions left, its budget is what was asked for and what commands added, and it ends only because a command stopped it, none remain, the end has come, a configuration left MAX mode, or there is no program |
| Scheduler.CopiesPrefix | src/scheduler/Engine.cpp:521-526 | the first n times p inputs of the prepared MAX batch are exactly n whole actions |
| Scheduler.NextActionRises | src/scheduler/Engine.cpp:469 | the last step of the last action of any batch is due before the slot that follows |
| Scheduler.StepIsClean | src/scheduler/Engine.cpp:499-512 | each step, sent in full, takes what the steps before it leave held to what the steps up to it leave held, and the last one to nothing |
| EngineHistory.NeverStuck | src/scheduler/Engine.cpp:319-331 | at every point of every run: whenever the engine is Armed, Disarmed or Paused nothing is held, whatever prefixes Windows accepted, so long as no release had more than 64 inputs to release |
| EngineHistory.CleanBoundaries | src/scheduler/Engine.cpp:424-428 | if Windows accepted every input so far, then at every pass through the loop of a run exactly what the steps of the current action sent so far leave held is held: nothing between two actions, in MAX mode and in pauses |
| EngineHistory.FullMeansFits | src/input/InputSender.cpp:84-100 | if Windows accepted every input so far, no release ever had more than 64 inputs to release |
| EngineHistory.EmergencyDominates | src/scheduler/Engine.cpp:269-273 | after an Emergency is handled, from any state, nothing is sent, no run (timed, MAX or paused) makes another pass through its loop, and no state but Disarmed is entered, until another thread arms the engine or asks for a run |
| EngineHistory.EmergencyDisarms | src/scheduler/Engine.cpp:319-331 | and so, at every wait that follows before that, the engine is Disarmed, and nothing is held where the releases had room |
| EngineHistory.EmergencyOnlyReleases | src/scheduler/Engine.cpp:223-229 | all that Windows is given from the Emergency until then are UP events |
| EngineHistory.HoldSafety | src/scheduler/Engine.cpp:201-214 | from an idle wait in Hold mode on, as long as only Hold configurations and no manual start are handled, every output happens while the last trigger edge handled is a Down, for any batching of edges, in pauses and in MAX mode |
| EngineHistory.NothingAfterQuit | src/scheduler/Engine.cpp:275-278 | after a Quit is handled nothing is sent |
| EngineHistory.DroppedOnlyAfterQuit | src/scheduler/Engine.cpp:275-281 | a drained command is left unhandled only behind a Quit |
| EngineHistory.FoldAccounts | src/input/InputSender.cpp:67-82 | what the record of the history says was delivered and taken from the queue is what its observations add up to |
| EngineHistory.BudgetKept | src/scheduler/Engine.cpp:487-511 | at every pass through the loop of a run completed plus remaining actions equal the limit asked for plus all Burst extensions handled, across timed batches, pauses and a switch to MAX, and a run that ends exhausted completed exactly that many |
| EngineHistory.NeverOverBudget | src/scheduler/Engine.cpp:573-582 | no limited run ever completes more than that, where only a trigger Down handled in Burst mode during the run adds to the grant, and adds the burst count |
| EngineOrders.LimitKept | src/scheduler/Engine.cpp:258-263 | said of observations alone: a run started with a limit of N actions completes at most N plus the burst counts of the presses handled during it, exactly that many if it ends because none remain, and at every pass the code counts the difference as remaining; a run without a limit never ends for that reason; for all sums below the "unlimited" value |
| EngineOrders.EveryRunIsAsked | src/scheduler/Engine.cpp:190-239 | every run was asked for, with exactly its limits, by a manual start or by a trigger Down while armed, handled since the last wait and the last run, and nothing since then took it back |
| EngineOrders.EveryAskIsHeard | src/scheduler/Engine.cpp:190-239 | and whatever is asked for is started before the next wait, unless it is taken back or replaced, or there is no program |
| EngineOrders.StopIsHeeded | src/scheduler/Engine.cpp:252-281 | after a command that stops the run (by mode, with both edges) is handled, nothing is sent and no loop makes another pass until another run starts |
| EngineOrders.StoppedByCommand | src/scheduler/Engine.cpp:252-281 | and a run that ends as stopped was stopped by such a command, handled during it |
| EngineOrders.LastConfigIsUsed | src/scheduler/Engine.cpp:429-445 | no configuration comes into use but the last one handled, and it is in use at every idle wait, whenever an action begins on the timeline, and whenever a MAX run looks at its limits |
| EngineOrders.TriggerGrants | src/scheduler/Modes.h:48-79 | what a trigger Down grants in each mode: a burst or a count of at least one action, a duration of at least a millisecond, or no limit |
| EngineOrders.TriggeredRunIsShort | src/scheduler/Modes.h:48-79 | a run that the trigger started in Burst or Count mode completes at most that many actions, and a burst more for each press handled during it |
| EnginePolling.CommandsAreTaken | src/scheduler/Engine.cpp:50-70 | after any look for commands nothing is sent, no pass, no idle wait and no run begins before every command posted in full by then is taken from the queue, handled or dropped behind a Quit; and if the flag was found set, every command in the queue |
| EnginePolling.EachPassTakesCommands | src/scheduler/Engine.cpp:425-426 | so every pass of a run, timed, at full speed (line 540) or paused (line 385), looks for commands before it sends and before the next pass, and takes all that had been posted in full |
| EnginePolling.EachWaitTakesCommands | src/scheduler/Engine.cpp:187-189 | and so does every idle wait before the next one and before a run |
| EnginePolling.ClosedGateStopsOutput | src/scheduler/Engine.cpp:374-398 | once a run has found the gate closed it sends nothing before it finds it open |
| EnginePolling.GateIsLookedAtLately | src/scheduler/Engine.cpp:447-456 | when an action begins the gate was looked at less than 2 ms before the action's slot was judged, and when a MAX batch goes out less than 1 ms before the time limit was (lines 551-555); only a clock younger than that is no look |
| EnginePolling.BacklogIsSmall | src/scheduler/Engine.cpp:559-571 | with backpressure a MAX batch is sent only if since the time limit was looked at the backlog was found within its limit |
| EngineHistory.SlotsConserved | src/scheduler/Engine.cpp:425-513 | slots of earlier epochs, plus the current index, plus one in mid-action, equal actions begun plus slots missed; and at every timed pass the code's own action and missed counters have that sum |
| EngineHistory.NeverEarlyNeverLate | src/scheduler/Engine.cpp:465-502 | every step is given to Windows at or after its deadline by the clock, and every slot used lies before the end of the run, each action of a batch included |
| EngineHistory.LogIsNeverEarly | src/scheduler/Engine.cpp:466-495 | so in the sender's own log every input of a step has a time from the step's deadline on |
| EngineHistory.StepsInOrder | src/scheduler/Engine.cpp:429-512 | in every run, while the period is at least 9 ticks, of two steps sent with no fresh grid between them the later is due strictly after the earlier, batches, exchanged actions and changes of rate included: each UP is due before the next DOWN |
| EngineHistory.OneEpochCount | src/scheduler/Engine.cpp:465 | a run in one epoch begins at most ceil((D - 1/2) / period) actions, and exactly that many if none is missed and it ends on its time limit |
| EngineHistory.DurationBound | src/scheduler/Engine.cpp:301-305 | a time-limited run of T ticks in one epoch begins at most ceil((T - 1/2) / period) actions: its grid starts no earlier than its limit |
| EngineOrders.DurationKept | src/scheduler/Engine.cpp:296-305 | and T is the duration that was asked for, in ticks of the counter |
| EngineOrders.StepsHaveTheRate | src/scheduler/Engine.cpp:440-444 | every step is sent on a grid whose period is that of the configured rate |
| EngineOrders.OnlyPausesRestart | src/scheduler/Engine.cpp:448-456 | no drift over a run: its grid starts again from the present only after a pause |
| EngineOrders.SkipsOnlyWhatIsDue | src/scheduler/Engine.cpp:458-464 | every slot given up was due, and so is the slot that comes next |
| EngineOrders.BeginsWhereSkipLands | src/scheduler/Engine.cpp:458-464 | every action of a timed run begins on the slot that skipLate chose at its boundary, just before: always when skipping, and when more than 250 ms behind otherwise; the first action, and any other, on the next slot of the grid |
| EngineHistory.LateBatch | src/scheduler/Engine.cpp:546-572 | each batch of a MAX run follows a look at the clock that was before the end of the run, with nothing in between but stores of other threads, or a pause |
| EngineOrders.PauseMakesLate | src/scheduler/Engine.cpp:547-552 | for every MAX configuration with an action: the thread is given it, asked for a run of 1 ms, paused behind the look at the time limit, and sends the whole batch at 2000 although the run was to end at 1000 |
| EngineProgram.RebuildProgram | src/scheduler/Engine.cpp:149-170 | both programs and the clamp flag are the specified ones |
| EngineProgram.SpanBelowPeriod | src/scheduler/Engine.cpp:153-165 | for a period of at least 10 ticks the program that runs spans less than 0.9 of it in both branches, despite truncation to microseconds and two roundings |
| EngineProgram.EndsInTimeIff | src/scheduler/Engine.cpp:149-165 | every action is over before the slot of the next one if and only if its span after the clamp, a function of hold, gap, repetition, counter and rate, is below the whole ticks of the period: for every counter, rate and action |
| EngineProgram.NineTicksSuffice | src/scheduler/Engine.cpp:153-165 | that is so for every action if the period is at least 9 ticks |
| EngineProgram.NineIsSharp | src/scheduler/Engine.cpp:153-156 | and 9 cannot be lowered: for every period between 80/9 and 9 ticks there is a configuration for which it fails |
| EngineProgram.PeriodOfTen | src/profiles/Profile.cpp:387 | any rate that a profile can give has such a period on a counter of at least 10 MHz |
| EngineProgram.DeadlinesRise | src/scheduler/Engine.cpp:469 | at any period of at least 9 ticks, over an epoch of fixed rate, the deadlines rise strictly through all actions and steps: the UP of each action is due before the DOWN of the next |
| EngineProgram.ClampFallsShort | src/scheduler/Engine.cpp:155-164 | on a 500 kHz counter the clamp can leave a program as long as the period |
| EngineProgram.ProgramsAreClean | src/scheduler/Engine.cpp:149-170 | both programs of every configuration, sent in full from nothing held, leave nothing held |
| Modes.Timeline.SkipLate | src/scheduler/Modes.h:107-115 | the new index is the specified one and the result is how far it went forward |
| Modes.Timeline.ChangePeriod | src/scheduler/Modes.h:118-124 | the next deadline does not move |
| Modes.SlotWithinHalfTick | src/scheduler/Modes.h:101 | every slot is within half a tick of t0 + k * period, for all k: no drift |
| Modes.SlotGap | src/scheduler/Modes.h:101 | neighbouring slots are less than one tick away from one period apart |
| Modes.SkipKeepsGrid | src/scheduler/Modes.h:107-115 | for a period of at least half a tick skipLate never goes back, and when it acts the slot it lands on is due and the one after it is not before now |
| Modes.SkipGoesBackIff | src/scheduler/Modes.h:110-113 | when skipLate acts it goes backwards exactly if now lies before the unrounded place of slot k |
| Modes.SkipCanGoBack | src/scheduler/Modes.h:110 | a concrete case of that, with a period of 0.3 ticks |
| Modes.SkipLandsOnLatestIff | src/scheduler/Modes.h:104-113 | for a period of at least half a tick, when skipLate acts it lands on the latest slot that is due if and only if the exact place of the slot after it is at least half a tick after now |
| Modes.SkipMayLeaveOneDue | src/scheduler/Modes.h:101-113 | slot rounds and skipLate floors, so the slot after the one it lands on may be due already |
| Modes.SlotBeforeEndIff | src/scheduler/Modes.h:101 | a slot lies before t0 + d exactly if its index is below ceil((d - 1/2) / period) |
| PreciseWaiter.Waiter.WaitUntil | src/scheduler/PreciseWaiter.cpp:93-130 | Reached only at or after the deadline, Interrupted only after a signal was seen, and a spin begins no earlier than margin and shortest sleep allow |
| PreciseWaiter.MarginBounds | src/scheduler/PreciseWaiter.cpp:67-86 | how early each precision wakes, for every estimate of the oversleep |
| PreciseWaiter.SpinIsATenthIff | src/scheduler/PreciseWaiter.cpp:72-79 | STANDARD spins at most a tenth of the period if and only if margin plus shortest sleep fit into it |
| PreciseWaiter.SpinMayExceedATenth | src/scheduler/PreciseWaiter.cpp:96 | at 1000 per second and 10 MHz a spin may take 2199 of 10000 ticks |
| PreciseWaiter.EcoNeverSpinsIff | src/scheduler/PreciseWaiter.cpp:69-96 | ECO does not spin at all if and only if its shortest sleep is at most one tick |
| PreciseWaiter.EcoMaySpin | src/scheduler/PreciseWaiter.cpp:96 | at 10 MHz an ECO wait may spin for 299 ticks |
| CommandQueue.NoLostCommand | src/scheduler/Engine.cpp:51-67 | for any number of posters interleaved with the engine a non-empty queue has its flag set or about to be set, and the engine never blocks on it unless the event is set or about to be |
| CommandQueue.HandledInPushOrder | src/scheduler/Engine.cpp:247-281 | commands up to the first Quit are handled once each, in push order; before it, handled, held and queued commands are together what was pushed |
| CommandQueue.QuiescentMeansAllHandled | src/scheduler/Engine.cpp:188-189 | a blocked engine without a pending wake-up has handled everything |
| CommandQueue.BlockedEngineWakes | src/scheduler/PreciseWaiter.cpp:36-41 | a blocked engine with a queued command gets going within three steps, none of them a new command |
| CommandQueue.RunKeepsInv | src/scheduler/Engine.cpp:383-387 | the protocol invariant over every run, waits of a run that consume the event included |
| SeqLock.ReadsAreAtomic | src/telemetry/Stats.h:136-165 | a read that returns true yields exactly one published value, none older than any read returned before, unless the counter went round once during the read |
| SeqLock.ReadsNeverGoBack | src/telemetry/Stats.h:147-160 | successive reads of one reader never go back |
| SeqLock.WrapTearsARead | src/telemetry/Stats.h:139-146 | with 2^31 writes during one read a mixture is returned: the exception is real |
| Histogram.IndexMonotone | src/telemetry/Stats.cpp:11-20 | bucket order is value order |
| Histogram.IndexInRange | src/telemetry/Stats.cpp:11-20 | every 64-bit value has a bucket |
| Histogram.MidIsClose | src/telemetry/Stats.cpp:22-30 | bucketMid undoes index up to one part in sixteen below 2^41 |
| Histogram.LastBucketSaturates | src/telemetry/Stats.cpp:16 | at and above 2^41 all values share the last bucket |
| Histogram.FirstBucketOver | src/telemetry/Stats.cpp:36-40 | the bucket where the running count reaches k is the bucket of the k-th smallest sample |
| Histogram.OrderStatisticExists | src/telemetry/Stats.cpp:35 | there is a k-th smallest sample for every k the code can ask for |
| Histogram.LogHistogram.Percentile | src/telemetry/Stats.cpp:32-42 | the result is within 1/16 of the exact ceil(q * N)-th smallest sample |
| Histogram.LogHistogram.Add | src/telemetry/Stats.h:29-33 | the counters are the bucket counts of all samples, below 2^32 samples |
| Input.UpMatchesDownIff | src/input/InputAction.cpp:47-64 | the UP that ends a held key carries its key, scan code, extended and scan-mode flags exactly if the scan code fits in a byte |
| Input.ButtonHeldIff | src/input/InputSender.cpp:7-26 | a mouse button is recorded as held if and only if the last of the events that press or release it presses it, or none does and it was held before; presses and releases are read off flags and data |
| Input.KeyHeldIff | src/input/InputSender.cpp:27-45 | so is a key |
| Input.MetaIsOfThePress | src/input/InputSender.cpp:32-38 | the scan code and the flags recorded for a held key are those of the press with which the hold began |
| Input.MetaStays | src/input/InputSender.cpp:32-44 | a key that was held and is not released keeps them, whatever further presses come |
| Input.ReleasesWhatIsHeld | src/input/InputSender.cpp:84-100 | a release list has UPs alone, each of a key or a button that is held |
| Input.ReleaseIsCompleteIff | src/input/InputSender.cpp:84-100 | a release leaves nothing held exactly if at most 64 inputs are held |
| Input.OneKeyTooMany | src/input/InputSender.cpp:86-95 | 65 keys go down from nothing, and a release leaves one of them held |
| Input.ReleasingAgain | src/input/InputSender.cpp:101-108 | sending the whole release list again after a part of it changes nothing more |
| Input.PartReleasesAllIff | src/input/InputSender.cpp:101-108 | giving Windows only the first so many events of a release list has the effect of the list if and only if they are all of it |
| Input.RejectedRelease | src/input/InputSender.cpp:101-108 | with the left button held and both calls rejected, it stays down and is recorded as released |
| InputSender.Sender.TrackInput | src/input/InputSender.cpp:7-46 | the bit words, the count, the metadata and the dirty flag follow Track, whose record ButtonHeldIff, KeyHeldIff and MetaIsOfThePress say in terms of the events |
| InputSender.Sender.Publish | src/input/InputSender.cpp:48-65 | the shared block equals the sender's held bits and the metadata of the held keys |
| InputSender.Sender.PublishSteps | src/input/InputSender.cpp:48-65 | after any number of its stores the shared block holds a record between the old one and the new: each key has metadata of its own, from one of the two, and no key that both hold is missing |
| InputSender.Sender.Send | src/input/InputSender.cpp:67-82 | only the accepted prefix changes the record, the shared block agrees afterwards, and the call counters are exact |
| InputSender.Sender.ReleaseAll | src/input/InputSender.cpp:84-110 | whatever Windows accepts, the record has the whole list applied and is empty exactly if at most 64 inputs were held; what Windows got is a prefix of the list, and the record is true of it exactly if that is the whole list |
| Guardian.ReleaseHeldFrom | src/input/HeldState.cpp:32-57 | the guardian emits exactly the list releaseAll would build from the same record, in the same order, and clears the record |
| Guardian.ProgramDies | src/input/HeldState.cpp:32-57 | if the program dies between two calls of its sender, the guardian sends what releaseAll would have sent |
| Guardian.ProgramDiesPublishing | src/input/InputSender.cpp:48-65 | if it dies in the middle of a publish, after any number of its stores, the guardian sends the release list of a record in between, as above, and clears the block |
| Actions.CompileAction | src/input/InputAction.cpp:92-162 | the loops build the program of which ProgramPresses and HeldAtEachPress say what it presses, when and with which modifiers |
| ActionPresses.ProgramPresses | src/input/InputAction.cpp:92-162 | the schedule of a program: the modifiers go down at 0; then one to three presses, as wanted, each the DOWN and after the hold time the UP of the chord's own button or key, with its scan code, extended flag and mode (virtual key for the keypad), or one notch on the wheel's axis with the sign of its direction, at distances of hold and gap; then as many modifiers go up |
| ActionPresses.HeldAtEachPress | src/input/InputAction.cpp:68-90 | before each press exactly the chord's modifiers are held, without one that the key itself is; for every mouse chord and every virtual key |
| ActionPresses.ScanCodes | src/input/KeyChord.cpp:193-225 | on any layout a scan code is a byte, none with an E1 prefix; which keys are extended whatever the layout says, and which only if it does |
| Actions.BuildTimeline | src/input/InputAction.cpp:117-145 | the running time t gives the closed-form times of all presses |
| Actions.ProgramIsItsTimeline | src/input/InputAction.cpp:147-160 | the steps' events in order are the timeline, one step per time, at most 14 inputs so the cap of 16 never splits a time, offsets rising strictly from 0 to the span |
| Actions.ProgramLeavesNothingHeld | src/input/InputAction.cpp:92-162 | whatever was held, after one action none of its keys and buttons is held and everything else is as before |
| Actions.NoHoldIsOneStep | src/scheduler/Engine.cpp:166-169 | the MAX program is a single step |
| Trigger.TriggerEngine.Process | src/trigger/TriggerEngine.cpp:354-460 | hook procedures, raw input and messages update the fields as the specified state machine does |
| Trigger.TriggerEngine.HandleKeyEvent | src/trigger/TriggerEngine.cpp:462-554 | so does handleKey; what it tells and keeps from others is said by KeyPressToldIff, KeySwallowedIff, OwedKeys and KeyCapturedIff |
| Trigger.TriggerEngine.HandleMouseEvent | src/trigger/TriggerEngine.cpp:556-623 | so does handleMouse; what it tells and keeps from others is said by ButtonPressToldIff, ButtonSwallowedIff, OwedButtons and ButtonCapturedIff |
| Trigger.NoFeedback | src/trigger/TriggerEngine.cpp:360-364 | over any run from any state, leaving out the program's own events changes no sink call, no state and no decision about other events |
| Trigger.EdgesAlternate | src/trigger/TriggerEngine.cpp:530-552 | while the trigger stays the same chord the sink is told Down and Up strictly alternating, through auto-repeat, capture, wheel, emergency and other changes of configuration |
| Trigger.EmergencyIff | src/trigger/TriggerEngine.cpp:521-528 | a key event sets off the emergency stop exactly if it is a fresh physical press completing the chord outside capture |
| Trigger.EmergencyButtonIff | src/trigger/TriggerEngine.cpp:556-600 | a mouse button or wheel notch sets it off exactly if it goes down, physically, and completes the chord, outside a capture of mouse buttons; a repeated DOWN sets it off again |
| TriggerEdges.KeyPressToldIff | src/trigger/TriggerEngine.cpp:530-545 | a key event tells the sink of a trigger press if and only if it is physical, or accepted, and not the program's own, goes down outside capture, is not the emergency stop, matches the trigger, the trigger is up, and all its modifiers are held; it is then suppressed exactly if that is wanted and the engine is armed |
| TriggerEdges.ButtonPressToldIff | src/trigger/TriggerEngine.cpp:592-610 | so does a mouse button, outside a capture of the mouse; a notch of the trigger wheel tells a press and a release whenever the modifiers are held |
| TriggerEdges.KeySwallowedIff | src/trigger/TriggerEngine.cpp:467-552 | a key event is kept from other programs if and only if it counts and is taken by a capture, is the UP of a key whose DOWN was kept, sets off the emergency stop, is of the trigger while it is down and suppressed, or is a told press that is suppressed |
| TriggerEdges.ButtonSwallowedIff | src/trigger/TriggerEngine.cpp:556-623 | the same for buttons and notches; a second DOWN of the trigger button is not kept |
| TriggerEdges.OwedKeys | src/trigger/TriggerEngine.cpp:475-527 | the UPs to be kept are exactly those of keys whose last DOWN a capture or the emergency stop has taken |
| TriggerEdges.OwedButtons | src/trigger/TriggerEngine.cpp:570-600 | and of buttons, except that a capture of the mouse gives none back |
| TriggerEdges.SuppressedAsPressed | src/trigger/TriggerEngine.cpp:533-550 | whether the trigger is suppressed does not change while it is down |
| TriggerEdges.RawIsButtons | src/trigger/TriggerEngine.cpp:423-460 | raw input tells the sink exactly what as many button events one after another would, and keeps nothing from others |
| TriggerEdges.KeyCapturedIff | src/trigger/TriggerEngine.cpp:467-513 | during capture a key event tells a chord if and only if it is the DOWN of a key that is no modifier or the UP of the modifier that went down last; the chord has the modifiers still held, and the capture is over |
| TriggerEdges.ButtonCapturedIff | src/trigger/TriggerEngine.cpp:561-580 | so does a button or notch that goes down while the mouse is captured, except a left click on the program's own window |
| TriggerEdges.ModIsHeldIff | src/trigger/TriggerEngine.cpp:332-340 | a modifier is held exactly if its key on one side is down |
| TriggerEdges.KeyMatchesIff | src/trigger/TriggerEngine.cpp:342-352 | a key matches a chord exactly if it is its key or a side of the modifier it names; of the two Enter keys only the right one does |
| Trigger.KeyReleaseToldIff | src/trigger/TriggerEngine.cpp:467-554 | the release of a trigger key that is down is told, and no longer taken for down, if and only if no capture is under way |
| Trigger.ButtonReleaseToldIff | src/trigger/TriggerEngine.cpp:556-623 | the release of a trigger button is, if and only if no capture of mouse buttons too is under way |
| Trigger.CaptureHidesTheRelease | src/trigger/TriggerEngine.cpp:467-512 | a concrete run: the trigger goes down, a capture begins, it goes up, and only the Down is told |
| JsonText.StringifyValue | src/core/Json.cpp:348-449 | the writers that append to a buffer produce the specified text |
| JsonText.ParseText | src/core/Json.cpp:115-449 | the cursor parser succeeds, fails and points at the error exactly as the specified one, whose numbers and escapes are worth what NumberReads, UnicodeReads and SurrogatesRead say |
| JsonText.Parser.ReadString | src/core/Json.cpp:237-274 | the string loop, escapes and surrogate pairs included, is the specified production |
| JsonText.Parser.ReadNumber | src/core/Json.cpp:183-201 | so is the number production; StrtodOfNumber says what its value is |
| JsonText.Parser.ReadMembers | src/core/Json.cpp:315-337 | so is the member loop |
| JsonRoundTrip.RoundTrip | src/core/Json.cpp:348-449 | for every value with integers below 2^53, pretty or compact: parsing its text gives it back if no node has more than 64 containers around it, and "nesting too deep" otherwise |
| JsonRoundTrip.PrettyAndCompactAgree | src/core/Json.cpp:386-432 | pretty and compact text parse alike |
| JsonRoundTrip.StringifyInjective | src/core/Json.cpp:443-449 | different values are never printed alike |
| JsonRoundTrip.ReadEscaped | src/core/Json.cpp:348-371 | any bytes survive escaping and reading back |
| JsonRoundTrip.StrtodOfInteger | src/core/Json.cpp:373-384 | decimal integers read back exactly |
| JsonNumbers.StrtodOfNumber | src/core/Json.cpp:197 | for all digits before and after the point, not both missing, with or without the point, every sign and every exponent part: the text is worth plus or minus (whole + fraction / 10^n) * 10^x |
| JsonNumbers.NumberReads | src/core/Json.cpp:183-201 | and in a document, whatever follows, it is read as that, or is an error if no double can hold it |
| JsonStrings.Utf8Decodes | src/core/Json.cpp:203-219 | every code point has the shortest well-formed UTF-8 sequence, and that decodes to it |
| JsonStrings.Hex4Reads | src/core/Json.cpp:221-234 | four hex digits in either case are worth their number |
| JsonStrings.UnicodeReads | src/core/Json.cpp:255-267 | an escape that is no high surrogate stands for its code point |
| JsonStrings.SurrogatesRead | src/core/Json.cpp:258-264 | two escapes that are the surrogates of a code point above 0xFFFF stand for it |
| JsonStrings.CommentIsSkipped | src/core/Json.cpp:141-153 | a line comment is skipped with its line break |
| Profiles.MakeEngineConfig | src/profiles/Profile.cpp:381-394 | whatever rate a profile asks for, the engine gets the nearest one it can run, and the same one if it can; everything else is the profile's, and the backlog is unlimited exactly when backpressure is off or its own limit is 0 |
| Profiles.ProfileStore.UniqueName | src/profiles/Profile.cpp:368-379 | the first free name in the order of trial |
| Profiles.UniqueIsTakenIff | src/profiles/Profile.cpp:368-379 | uniqueName returns a taken name exactly if everything it can try is taken |
| Profiles.ProfileStore.RepairOne | src/profiles/Profile.cpp:311-316 | a blank name becomes "Profile"; a name that no earlier profile has stays, and one that is taken becomes the first free name made from it |
| Profiles.UniqueIsNew | src/profiles/Profile.cpp:368-379 | with fewer than 10,000 profiles it never does |
| Profiles.TenThousandSuffice | src/profiles/Profile.cpp:374-378 | the bound is sharp for every name |
| Profiles.ProfileStore.Repair | src/profiles/Profile.cpp:310-320 | after load names are non-blank, distinct below 10,000 profiles, unchanged where nothing was wrong, nothing else is touched, and the active name exists |
| Profiles.Trim | src/core/Str.cpp:71-77 | trimming removes exactly the outer white space, and everything exactly if the text is blank |

## What does not hold as written

* `PreciseWaiter.h` and `marginTicks` say that STANDARD never spins for more than a tenth of the period and ECO not at
  all. The margin keeps that bound, but a remainder shorter than the shortest sleep (120 us, 30 us for ECO) is spun as
  well. `SpinIsATenthIff` and `EcoNeverSpinsIff` give the exact conditions, `SpinMayExceedATenth` and `EcoMaySpin`
  cases in which they fail.
* `skipLate` says it jumps to the latest slot that is due. For a period below half a tick it may go backwards: exactly
  if `SkipGoesBackIff` says so, for instance in `SkipCanGoBack`; rates up to 1,000,000 per second on a counter of
  500 kHz or more exclude this. From half a tick on it never does, but slots are rounded and `skipLate` floors, so the
  slot after the one it lands on may be due: `SkipLandsOnLatestIff` says when, `SkipMayLeaveOneDue` is an instance.
* `rebuildProgram` says an action ends before the next one starts. `EndsInTimeIff` says exactly for which actions, rates
  and counters it does: always from 9 ticks per period on (`NineTicksSuffice`), and for no smaller bound
  (`NineIsSharp`). `ClampFallsShort` is a clamped program as long as its period.
* The sequence lock tears a read if the writer completes 2^31 writes during it (`WrapTearsARead`); it does not
  otherwise (`ReadsAreAtomic`).
* The release buffers hold 64 inputs; what is held beyond that stays held (`ReleaseIsCompleteIff`, `OneKeyTooMany`).
* After a second rejected call `releaseAll` records everything as released although Windows may have taken only a part
  of it. The record is then true exactly if the part is the whole (`PartReleasesAllIff`, and `Sender.ReleaseAll` for
  the call); `RejectedRelease` is an instance. "Held" is the engine's record throughout.
* A remaining count that an extension takes to 2^64 - 1 turns a limited run into an unlimited one
  (`ExtensionIsExactIff`, `ExtensionUnlimits`).
* A MAX run looks at its time limit before the gate and not again: after a pause it sends a batch however late it is.
  `LateBatch` says that a batch is at or after the end only if the clock passed the end since that look, between two
  readings in a row or in a pause; `PauseMakesLate` is a history, for every action and batch size.
* A batch with a trigger Down followed by a disarming command still starts a run while idle (`DisarmDoesNotTakeBack`).
  `StartIff` says exactly which batches do.
* A capture that begins while the trigger is down swallows its release (`KeyReleaseToldIff`, `ButtonReleaseToldIff`;
  `CaptureHidesTheRelease` is a run), so in Hold mode the engine goes on until the trigger is pressed and released
  again.

## Left out

- Histogram.LogHistogram.Add: requires fewer than 2^32 samples, below which no 32-bit counter can wrap.
- Scheduler.Engine.AwaitDeadline: other threads act before and after a wait rather than at every instant of it, which
  makes no difference to what the engine can see.
- PreciseWaiter.Waiter.RecordOversleep: the ring of samples and its percentiles may give any estimate here; the bounds
  on the margin hold for every estimate.
- JsonRoundTrip.RoundTrip: numbers that are not integers go through `%.10g`, which loses digits; that branch is a
  parameter, and numbers are reals, so infinities, NaN and negative zero do not occur.
- EngineHistory.EmergencyDominates: an Emergency that a run leaves unhandled behind a Quit is recorded as dropped; the
  Quit stops the run in its place, and nothing is sent after it either.
- Scheduler.Engine.EndRun: no other thread stores armed between the load of armed and the store of the final state, as
  it might; "the state that the armed flag says" is that of the load.
- EngineHistory.EmergencyDisarms: how long the engine takes to its next wait; no run makes another pass before it, and
  a run that ends leaves the engine idle.
- IEEE rounding of `double` in the timeline and the clamp: periods and factors are exact reals.
- Weak memory: atomics and fences are sequentially consistent steps.
- Win32 itself: hooks, timers, `SendInput`, shared memory, priorities and window queries are the arbitrary answers
  described above; a lost hook or a frozen clock is outside the model.
- Telemetry contents (`publish`, `RunStats` other than its action and missed counters, the rate ring, trigger latency):
  bookkeeping that feeds nothing back, except the time of the next report, which is kept.
- The 32-bit words of held keys are sets of bit positions, modifier masks are sets, and text is a sequence of bytes.
- The mouse test target of the benchmark gate: the gate has any value at any time.
- Field-by-field JSON of profiles and settings, key names and enumerations, user interface, lab and tools.
