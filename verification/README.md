# Verified model of the Coro runtime

`Coro` is a single-threaded coroutine library: lazy `Task` coroutines that own their frames and hand
control to one another by symmetric transfer, the combinators `WhenAll` and `WhenAny`, two schedulers
(`EventLoop` and the virtual-time `ManualScheduler`) over a common timer heap, and a driver that lets a
foreign event pump keep the timers.  This project models all of it and proves what the library promises
about whole runs.

**Programs.** A closed program is a `Body` (`Programs.dfy`): what a coroutine does between its
`co_await`s.  Every value, duration, exception and branch condition is an arbitrary function of the
frame's locals; a `co_await` that can throw has one successor for the value and one for the handler.
`Meaning.dfy` says in direct style how such a program may end and when; `Cost.dfy` turns that into an
evaluator for programs without races and a max-plus/min duration for programs that do not throw or branch.

**The machine.** `Runtime.dfy` is a step machine over frames, promises, owners, awaiters and the shared
states of the combinators.  Undefined behaviour in the original (resuming a destroyed or finished frame,
destroying an unfinished one, counter underflow, reporting twice, posting a parent that is not there) sets
a `fault` flag; `std::terminate` sets `aborted`.  The clock may move before and during every step; only `Sleep`
looks at it, twice.  `CoroutineHeap.dfy` is the same machine in place.
Frames are numbered in the order of their creation and numbers are never reused.

**Schedulers.** `Scheduling.dfy` has the driving loops over arbitrary coroutines, with the history of a run:
both loops in virtual time, and `Run` under any clock that moves by itself; `Schedulers.dfy` has them as
objects over `TimerQueue.dfy` (the array heap) and `Clock.dfy`. `PumpTimerDriver.dfy` is the pump driver and
its host timer.

**The invariants.** `Safety*.dfy`: one owner and one wake source per frame, for every step. `Timing*.dfy`,
`Horizon.dfy`, `TimedExecution.dfy`: what is left of every frame ends only as its program may end, at a time
its meaning allows, and nothing that is still running was bound to be over. `WholeRuns.dfy` carries both
through any run of either scheduler, with any number of tasks launched at any time; `Guarantees.dfy` reads off
the promises. `History.dfy`: what no step or run undoes. `Answers.dfy`: what a `co_await` of a combinator
yields. `Races.dfy` decides ties in `WhenAny`, `LateRaces.dfy` has races under any clock, `Combinators.dfy`
treats completions in any order and counts postings over runs. `PostedTasks.dfy`: which detached tasks a
program launches. `StartOrder.dfy`: the children of a combinator start in argument order. `Equivalence.dfy`
compares the schedulers, `TiedTasks.dfy` has two tasks on which they differ, `Sessions.dfy` uses the scheduler
objects.

Where the code and a claim about it part ways:

* The two schedulers do not always run the same trace.  They agree if and only if no coroutine that a timer
  wakes posts anything while another timer is due (`Guarantees.SchedulersAgree`).  Distinct deadlines
  suffice (`Equivalence.DistinctDeadlinesAgree`); equal ones do not (`TiedTasks.ClosedProgramsDiffer`).  What tasks
  without races deliver, and when, is the same in any case (`Guarantees.SchedulersDeliverTheSame`).
* README.md:452-454 of the repository says that the event loop goes on until the root is done or the loop
  runs dry, and empties the ready queue in each iteration.  The code resumes one handle in an iteration and
  stops only when nothing at all is left (src/Coro/EventLoop.cpp:62-82); the model follows the code, and
  `Scheduling.TimerNotBypassed` depends on it.

`dafny verify dfyconfig.toml` checks everything.

## Model

| member | source | states |
|---|---|---|
| Cost.EvalIsMeaning | src/Coro/Task.hpp:352-386 | The direct-style evaluator and the timed meaning agree for every race-free program: the one admissible end is the evaluated one |
| Cost.EvalBoundsMeaning | src/Coro/Clock.hpp:32-42 | Under a clock that may be late, a race-free program still delivers the evaluated outcome, never sooner |
| Cost.EvalOfNothing | src/Coro/Task.hpp:372-380 | The evaluator does the same with empty tasks and joins of nothing |
| Cost.SteadyEnds | src/Coro/Sleep.hpp:29-43 | A program that neither throws nor branches ends normally after exactly its duration: sleeps cost max(d, 0), sequencing adds, WhenAll is the maximum, WhenAny the minimum |
| Cost.Longest | src/Coro/WhenAll.hpp:51-55 | The cost of a join is the cost of its costliest child |
| Cost.Shortest | src/Coro/WhenAny.hpp:44-53 | The cost of a race is the cost of its cheapest child |
| Meaning.EndsSomehow | src/Coro/EventLoop.hpp:54-60 | Every program has an admissible end from every start |
| Meaning.EndsNoEarlier | src/Coro/Sleep.hpp:35-38 | No program ends before it starts, negative sleeps included |
| Meaning.EmptyTaskEnds | src/Coro/Task.hpp:372-380 | Awaiting an empty Task<T> ends exactly as the handler of a std::logic_error does, from the same time; an empty Task<void> exactly as what follows |
| Meaning.EmptyCombinatorEnds | src/Coro/WhenAny.hpp:128-135 | Racing nothing ends exactly as the handler of a std::invalid_argument does; joining nothing exactly as what follows, with an empty tuple |
| Timers.DueCount | src/Coro/TimerQueue.hpp:50-58 | The due entries of a sorted list are a prefix of it |
| Timers.InsertLaws | src/Coro/TimerQueue.hpp:40-44 | One insertion keeps the list sorted and adds exactly one entry |
| Timers.InsertAllIsStableSort | src/Coro/TimerQueue.hpp:91-101 | Insertion in any order sorts by deadline, keeps the multiset, and keeps equal deadlines in insertion order |
| Timers.StableSortIsUnique | src/Coro/TimerQueue.hpp:91-101 | That determines the order completely |
| TimerHeap.PushHeap | src/Coro/TimerQueue.hpp:43 | In-place sift-up: heap order restored, multiset kept |
| TimerHeap.SwapEnds | src/Coro/TimerQueue.hpp:54-55 | First step of pop_heap: front and last entry change places |
| TimerHeap.SiftDown | src/Coro/TimerQueue.hpp:54 | In-place sift-down: heap order restored, multiset kept, the entries behind untouched |
| TimerHeap.PopHeap | src/Coro/TimerQueue.hpp:54 | The front moves to the back, the rest is a heap, the multiset is kept |
| TimerHeap.FrontIsEarliest | src/Coro/TimerQueue.hpp:52-57 | The front of a heap is no later than any entry |
| TimerHeap.FrontsAgree | src/Coro/TimerQueue.hpp:52-57 | A heap and the strictly sorted list of the same entries have the same front |
| TimerHeap.InsertEntryTimers | src/Coro/TimerQueue.hpp:91-101 | Ordering by (deadline, sequence number) is insertion behind every entry that is not due later |
| TimerHeap.TimerQueue.constructor | src/Coro/TimerQueue.hpp:103-104 | A new queue is empty |
| TimerHeap.TimerQueue.Append | src/Coro/TimerQueue.hpp:42 | push_back on a growing array |
| TimerHeap.TimerQueue.Schedule | src/Coro/TimerQueue.hpp:40-44 | The heap holds exactly what stable sorted insertion would |
| TimerHeap.TimerQueue.PopDue | src/Coro/TimerQueue.hpp:50-58 | Yields the front of the stable sorted list iff it is due, and removes exactly it |
| TimerHeap.TimerQueue.NextDeadline | src/Coro/TimerQueue.hpp:62-67 | The deadline of the front of the stable sorted list, if there is one |
| TimerHeap.TimerQueue.Size | src/Coro/TimerQueue.hpp:76-79 | The number of pending entries |
| Clocks.Clock.WaitUntil | src/Coro/Clock.hpp:32-42 | On return the clock shows at least the deadline and has not gone back; a manual clock shows exactly the later of the two |
| Clocks.Clock.Now | src/tests/ManualClock.hpp:19-22 | Reads a clock that never goes back, and a manual one does not move |
| Clocks.Clock.Advance | src/tests/ManualClock.hpp:27-30 | Moves a manual clock on by hand |
| FrameHeap.CoroutineHeap.CreateTask | src/Coro/Task.hpp:207-210 | A new frame is lazy: it stands before its body, and one place owns it |
| FrameHeap.CoroutineHeap.FinishFrame | src/Coro/Task.hpp:170-196 | Final suspend: transfer to the continuation, or self-destruction of a detached frame and terminate on an escaping exception |
| FrameHeap.CoroutineHeap.AwaitSuspend | src/Coro/Task.hpp:352-356 | The awaiter owns the child, is its continuation, and transfers into it |
| FrameHeap.CoroutineHeap.TakeOutcome | src/Coro/Task.hpp:331-335 | The awaiter takes the outcome and frees the finished frame |
| FrameHeap.CoroutineHeap.DeliverOutcome | src/Coro/Task.hpp:372-386 | A value reaches the next statement, an exception the handler |
| FrameHeap.CoroutineHeap.SleepFrame | src/Coro/Sleep.hpp:29-43 | In place: the deadline is fixed at one reading of the clock; one that has passed at the next reading does not suspend, any other is scheduled |
| FrameHeap.CoroutineHeap.PostTask | src/Coro/Scheduler.hpp:55-60 | Release, mark detached, post |
| FrameHeap.CoroutineHeap.ForkChildren | src/Coro/WhenAll.hpp:144-152 | One wrapper per child and the shared state for the parent, in place; in which order they are posted is `StartOrder.JustForked` |
| FrameHeap.CoroutineHeap.StartWrapperFrame | src/Coro/WhenAny.hpp:68-82 | A wrapper steals its task and transfers into it |
| FrameHeap.CoroutineHeap.OnJoinChildDone | src/Coro/WhenAll.hpp:51-55 | Store, count down, post the parent at zero |
| FrameHeap.CoroutineHeap.OnRaceChildDone | src/Coro/WhenAny.hpp:44-65 | The first completion is kept and posts the parent; later ones change nothing |
| FrameHeap.CoroutineHeap.WrapperDoneFrame | src/Coro/WhenAll.hpp:70-88 | The child's value or exception is recorded, its frame freed, the group told, the wrapper finished |
| FrameHeap.CoroutineHeap.DestroyWrappers | src/Coro/WhenAll.hpp:197-199 | The awaitable's vector frees exactly its wrapper frames |
| FrameHeap.CoroutineHeap.GroupDoneFrame | src/Coro/WhenAll.hpp:137-195 | The parent receives the collected outcome and the wrappers are freed |
| FrameHeap.CoroutineHeap.StepFrame | src/Coro/Task.hpp:352-386 | One transfer of control in place is one step of the machine |
| FrameHeap.CoroutineHeap.ResumeHandle | src/Coro/Task.hpp:160-196 | A resumption runs transfers in one loop until control returns, while the clock moves as it likes; it performs the machine's reaction and ends |
| SafetyGroups.JoinTeardown | src/Coro/WhenAll.hpp:51-88 | When the parent of a join is resumed, every wrapper stands at its final suspend point, owned by the vector, neither queue holds its handle, and all slots are engaged |
| SafetyGroups.WrapperDoneWorks | src/Coro/WhenAll.hpp:51-55 | A reporting wrapper finds its slot open and the counter positive, and the parent waiting if it is to be posted |
| SafetyGroups.WrapperDoneSafe | src/Coro/WhenAny.hpp:44-91 | A report keeps the global invariant |
| SafetyGroups.GroupDoneSafe | src/Coro/WhenAll.hpp:137-199 | Collecting and tearing down keeps the global invariant |
| SafetyGroups.ForkSafe | src/Coro/WhenAny.hpp:145-155 | Forking keeps the global invariant |
| SafetySteps.AwaitTaskSafe | src/Coro/Task.hpp:352-356 | Awaiting keeps the global invariant |
| SafetySteps.FinishSafe | src/Coro/Task.hpp:170-196 | Finishing keeps the global invariant |
| SafetySteps.TaskDoneSafe | src/Coro/Task.hpp:331-386 | Resuming after an await keeps the global invariant |
| SafetySteps.SpawnTaskSafe | src/Coro/Scheduler.hpp:55-60 | Detaching and posting keeps the global invariant |
| SafetySteps.ParkSafe | src/Coro/Sleep.hpp:40-43 | Going to sleep keeps the global invariant |
| Execution.StepMass | src/Coro/EventLoop.cpp:62-72 | Every step strictly shrinks the program that is left |
| Execution.StepSafe | src/Coro/Task.hpp:170-196 | Every step of a consistent state is fault-free and leads to one, unless it is a detached task's escaping exception |
| Execution.ExecSafe | src/Coro/Task.hpp:352-356 | Chains of transfers end, and end consistently |
| Execution.ResumeSafe | src/Coro/ManualScheduler.cpp:29-40 | Resuming a queued handle is safe and uses up some of the program |
| TimingSteps.FirstReportWins | src/Coro/WhenAny.hpp:44-53 | The first child to report is one that no sibling can precede |
| TimedExecution.StepTimed | src/Coro/Task.hpp:352-386 | After every step, what is left of each frame ends only as its own program allows |
| TimedExecution.ExecTimed | src/Coro/Sleep.hpp:29-43 | So does every resumption, and it leaves no sleeper without a timer unless it is due |
| TimedExecution.TickTimed | src/Coro/EventLoop.cpp:81 | And the passing of time |
| TimingSteps.PassTimed | src/Coro/Clock.hpp:29-30 | On a real clock time may pass at any moment, within a resumption too |
| Meaning.EndsLater | src/Coro/Clock.hpp:32-42 | On a real clock what may end may end later |
| Horizon.MayEndLater | src/Coro/ManualScheduler.cpp:50-56 | While nothing can happen before a time, every unfinished task may, by its program, end at or after it |
| Scheduling.AdvanceLands | src/Coro/ManualScheduler.hpp:64-70 | An advance lands on its target, never backwards, with nothing ready and no timer due; its count is the number of resumptions |
| Scheduling.AdvanceComposes | src/Coro/ManualScheduler.cpp:42-58 | Advancing to t1 and then to t2 is advancing to t2: trace, state and added counts |
| Scheduling.AdvanceSplits | src/Coro/ManualScheduler.cpp:42-58 | Every advance can be interrupted at any earlier target |
| Scheduling.AdvanceByComposes | src/Coro/ManualScheduler.cpp:60-63 | Advancing by a and then by b is advancing by a + b |
| Scheduling.AdvanceInOrder | src/Coro/ManualScheduler.cpp:50-56 | Over any advance, the timers fired and then those pending are the stable sort of all that were scheduled |
| Scheduling.AdvanceFiresOnTime | src/Coro/ManualScheduler.hpp:25-29 | Over any advance, each timer is resumed with the clock at exactly its own deadline |
| Scheduling.RunForInOrder | src/Coro/EventLoop.cpp:28-33 | The same order over any stretch of Run under any clock |
| Scheduling.RunForTakesTurns | src/Coro/EventLoop.cpp:28-33 | Over any such stretch, for arbitrary coroutines, every fired timer is resumed in its turn, in the order of firing, at a reading of the clock that has reached its deadline |
| Scheduling.ServedInTurn | src/Coro/EventLoop.cpp:62-72 | Whatever the coroutines do, position k of the drained ready queue is served in iteration k |
| Scheduling.ReadyNotBypassed | src/Coro/EventLoop.cpp:66-72 | A ready handle at position k is resumed in exactly the (k+1)-th iteration |
| Scheduling.TimerNotBypassed | src/Coro/EventLoop.cpp:28-33 | A due timer behind r ready handles and j earlier timers is resumed in exactly the (r+j+1)-th |
| Scheduling.UndriftingRunsOut | src/tests/ManualClock.hpp:19-39 | Iterations of Run on a clock that only moves when waited on are a run of the manual-clock loop |
| Scheduling.ServeClocks | src/Coro/EventLoop.cpp:35-49 | Each resumption of RunOnce observes the clock between the drain and the end |
| Scheduling.ServeIsBounded | src/Coro/EventLoop.cpp:35-49 | RunOnce resumes exactly what was ready or due when it began, in order, and leaves what that posted |
| Equivalence.EventLoopFollows | src/Coro/EventLoop.cpp:62-82 | Without a clash, Run under a manual clock has the trace and the end of the advance |
| Equivalence.SameTraceIffNoClash | src/Coro/ManualScheduler.cpp:50-55 | The traces are the same if and only if no clash occurs, for all coroutines that sleep and do not post sleepers |
| Equivalence.ClashDiverges | src/Coro/ManualScheduler.cpp:50-55 | After a clash the next resumption differs |
| Equivalence.NoTiesNoClash | src/Coro/EventLoop.cpp:28-33 | Without equal pending deadlines there is no clash |
| Equivalence.DistinctDeadlinesAgree | src/tests/ManualClock.hpp:36-39 | Without equal pending deadlines both schedulers run the same trace to the same state |
| Equivalence.TiesMatter | src/Coro/ManualScheduler.cpp:50-55 | A concrete pair of equal deadlines on which the traces differ |
| TiedTasks.AdvanceOverTie | src/Coro/ManualScheduler.cpp:50-55 | Two launched tasks that sleep alike, the first posting on waking: the whole advance, resumption by resumption, with a clash on the way |
| TiedTasks.ClosedProgramsDiffer | src/Coro/EventLoop.cpp:28-33 | On these two closed programs Run has another trace |
| Execution.ResumesVirtually | src/tests/ManualClock.hpp:19-39 | On a clock that stands still, a resumption is one at a single reading |
| Execution.SleepSetsTimer | src/Coro/Sleep.hpp:29-43 | Whenever a resumption comes to a sleep, under any clock, the deadline is the first reading plus the duration; unless the second reading has reached it, the resumption ends with exactly that timer |
| WholeRuns.ClosedProgramsOnlySleep | src/Coro/Sleep.hpp:35-43 | Closed programs schedule only deadlines strictly in the future |
| WholeRuns.ServeGood | src/Coro/ManualScheduler.cpp:29-40 | Serving the ready queue keeps every invariant and shrinks the program |
| WholeRuns.FireGood | src/Coro/ManualScheduler.cpp:50-55 | So does firing a timer |
| WholeRuns.DrainGood | src/Coro/EventLoop.cpp:28-33 | So does moving due timers to the ready queue |
| WholeRuns.LaunchGood | src/Coro/EventLoop.cpp:51-55 | Any task can be launched at any time |
| WholeRuns.AdvanceGood | src/Coro/ManualScheduler.cpp:42-58 | Every advance keeps every invariant, and its resumptions are paid for by program size |
| WholeRuns.AdvanceHalts | src/Coro/ManualScheduler.cpp:42-58 | Every advance of a closed program returns |
| WholeRuns.RunTurnGood | src/Coro/EventLoop.cpp:62-82 | One iteration under such a clock keeps every invariant and leaves less to do |
| WholeRuns.RunHalts | src/Coro/EventLoop.cpp:62-82 | Run breaks out of its loop |
| WholeRuns.RunForGood | src/Coro/EventLoop.cpp:62-82 | Under any monotone clock that honours WaitUntil, moving also while coroutines run, every state of Run is good, and the loop runs at most twice per unit of program size |
| Guarantees.SingleOwner | src/Coro/Task.hpp:447-508 | A live frame is held by exactly the one place it names as its owner, a destroyed frame by none |
| Guarantees.NoDanglingHandle | src/Coro/TimerQueue.hpp:24-26 | No queue and no live continuation names a finished or destroyed frame, whoever is executing |
| Guarantees.EndIsFinal | src/Coro/Task.hpp:331-335 | An end is final, and a destroyed frame is never touched again |
| Guarantees.AdvanceDestroysOnce | src/Coro/Task.hpp:170-196 | So over any advance |
| Guarantees.RunDestroysOnce | src/Coro/EventLoop.cpp:84-89 | And over any stretch of Run, under any clock |
| Guarantees.OneWakeSource | src/Coro/Task.hpp:352-356 | In every reachable state, between resumptions and within them, every suspended frame that is not executing has exactly one of: a ready entry, a timer, a live child, an open combinator |
| Guarantees.NothingSuspended | src/Coro/EventLoop.cpp:74-76 | With both queues empty every live frame has finished |
| Guarantees.DrainedMeansDone | src/Coro/EventLoop.cpp:57-61 | With both queues empty every frame is destroyed but finished ones that a caller still holds |
| Guarantees.RunDrains | src/Coro/EventLoop.hpp:54-60 | When Run breaks, under any clock, root and detached tasks are done and nothing faulted |
| Guarantees.OnlyEscapesTerminate | src/Coro/WhenAny.hpp:68-91 | std::terminate is called exactly when a detached task lets an exception escape; no wrapper, whose catch-all records the exception, ever does |
| Guarantees.EndsAsMeant | src/Coro/WhenAny.hpp:157-173 | Every task that has ended, in any reachable state, ended as its meaning allows |
| Guarantees.AwaitingNothingEnds | src/Coro/Task.hpp:372-380 | In every reachable state, under any clock, a task that began by awaiting an empty task or an empty combinator and has ended, ended as its handler does from that very exception, or as what follows |
| Guarantees.EndsAsEvaluated | README.md:250-273 | A task without races delivered exactly the evaluated value or exception, at that time or, on a real clock, not before |
| Guarantees.NeverEarly | src/Coro/Scheduler.hpp:62-66 | A steady task never ends before its duration has passed, on any clock |
| Guarantees.StillRunningEndsLater | src/Coro/ManualScheduler.hpp:64-70 | A task still running after an advance may only end after the target |
| Guarantees.SteadyOnTime | src/Coro/ManualScheduler.cpp:29-58 | A steady task ends at exactly its creation time plus its duration, whatever else shares the scheduler; an advance finds it ended iff it reaches that time |
| Guarantees.EvaluatedOnTime | src/Coro/Task.hpp:352-386 | The same for tasks without races, exceptions included |
| Guarantees.RunEndsOnTime | src/Coro/EventLoop.cpp:51-82 | After a complete Run on a manual clock every task has ended, exactly on time |
| Guarantees.LaunchedOnTime | src/Coro/ManualScheduler.cpp:42-58 | The cost law from launch to end |
| Guarantees.IterationLeavesCaller | src/Coro/EventLoop.cpp:53-55 | Nothing destroys the root frame that Run holds |
| Guarantees.PostsAreNotAsleep | src/Coro/WhenAll.hpp:51-55 | A closed program never posts a coroutine that is asleep |
| Guarantees.SchedulersAgree | src/Coro/EventLoop.cpp:28-33 | For closed programs the two schedulers have the same trace if and only if no clash occurs |
| Guarantees.FarEnough | src/Coro/ManualScheduler.cpp:42-58 | For every state there is a target far enough to exhaust all timers |
| Guarantees.SchedulersDeliverTheSame | src/Coro/ManualScheduler.cpp:42-58 | Even where the traces differ, both schedulers end every task without races with the same outcome at the same virtual time, and every steady task normally and at the same time |
| Combinators.JoinCounts | src/Coro/WhenAll.hpp:51-55 | In any order of completions the counter equals the number of open children, does not underflow, and the parent is posted by the last and no other |
| Combinators.JoinIgnoresOrder | src/Coro/WhenAll.hpp:70-88 | After all completions the slots hold them in argument order, whatever the order was |
| Combinators.JoinRethrowsFirst | src/Coro/WhenAll.hpp:160-173 | A join with exceptions rethrows that of the lowest index |
| Combinators.JoinYieldsValues | src/Coro/WhenAll.hpp:178-195 | A join without one yields all non-void values in argument order |
| Combinators.RaceKeepsFirst | src/Coro/WhenAny.hpp:44-65 | The first completion decides and posts; all later ones change and post nothing |
| Combinators.PostedOnResolution | src/Coro/WhenAny.hpp:44-65 | In every reachable state a report posts the parent iff it resolves the group |
| Combinators.PostedOnceInAdvance | src/Coro/WhenAll.hpp:51-55 | Along any advance the reports to a combinator post its parent once if it is resolved on the way, and never otherwise |
| Combinators.PostedOnceInRun | src/Coro/WhenAny.hpp:44-65 | The same along any stretch of Run, under any clock |
| Combinators.JoinedHandsOver | src/Coro/WhenAll.hpp:160-195 | In direct style a join yields the exception of its lowest failed child, or all non-void values at their places in argument order, at the time of its last child |
| Combinators.AdvanceHandsJoined | src/Coro/WhenAll.hpp:137-195 | In every state of an advance, a parent that has left a join was handed that of the outcomes recorded for children 0, 1, ... |
| Combinators.RunForHandsJoined | src/Coro/WhenAll.hpp:137-195 | And in every state of Run, under any clock |
| History.StepRemembers | src/Coro/Task.hpp:331-335 | No step, in any state, changes a destroyed frame, a finished frame's outcome, a recorded completion or a winner |
| History.AdvanceRemembers | src/Coro/WhenAny.hpp:25-29 | Nor does any advance |
| History.RunForRemembers | src/Coro/WhenAny.hpp:25-29 | Nor any stretch of Run, under any clock |
| Answers.ParentResumes | src/Coro/WhenAny.hpp:157-173 | A resumed parent is handed the answer of its resolved combinator; for a race won by child i that is Won(i, value), or its exception |
| Answers.AdvanceAnswers | src/Coro/WhenAll.hpp:137-195 | In every state of an advance, each parent that has left its combinator was handed that combinator's answer at that place |
| Answers.RunForAnswers | src/Coro/WhenAll.hpp:137-195 | And in every state of Run, under any clock |
| Answers.AdvanceHandsWon | src/Coro/WhenAny.hpp:157-173 | In every state of an advance, a parent that has left a race won by child i was handed Won(i, its value), or its exception |
| Answers.RunForHandsWon | src/Coro/WhenAny.hpp:157-173 | And in every state of Run, under any clock |
| Races.ShortestSleepWins | src/Coro/WhenAny.hpp:145-173 | A race of sleepers is won by the one minimising (max(d, 0), index), with its own outcome, at exactly that time, whatever else runs; and it is open before that |
| Races.AwaitYieldsShortest | src/Coro/WhenAny.hpp:157-173 | Once an advance reaches the end of the shortest sleep, the parent's co_await has yielded Won(i, v) where child i returns v then, or the exception child i throws then |
| Races.RaceTaskGetsShortest | src/Coro/WhenAny.hpp:157-173 | A task whose body is such a race, however it goes on, was handed Won(i, v) of the shortest sleep, where child i returns v, or the exception it throws, by the time it ends |
| Races.FrontIsFirst | src/Coro/TimerQueue.hpp:93-101 | The alarm at the front of the timer queue is that of the lexicographically first sleeper |
| Races.StepFair | src/Coro/WhenAny.hpp:145-155 | Every step keeps all races in line: started in argument order, woken in alarm order |
| Races.AdvanceFair | src/Coro/ManualScheduler.cpp:42-58 | So does every advance |
| Races.LaunchFair | src/Coro/Scheduler.hpp:55-60 | And every launch |
| LateRaces.FirstReported | src/Coro/WhenAny.hpp:44-65 | The first report to an open race records how that child ended, and no sibling ended before |
| LateRaces.RunForFirstWins | src/Coro/WhenAny.hpp:44-65 | In every state of Run, under any clock, the winner ended as recorded by the time of its report, and no sibling that has ended did so before that time |
| PostedTasks.PostingStands | src/Coro/Scheduler.hpp:55-60 | In every consistent state, posting a task makes one frame, detached, at the start of that task, with the locals of the poster, and posts exactly it; the poster goes on |
| PostedTasks.StepTotal | src/Coro/Scheduler.hpp:55-60 | Conservation: a step of a race-free program leaves alone the multiset of detached tasks that exist together with those that direct style says are still to come |
| PostedTasks.AdvanceAccounts | src/Coro/ManualScheduler.cpp:42-58 | So does every advance, whatever tasks run |
| PostedTasks.RunAccounts | src/Coro/EventLoop.cpp:51-82 | And a complete Run on a manual clock |
| PostedTasks.LaunchAccounts | src/Coro/Scheduler.hpp:55-60 | Launching a program adds what it posts, and itself if it is detached |
| PostedTasks.ProgramPosts | src/Coro/Scheduler.hpp:55-60 | A race-free program run until no timer is left has created exactly the detached tasks that direct style names, each with its body, its locals and its time; on the way there are never others |
| PostedTasks.RunPosts | src/Coro/EventLoop.cpp:51-82 | The same for a complete Run on a manual clock |
| StartOrder.JustForked | src/Coro/WhenAll.hpp:144-152 | A combinator that forks ends the resumption with one new wrapper per child posted, that of child i as the i-th, with child i unstarted behind it, with the locals of the parent |
| StartOrder.StepLined | src/Coro/Scheduler.hpp:55-60 | Every step, in any state, keeps wrappers, detached tasks and roots in line in the order in which they were made |
| StartOrder.AdvanceStartsInLine | src/Coro/ManualScheduler.cpp:29-58 | So does every advance |
| StartOrder.RunForStartsInLine | src/Coro/EventLoop.cpp:62-82 | And any stretch of Run, under any clock |
| StartOrder.LaunchStartsInLine | src/Coro/Scheduler.hpp:55-60 | And every launch |
| StartOrder.AdvanceInArgumentOrder | src/Coro/WhenAny.hpp:145-155 | After any advance, for every WhenAll and WhenAny and all i < k: the first resumption of child i's wrapper precedes that of child k's, and until then it stands before it in the ready queue |
| StartOrder.RunForInArgumentOrder | src/Coro/WhenAll.hpp:144-152 | The same after any stretch of Run, under any clock |
| Schedulers.Queues.ScheduleAt | src/Coro/ManualScheduler.cpp:14-17 | Scheduling is stable sorted insertion |
| Schedulers.Queues.ResumeHandle | src/Coro/ManualScheduler.cpp:36 | Resuming a handle performs the coroutine's reaction on both queues |
| Schedulers.ManualScheduler.DrainReady | src/Coro/ManualScheduler.cpp:29-40 | Serves until nothing is ready and returns the number of resumptions |
| Schedulers.ManualScheduler.AdvanceTo | src/Coro/ManualScheduler.cpp:42-58 | The nested loops perform exactly the abstract advance, in place on the heap, and return its count |
| Schedulers.ManualScheduler.AdvanceBy | src/Coro/ManualScheduler.cpp:60-63 | Relative to the present virtual time |
| Schedulers.ManualScheduler.RunUntilIdle | src/Coro/ManualScheduler.cpp:65-68 | Drains what is ready or due; virtual time does not move |
| Schedulers.EventLoop.DrainExpiredTimers | src/Coro/EventLoop.cpp:28-33 | Moves exactly the timers due at one reading, in order |
| Schedulers.EventLoop.RunOnce | src/Coro/EventLoop.cpp:35-49 | One bounded round; true iff anything was resumed |
| Schedulers.EventLoop.Iterate | src/Coro/EventLoop.cpp:62-82 | One iteration: drain, then resume one handle, wait, or stop |
| Schedulers.EventLoop.Launch | src/Coro/Scheduler.hpp:55-60 | Posts a detached task |
| Schedulers.EventLoop.Run | src/Coro/EventLoop.cpp:51-90 | Terminates under every clock; its iterations are an abstract run to exhaustion, on a manual clock that of the manual-clock loop; then the root has ended, every frame is reclaimed, and a race-free root returns its evaluation |
| Sessions.AdvanceTwice | src/Coro/ManualScheduler.hpp:58-71 | Two advances of a scheduler object amount to the one that goes as far |
| Sessions.RunBeside | src/Coro/EventLoop.hpp:54-73 | A root run beside a detached task on a manual clock: a steady root ends after exactly its duration, one without races exactly as evaluated |
| Pump.DelayUntil | src/Coro/PumpTimerDriver.hpp:133-136 | The least whole-millisecond delay that reaches the deadline, zero if that has passed |
| Pump.ArmedForTheEarliest | src/Coro/PumpTimerDriver.hpp:121-137 | After any calls the host timer is armed iff something is parked, for the earliest deadline, to expire within a millisecond of it |
| Pump.ParkedOrPosted | src/Coro/PumpTimerDriver.hpp:84-112 | After any calls every handle handed over is parked or was posted, once |
| Pump.PostedInOrder | src/Coro/PumpTimerDriver.hpp:101-112 | Nothing is posted early, and parked entries come out in stable deadline order over the whole run |
| Pump.Win32FiresOnTime | src/Coro/Win32MessageScheduler.cpp:127-132 | Under the Win32 clamp a host timer never waits less than the smaller of the delay and its maximum |
| Pump.Win32IntervalIsNearest | src/Coro/Win32MessageScheduler.cpp:127-132 | The interval set is the delay if Win32 takes it, and otherwise the nearest one that it takes, from 10 to 2147483647 ms |
| Pump.Win32FiresNear | src/Coro/Win32MessageScheduler.cpp:127-132 | A host that fires when that interval is over does so within a millisecond of the earliest deadline if the delay is in range, 10 ms after arming if it is shorter, and after the longest interval if it is longer |
| Pump.EmptyTicksBounded | src/Coro/PumpTimerDriver.hpp:103-137 | Firings that post nothing number fewer than the initial delay over the longest interval, and none if the host does not cut the delay short |
| Pump.PostingTicksBounded | src/Coro/PumpTimerDriver.hpp:109-111 | Firings that post something while an entry due by then is parked are bounded by the entries parked before and meanwhile that are due by then |
| Pump.TicksTakeTime | src/Coro/PumpTimerDriver.hpp:103-137 | The readings of successive firings strictly increase, and each leaves only later deadlines parked |
| Pump.PostedInTheEnd | src/Coro/PumpTimerDriver.hpp:103-137 | Every parked entry is posted, whatever is scheduled meanwhile: at the latest once the host has fired more often than there are clock ticks until the deadline |
| Pump.PostedSoon | src/Coro/PumpTimerDriver.hpp:103-137 | A tighter bound: one firing for every entry parked that is due by then, and one for every longest host interval until the deadline |
| Pump.PumpTimerDriver.Rearm | src/Coro/PumpTimerDriver.hpp:125-137 | Cancels with nothing parked, otherwise arms for the earliest deadline |
| Pump.PumpTimerDriver.ScheduleAt | src/Coro/PumpTimerDriver.hpp:89-99 | A deadline already due is posted, any other parked and the timer re-armed: the state is that of one more call |
| Pump.PumpTimerDriver.OnTimerExpired | src/Coro/PumpTimerDriver.hpp:103-112 | Posts what is due at one reading, then re-arms: the state is that of one more call |
| Pump.PumpTimerDriver.PendingCount | src/Coro/PumpTimerDriver.hpp:114-118 | All handles handed over less those posted |

## Left out

- Native stack depth: `CoroutineHeap.ResumeHandle` runs a chain of transfers as one loop, so constant stack use is part of how symmetric transfer is modelled, not a theorem.
- Tasks that are created and dropped, stored or moved before they are awaited: bodies create a task where they await, combine or post it. `Task` move construction and assignment appear as changes of a frame's owner.
- `std::shared_ptr` counts of the race state: combinator states stay in the store for good, so their deallocation is not modelled.
- Order of frame creation: a fork numbers all wrappers first and then all tasks; the original creates the tasks before the awaitable. What is promised does not depend on numbers, only on the order in which handles are posted.
- Fixed-width time points and `_nextSequence`: unbounded integers.
- What happens after `std::terminate`: the process is gone, so resumptions become no-ops and a run only empties its queues.
- Programs that never end: bodies are finite trees, so unbounded loops inside a coroutine are not programs here. The scheduler results in `Scheduling` and `Equivalence` hold for arbitrary coroutines, endless ones included.
- Cancellation and raw handles (`Native`, double posting, destroying a frame that is suspended, destroying a scheduler with queued work): closed programs cannot do these.
- `TracingScheduler`, the `Spawn` alias, `ReadyCount` and `PendingTimerCount`: they would only add easy members.
- The rest of `Win32MessageScheduler` and all of `QtScheduler`: window messages, `QTimer`, cross-thread posting. Only the clamp of the timer interval is modelled; that the host fires at all is the counted number of ticks in `Pump.PostedInTheEnd`.
- `SystemClock`: any monotone sequence of readings that honours `WaitUntil` stands for it.
- Demos, `FetchBackend`, QML and terminal input: user interface and I/O.
- Schedulers.EventLoop.Run: takes a program where the original takes a `Task`, and returns the root's outcome where the original returns or rethrows; with a terminated program it returns nothing.
- Races.ShortestSleepWins: only for children that sleep once and then return or throw, under virtual time; a race of arbitrary children is won by one that none precedes in time (`Guarantees.EndsAsMeant`, and in the run at hand `LateRaces.RunForFirstWins`), and which of several that end at one time is left open.
- PostedTasks.ProgramPosts: for programs in which neither the root nor a posted task races, in virtual time. Which tasks a race posts depends on its ties, and under a real clock the times do; `PostedTasks.PostingStands` holds for all programs and any clock.
