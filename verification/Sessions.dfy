/** Sessions with the schedulers, by their contracts alone. */
module Sessions {
  import opened Wrappers
  import opened Programs
  import opened Meaning
  import opened Cost
  import opened Clocks
  import opened Timers
  import opened TimerHeap
  import opened Runtime
  import opened Execution
  import opened Scheduling
  import opened WholeRuns
  import opened History
  import opened Guarantees
  import opened Schedulers

  /** A task launched on a fresh virtual-time scheduler, and two advances: they amount to the one that goes as far, and
      perform as many resumptions. */
  method AdvanceTwice(b: Body, env: Env, t1: int, t2: int) returns (scheduler: ManualScheduler, resumed: nat)
    requires t1 <= t2
    ensures fresh(scheduler) && scheduler.Valid()
    ensures AdvancesTo(Resume, Launched(Idle(0), b, env, true), t2, resumed, scheduler.View())
  {
    hide Good, Resume, AdvancesTo, TimerQueue.Valid, TimerQueue.Contents;
    scheduler := new ManualScheduler();
    scheduler.Launch(b, env, true);
    ghost var start := scheduler.View();
    var first := scheduler.AdvanceTo(t1);
    ghost var mid := scheduler.View();
    var second := scheduler.AdvanceTo(t2);
    AdvanceComposes(Resume, start, t1, t2, first, mid, second, scheduler.View());
    resumed := first + second;
  }

  /** A root, and a detached task beside it, run to the end under a manual clock: a steady root returns normally, after
      exactly its duration; one without races returns what it evaluates to, at exactly that time. */
  method RunBeside(b: Body, env: Env, other: Body) returns (o: Option<Outcome>, ghost done: Done)
    ensures o.Some? ==> o.value == done.o
    ensures o.Some? && Steady(b) ==> done.o.Value? && done.at == Duration(b)
    ensures o.Some? && RaceFree(b) ==> done == Eval(b, env, 0)
  {
    hide Good, Resume, ResumeLate, RunNext, RunsOut, RunFor, ClockOk, TimerQueue.Valid, TimerQueue.Contents;
    var clock := new Clock(NoDrift);
    var loop := new EventLoop(clock, true);
    loop.Launch(other, [], true);
    ghost var start := Launched(loop.View(), b, env, false);
    ghost var root := |loop.queues.heap.frames|;
    LaunchGood(true, loop.View(), b, env, false);
    ghost var turns;
    o, turns := loop.Run(b, env);
    done := Done(Value(Unit), 0);
    if o.Some? {
      ghost var end := RunFor(ResumeLate, start, turns).value.(now := clock.now);
      done := RootEnds(start, |turns|, end, root, Origin(b, env, 0));
    }
  }

  lemma {:induction false} RootEnds(start: Sys<Store>, n: nat, end: Sys<Store>, root: Handle, origin: Origin)
    returns (done: Done)
    requires Good(true, start) && RunsOut(Resume, start, n, end) && !end.state.aborted
    requires root < |start.state.frames| && start.state.frames[root].origin == Some(origin) && Ended(end.state, root)
    ensures done == EndOf(end.state, root)
    ensures Steady(origin.body) ==> done.o.Value? && done.at == origin.at + Duration(origin.body)
    ensures RaceFree(origin.body) ==> done == Eval(origin.body, origin.env, origin.at)
  {
    RunRemembers(start, n, end);
    assert Outlives(start.state.frames[root], end.state.frames[root]);
    RunEndsOnTime(start, n, end, root);
    done := EndOf(end.state, root);
  }
}
