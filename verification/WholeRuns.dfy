/** Closed programs on the schedulers: what holds in every state of every run, and at its end. */
module WholeRuns {
  import opened Wrappers
  import opened Programs
  import opened Timers
  import opened Runtime
  import opened Safety
  import opened Execution
  import opened Timing
  import opened Horizon
  import opened TimedExecution
  import opened Scheduling

  /** A consistent state of a scheduler running closed programs, unless `std::terminate` was called: single
      ownership, one wake source per suspended frame, no fault, and every task on its way to an end that its program
      allows, counting time exactly (`x`) or by any clock. */
  ghost predicate Good(x: bool, sys: Sys<Store>) {
    && Sorted(sys.timers) && !sys.state.fault
    && (!sys.state.aborted ==>
          Inv(sys.state, None, multiset(sys.ready), multiset(sys.timers))
          && Timed(x, sys.state, sys.now) && Due(sys.state, multiset(sys.timers), sys.now))
  }

  // ---- Steps ----

  lemma {:induction false} StepSchedules(s: Store, h: Handle, now: int, later: int)
    ensures AllAfter(Step(s, h, now, later).sleeps, later)
  {
  }

  lemma {:induction false} ExecSchedules(s: Store, run: Option<Handle>, now: int, pace: Pace, fuel: nat)
    ensures var l := Exec(s, run, now, pace, fuel); now <= l.now && AllAfter(l.reaction.sleeps, l.now)
    decreases fuel
  {
    hide Step;
    if run.Some? && fuel > 0 {
      var t, t' := Begins(now, pace), Passes(now, pace);
      StepSchedules(s, run.value, t, t');
      SleepReturns(s, run.value, t, t');
      var m := Step(s, run.value, t, t');
      ExecSchedules(m.store, m.run, t', Onward(pace), fuel - 1);
    }
  }

  /** Closed programs schedule timers only through `Sleep`, which filters out deadlines that have passed. */
  lemma {:induction false} ClosedProgramsOnlySleep()
    ensures OnlySleeps(Resume) && OnlySleepsLate(ResumeLate)
  {
    hide Exec;
    forall s: Store, h: Handle, now: int, pace: Pace
      ensures now <= ResumeLate(s, h, now, pace).now
      ensures AllAfter(ResumeLate(s, h, now, pace).reaction.sleeps, ResumeLate(s, h, now, pace).now)
    {
      ExecSchedules(s, Some(h), now, pace, Mass(s.frames));
    }
    forall s: Store, h: Handle, now: int ensures AllAfter(Resume(s, h, now).sleeps, now) {
      ResumesVirtually();
      assert ResumeLate(s, h, now, STILL) == Lapse(Resume(s, h, now), now);
    }
  }

  /** A handle, just taken off its queue, is resumed. */
  lemma {:induction false} ResumedGood(x: bool, sys: Sys<Store>, h: Handle, pace: Pace)
    requires Sorted(sys.timers) && !sys.state.aborted && (x ==> Standing(pace))
    requires Inv(sys.state, Some(h), multiset(sys.ready), multiset(sys.timers))
    requires Timed(x, sys.state, sys.now) && Due(sys.state, multiset(sys.timers), sys.now)
    ensures var after := ResumedLate(ResumeLate, sys, h, pace);
      Good(x, after) && sys.now <= after.now && Mass(after.state.frames) < Mass(sys.state.frames)
  {
    hide Inv, Timed, Due, Exec;
    var r := ResumeLate(sys.state, h, sys.now, pace).reaction;
    var ready, timers := multiset(sys.ready), multiset(sys.timers);
    ResumeSafe(sys.state, h, sys.now, pace, ready, timers);
    ExecTimed(x, sys.state, Some(h), sys.now, pace, Mass(sys.state.frames), ready, timers);
    InsertAllLaws(sys.timers, r.sleeps);
    assert multiset(sys.ready + r.posts) == ready + multiset(r.posts);
  }

  /** While the clock stands still the two kinds of resumption agree. */
  lemma {:induction false} ResumedStill(sys: Sys<Store>, h: Handle, pace: Pace)
    requires Standing(pace)
    ensures ResumedLate(ResumeLate, sys, h, pace) == Resumed(Resume, sys, h)
  {
    hide Resume, ResumeLate;
    ResumesVirtually();
    assert ResumeLate(sys.state, h, sys.now, pace) == Lapse(Resume(sys.state, h, sys.now), sys.now);
  }

  lemma {:induction false} ServedStill(sys: Sys<Store>, pace: Pace)
    requires Standing(pace) && sys.ready != []
    ensures ServeLate(ResumeLate, sys, pace) == ServeFront(Resume, sys)
  {
    hide Resume, ResumeLate, Resumed, ResumedLate;
    ResumedStill(sys.(ready := sys.ready[1..]), sys.ready[0], pace);
  }

  lemma {:induction false} TakeFront<T>(q: seq<T>)
    requires q != []
    ensures multiset(q)[q[0]] > 0 && multiset(q[1..]) == multiset(q) - multiset{q[0]}
  {
    assert q == [q[0]] + q[1..];
  }

  lemma {:induction false} ServeLateGood(x: bool, sys: Sys<Store>, pace: Pace)
    requires Good(x, sys) && sys.ready != [] && (x ==> Standing(pace))
    ensures var after := ServeLate(ResumeLate, sys, pace);
      && Good(x, after) && sys.now <= after.now && (sys.state.aborted ==> after.state == sys.state)
      && (!sys.state.aborted ==> Mass(after.state.frames) < Mass(sys.state.frames))
  {
    if sys.state.aborted {
      InsertAllLaws(sys.timers, []);
    } else {
      TakeFront(sys.ready);
      TakeReady(sys.state, sys.ready[0], multiset(sys.ready), multiset(sys.timers));
      ResumedGood(x, sys.(ready := sys.ready[1..]), sys.ready[0], pace);
    }
  }

  lemma {:induction false} ServeGood(x: bool, sys: Sys<Store>)
    requires Good(x, sys) && sys.ready != []
    ensures Good(x, ServeFront(Resume, sys))
    ensures !sys.state.aborted ==> Mass(ServeFront(Resume, sys).state.frames) < Mass(sys.state.frames)
  {
    hide Good, Resume, ResumeLate, ResumedLate, Resumed, Mass;
    ServeLateGood(x, sys, STILL);
    ServedStill(sys, STILL);
  }

  /** With nothing ready, nothing happens before the earliest deadline. */
  lemma {:induction false} QuietUntil(x: bool, sys: Sys<Store>, bound: int)
    requires Good(x, sys) && !sys.state.aborted && sys.ready == []
    requires sys.timers != [] ==> bound <= sys.timers[0].when
    ensures Quiet(sys.state, None, sys.now, bound)
  {
    var s, ready, timers := sys.state, multiset(sys.ready), multiset(sys.timers);
    forall h | 0 <= h < |s.frames| ensures !Runnable(s, h)
      && (s.frames[h].code.Sleeping? ==> bound <= s.frames[h].code.when) {
      assert ready[h] == 0;
      if s.frames[h].code.Sleeping? {
        var t := Timer(s.frames[h].code.when, h);
        assert timers[t] > 0;
        assert t in sys.timers;
      }
    }
  }

  /** Time passes at the scheduler: under an exact clock only while nothing is ready, up to the earliest deadline. */
  lemma {:induction false} TickGood(x: bool, sys: Sys<Store>, now: int)
    requires Good(x, sys) && sys.now <= now
    requires x && sys.now < now ==> sys.ready == [] && (sys.timers != [] ==> now <= sys.timers[0].when)
    ensures Good(x, sys.(now := now))
  {
    if !sys.state.aborted {
      if x && sys.now < now {
        QuietUntil(x, sys, now);
      }
      TickTimed(x, sys.state, sys.now, now, multiset(sys.ready), multiset(sys.timers));
    }
  }

  lemma {:induction false} FireGood(x: bool, sys: Sys<Store>)
    requires Good(x, sys) && sys.ready == [] && sys.timers != []
    ensures Good(x, FireFront(Resume, sys))
    ensures !sys.state.aborted ==> Mass(FireFront(Resume, sys).state.frames) < Mass(sys.state.frames)
  {
    hide FramesOk, GroupsOk, ReadyOk, TimersOk, Timed, Due, Mass, Quiet;
    var t := sys.timers[0];
    var sys1 := sys.(now := Max(sys.now, t.when));
    TickGood(x, sys, sys1.now);
    var sys2 := sys1.(timers := sys.timers[1..], fired := sys.fired + [t]);
    if sys.state.aborted {
      InsertAllLaws(sys.timers[1..], []);
    } else {
      TakeFront(sys.timers);
      TakeTimer(sys.state, t, multiset(sys.ready), multiset(sys.timers));
      DueWithout(sys.state, t, multiset(sys.timers), sys1.now);
      ResumedGood(x, sys2, t.handle, STILL);
      ResumedStill(sys2, t.handle, STILL);
    }
  }

  lemma {:induction false} DueWithout(s: Store, t: Timer, timers: multiset<Timer>, now: int)
    requires Due(s, timers, now) && t.when <= now
    ensures Due(s, timers - multiset{t}, now)
  {
  }

  /** Moves one due entry to the ready queue. */
  function DrainOne(sys: Sys<Store>): Sys<Store>
    requires sys.timers != []
  {
    sys.(ready := sys.ready + [sys.timers[0].handle], timers := sys.timers[1..], fired := sys.fired + [sys.timers[0]])
  }

  lemma {:induction false} DrainOneGood(x: bool, sys: Sys<Store>)
    requires Good(x, sys) && sys.timers != [] && sys.timers[0].when <= sys.now
    ensures Good(x, DrainOne(sys))
  {
    hide FramesOk, GroupsOk, ReadyOk, TimersOk, Timed, Due, Mass;
    if !sys.state.aborted {
      var t := sys.timers[0];
      TakeFront(sys.timers);
      MoveTimer(sys.state, t, multiset(sys.ready), multiset(sys.timers));
      DueWithout(sys.state, t, multiset(sys.timers), sys.now);
      assert multiset(sys.ready + [t.handle]) == multiset(sys.ready) + multiset{t.handle};
    }
  }

  lemma {:induction false} DrainGood(x: bool, sys: Sys<Store>)
    requires Good(x, sys)
    ensures Good(x, DrainExpired(sys)) && DrainExpired(sys).state == sys.state
    decreases |sys.timers|
  {
    hide Good;
    if DueCount(sys.timers, sys.now) == 0 {
      DrainsNothing(sys);
    } else {
      DrainOneGood(x, sys);
      DrainGood(x, DrainOne(sys));
      DrainStep(sys);
    }
  }

  lemma {:induction false} DrainsNothing(sys: Sys<Store>)
    requires DueCount(sys.timers, sys.now) == 0
    ensures DrainExpired(sys) == sys
  {
    assert sys.ready + HandlesOf(sys.timers[..0]) == sys.ready;
    assert sys.fired + sys.timers[..0] == sys.fired;
  }

  /** One more timer moved to the ready queue is the same drain. */
  lemma {:induction false} DrainStep(sys: Sys<Store>)
    requires sys.timers != [] && sys.timers[0].when <= sys.now
    ensures DrainExpired(DrainOne(sys)) == DrainExpired(sys)
  {
    var k, one := DueCount(sys.timers, sys.now), DrainOne(sys);
    assert DueCount(one.timers, one.now) == k - 1;
    assert sys.timers[..k] == [sys.timers[0]] + one.timers[..k - 1];
    assert HandlesOf(sys.timers[..k]) == [sys.timers[0].handle] + HandlesOf(one.timers[..k - 1]);
  }

  // ---- Launching tasks ----

  /** A task is created and its handle posted: by `Run` or a test, which keep the frame, or detached. */
  function Launched(sys: Sys<Store>, b: Body, env: Env, detached: bool): Sys<Store> {
    var s := sys.state;
    sys.(state := s.(frames := s.frames + [TaskFrame(b, env, None, if detached then Itself else Driver, sys.now)]),
         ready := sys.ready + [|s.frames|])
  }

  lemma {:induction false} LaunchedFrames(s: Store, f: Frame, ready: multiset<Handle>, timers: multiset<Timer>)
    requires Inv(s, None, ready, timers)
    requires f.code.Start? && f.continuation == None && (f.owner.Driver? || f.owner.Itself?)
    ensures Inv(s.(frames := s.frames + [f]), None, ready + multiset{|s.frames|}, timers)
  {
    hide ReadyOk, TimersOk;
    var s' := s.(frames := s.frames + [f]);
    forall k | 0 <= k < |s'.frames| ensures FrameOk(s', None, k) {
      if k < |s.frames| {
        assert FrameOk(s, None, k);
        LaunchedOld(s, f, k);
      }
    }
    hide FrameOk;
    forall g | 0 <= g < |s'.groups| ensures GroupOk(s', g) {
      assert GroupOk(s, g);
      forall i | 0 <= i < |s.groups[g].Children()| && WrapperOk(s, g, i) ensures WrapperOk(s', g, i) {
      }
    }
    LaunchedQueues(s, s', f, ready, timers);
  }

  lemma {:induction false} LaunchedOld(s: Store, f: Frame, k: Handle)
    requires k < |s.frames| && FrameOk(s, None, k)
    ensures FrameOk(s.(frames := s.frames + [f]), None, k)
  {
  }

  lemma {:induction false} LaunchedQueues(s: Store, s': Store, f: Frame, ready: multiset<Handle>,
                                          timers: multiset<Timer>)
    requires ReadyOk(s, None, ready, timers) && TimersOk(s, None, timers) && s' == s.(frames := s.frames + [f])
    requires f.code.Start? && (f.owner.Driver? || f.owner.Itself?)
    ensures ReadyOk(s', None, ready + multiset{|s.frames|}, timers) && TimersOk(s', None, timers)
  {
    forall h: Handle ensures (ready + multiset{|s.frames|})[h] == Wanted(s', None, timers, h) {
      assert ready[h] == Wanted(s, None, timers, h);
    }
  }

  lemma {:induction false} LaunchedTimed(x: bool, s: Store, b: Body, env: Env, owner: Owner, now: int)
    requires Timed(x, s, now)
    ensures Timed(x, s.(frames := s.frames + [TaskFrame(b, env, None, owner, now)]), now)
  {
    var s' := s.(frames := s.frames + [TaskFrame(b, env, None, owner, now)]);
    forall k | 0 <= k < |s'.frames| ensures FrameTimed(x, s', now, k) {
      if k < |s.frames| {
        assert FrameTimed(x, s, now, k);
      }
    }
    forall g | 0 <= g < |s'.groups| ensures GroupTimed(x, s', now, g) {
      assert GroupTimed(x, s, now, g);
    }
  }

  lemma {:induction false} LaunchGood(x: bool, sys: Sys<Store>, b: Body, env: Env, detached: bool)
    requires Good(x, sys)
    ensures Good(x, Launched(sys, b, env, detached))
  {
    if !sys.state.aborted {
      var owner := if detached then Itself else Driver;
      LaunchedFrames(sys.state, TaskFrame(b, env, None, owner, sys.now), multiset(sys.ready), multiset(sys.timers));
      LaunchedTimed(x, sys.state, b, env, owner, sys.now);
      var h: Handle := |sys.state.frames|;
      assert multiset(sys.ready + [h]) == multiset(sys.ready) + multiset{h};
    }
  }

  function Idle(now: int): Sys<Store> {
    Sys(EMPTY_STORE, [], [], now, [], [], [])
  }

  lemma {:induction false} IdleGood(x: bool, now: int)
    ensures Good(x, Idle(now)) && InOrder(Idle(now))
  {
  }

  // ---- Whole runs stay good ----

  lemma {:induction false} ManualGood(x: bool, sys: Sys<Store>, target: int)
    requires Good(x, sys) && ManualNext(Resume, sys, target).Some?
    ensures var next := ManualNext(Resume, sys, target).value;
      Good(x, next) && (!sys.state.aborted ==> Mass(next.state.frames) < Mass(sys.state.frames))
      && (sys.state.aborted ==> next.state == sys.state && |next.ready| + |next.timers| < |sys.ready| + |sys.timers|)
  {
    if sys.ready != [] {
      ServeGood(x, sys);
    } else {
      FireGood(x, sys);
    }
  }

  /** Every state in which `AdvanceTo` returns is good, whatever tasks share the scheduler. */
  lemma {:induction false} AdvanceGood(x: bool, sys: Sys<Store>, target: int, n: nat, end: Sys<Store>)
    requires Good(x, sys) && AdvancesTo(Resume, sys, target, n, end)
    ensures Good(x, end) && (sys.state.aborted ==> end.state.aborted)
    ensures end.state.aborted || n + Mass(end.state.frames) <= Mass(sys.state.frames)
    decreases n
  {
    hide Good;
    match ManualNext(Resume, sys, target) {
      case None => TickGood(x, sys, end.now);
      case Some(next) =>
        ManualGood(x, sys, target);
        AdvanceGood(x, next, target, n - 1, end);
    }
  }

  /** `AdvanceTo` returns. */
  lemma {:induction false} AdvanceHalts(x: bool, sys: Sys<Store>, target: int) returns (n: nat, end: Sys<Store>)
    requires Good(x, sys)
    ensures AdvancesTo(Resume, sys, target, n, end)
    decreases if sys.state.aborted then 0 else 1,
              if sys.state.aborted then |sys.ready| + |sys.timers| else Mass(sys.state.frames)
  {
    hide Good;
    match ManualNext(Resume, sys, target) {
      case None => n, end := 0, sys.(now := Max(sys.now, target));
      case Some(next) =>
        ManualGood(x, sys, target);
        n, end := AdvanceHalts(x, next, target);
        n := n + 1;
    }
  }

  /** What is left to do, for counting iterations of `Run`. */
  function Work(sys: Sys<Store>): nat {
    if sys.state.aborted then |sys.ready| + |sys.timers| else Mass(sys.state.frames)
  }

  function Waits(sys: Sys<Store>): (w: nat)
    ensures w <= 1
  {
    if DrainExpired(sys).ready == [] then 1 else 0
  }

  /** One iteration of `Run`: it resumes a handle, or waits so that the next iteration will. */
  lemma {:induction false} RunTurnGood(x: bool, sys: Sys<Store>, turn: Turn)
    requires Good(x, sys) && sys.now <= turn.now && RunTurn(ResumeLate, sys, turn).Some?
    requires x ==> turn.now == sys.now && Standing(turn.pace)
    ensures var next, sys1 := RunTurn(ResumeLate, sys, turn).value, sys.(now := turn.now);
      && Good(x, next) && turn.now <= next.now && (sys.state.aborted ==> next.state.aborted)
      && (Waits(sys1) == 1 ==> next.state == sys.state && Work(next) == Work(sys)
                               && next.timers != [] && next.timers[0].when <= next.now)
      && (Waits(sys1) == 0 && next.state.aborted == sys.state.aborted ==> Work(next) < Work(sys))
  {
    hide Good;
    var sys1 := sys.(now := turn.now);
    TickGood(x, sys, turn.now);
    DrainGood(x, sys1);
    var s := DrainExpired(sys1);
    assert |s.ready| + |s.timers| == |sys.ready| + |sys.timers|;
    if s.ready != [] {
      ServeLateGood(x, s, turn.pace);
    } else {
      TickGood(x, s, Max(s.now, s.timers[0].when));
    }
  }

  /** The same while the clock stands still. */
  lemma {:induction false} RunNextGood(x: bool, sys: Sys<Store>)
    requires Good(x, sys) && RunNext(Resume, sys).Some?
    ensures var next := RunNext(Resume, sys).value;
      && Good(x, next) && (sys.state.aborted ==> next.state.aborted)
      && (Waits(sys) == 1 ==> next.state == sys.state && Work(next) == Work(sys)
                              && next.timers != [] && next.timers[0].when <= next.now)
      && (Waits(sys) == 0 && next.state.aborted == sys.state.aborted ==> Work(next) < Work(sys))
  {
    hide Good, Resume, ResumeLate, RunNext, RunTurn, Work, Waits;
    ResumesVirtually();
    StillTurn(Resume, ResumeLate, sys, Turn(sys.now, STILL));
    RunTurnGood(x, sys, Turn(sys.now, STILL));
    assert sys.(now := sys.now) == sys;
  }

  /** `Run` breaks out of its loop, under a clock that moves only when waited on. */
  lemma {:induction false} RunHalts(x: bool, sys: Sys<Store>) returns (n: nat, end: Sys<Store>)
    requires Good(x, sys)
    ensures RunsOut(Resume, sys, n, end) && Good(x, end)
    decreases if sys.state.aborted then 0 else 1, 2 * Work(sys) + Waits(sys)
  {
    hide Good;
    match RunNext(Resume, sys) {
      case None => n, end := 0, sys;
      case Some(next) =>
        RunNextGood(x, sys);
        n, end := RunHalts(x, next);
        n := n + 1;
    }
  }

  lemma {:induction false} RunGood(x: bool, sys: Sys<Store>, n: nat, end: Sys<Store>)
    requires Good(x, sys) && RunsOut(Resume, sys, n, end)
    ensures Good(x, end) && end.ready == [] && end.timers == []
    decreases n
  {
    hide Good;
    if n > 0 {
      RunNextGood(x, sys);
      RunGood(x, RunNext(Resume, sys).value, n - 1, end);
    }
  }

  lemma {:induction false} DueDoesNotWait(sys: Sys<Store>)
    requires sys.timers != [] && sys.timers[0].when <= sys.now
    ensures Waits(sys) == 0
  {
    assert |HandlesOf(sys.timers[..DueCount(sys.timers, sys.now)])| > 0;
  }

  /** The work left before an iteration that reads the clock as `turns[0]` says, counting two iterations for every
      step. */
  function IterationsLeft(sys: Sys<Store>, turns: seq<Turn>): nat {
    2 * Mass(sys.state.frames) + if turns == [] then 0 else Waits(sys.(now := turns[0].now))
  }

  /** Under any clock that honours `WaitUntil`, moving as it likes even while a coroutine runs, every state of `Run` is
      good, and its loop runs at most twice per unit of program size before it breaks. */
  lemma {:induction false} RunForGood(sys: Sys<Store>, turns: seq<Turn>)
    requires Good(false, sys) && ClockOk(ResumeLate, sys, turns) && RunFor(ResumeLate, sys, turns).Some?
    ensures var end := RunFor(ResumeLate, sys, turns).value;
      && Good(false, end) && sys.now <= end.now && (sys.state.aborted ==> end.state.aborted)
      && (end.state.aborted || |turns| + 2 * Mass(end.state.frames) <= IterationsLeft(sys, turns))
    decreases |turns|
  {
    hide Good, Mass, DrainExpired, RunTurn, Waits;
    if turns != [] {
      var sys1 := sys.(now := turns[0].now);
      RunTurnGood(false, sys, turns[0]);
      var next := RunTurn(ResumeLate, sys, turns[0]).value;
      RunForGood(next, turns[1..]);
      if Waits(sys1) == 1 && turns[1..] != [] {
        DueDoesNotWait(next.(now := turns[1].now));
      }
    }
  }
}
