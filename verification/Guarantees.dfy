/** What the runtime promises, read off the invariants. */
module Guarantees {
  import opened Wrappers
  import opened Programs
  import opened Meaning
  import opened Cost
  import opened Timers
  import opened Runtime
  import opened Safety
  import opened SafetyGroups
  import opened Execution
  import opened Timing
  import opened Horizon
  import opened TimedExecution
  import opened Scheduling
  import opened Equivalence
  import opened WholeRuns
  import opened History

  // ---- Ownership ----

  ghost predicate Live(s: Store, h: Handle) {
    h < |s.frames| && !s.frames[h].code.Destroyed?
  }

  /** The awaiter inside `p` holds `h`. */
  ghost predicate HeldByAwaiter(s: Store, p: Handle, h: Handle) {
    p < |s.frames| && Awaits(s.frames[p].code, h)
  }

  /** A `Task` object waiting for wrapper `w` to start holds `h`. */
  ghost predicate HeldAsArgument(s: Store, w: Handle, h: Handle) {
    w < |s.frames| && s.frames[w].code.Wrap? && s.frames[w].code.task == h
  }

  /** The `_wrappers` vector of an awaited `WhenAll` holds `h`. */
  ghost predicate HeldByJoin(s: Store, g: nat, h: Handle) {
    && ParentWaits(s, g) && s.groups[g].Join?
    && s.groups[g].first <= h < s.groups[g].first + |s.groups[g].Children()|
  }

  /** Each place that can own a frame owns it exactly when the frame names that place as its one owner; so a live
      frame has one owner and a destroyed frame none. */
  lemma {:induction false} SingleOwner(s: Store, run: Option<Handle>, ready: multiset<Handle>,
                                       timers: multiset<Timer>, h: Handle)
    requires Inv(s, run, ready, timers)
    ensures forall p :: HeldByAwaiter(s, p, h) <==> Live(s, h) && s.frames[h].owner == Awaiter(p)
    ensures forall w :: HeldAsArgument(s, w, h) <==> Live(s, h) && s.frames[h].owner == Argument(w)
    ensures forall g :: (
      HeldByJoin(s, g, h) <==> Live(s, h) && s.frames[h].owner.Wrapped? && s.frames[h].owner.group == g)
  {
    if h < |s.frames| {
      assert FrameOk(s, run, h);
    }
    forall p ensures HeldByAwaiter(s, p, h) <==> Live(s, h) && s.frames[h].owner == Awaiter(p) {
      if HeldByAwaiter(s, p, h) {
        assert FrameOk(s, run, p);
      }
    }
    forall w ensures HeldAsArgument(s, w, h) <==> Live(s, h) && s.frames[h].owner == Argument(w) {
      if HeldAsArgument(s, w, h) {
        assert FrameOk(s, run, w);
      }
    }
    forall g ensures HeldByJoin(s, g, h) <==> Live(s, h) && s.frames[h].owner.Wrapped? && s.frames[h].owner.group == g {
      JoinHolds(s, run, h, g);
    }
  }

  lemma {:induction false} JoinHolds(s: Store, run: Option<Handle>, h: Handle, g: nat)
    requires FramesOk(s, run) && GroupsOk(s)
    ensures HeldByJoin(s, g, h) <==> Live(s, h) && s.frames[h].owner.Wrapped? && s.frames[h].owner.group == g
  {
    if h < |s.frames| {
      assert FrameOk(s, run, h);
    }
    if HeldByJoin(s, g, h) {
      assert GroupOk(s, g) && WrapperOk(s, g, h - s.groups[g].first);
    }
  }

  /** No queue and no continuation of a live frame names a destroyed or finished frame, whoever is executing. */
  lemma {:induction false} NoDanglingHandle(s: Store, run: Option<Handle>, ready: multiset<Handle>,
                                            timers: multiset<Timer>, h: Handle)
    requires Inv(s, run, ready, timers)
    requires h >= |s.frames| || s.frames[h].code.Finished? || s.frames[h].code.Destroyed?
    ensures ready[h] == 0 && run != Some(h) && forall w {:trigger Timer(w, h)} :: timers[Timer(w, h)] == 0
    ensures forall k: Handle :: Live(s, k) ==> s.frames[k].continuation != Some(h)
  {
    forall k: Handle | Live(s, k) ensures s.frames[k].continuation != Some(h) {
      assert FrameOk(s, run, k);
    }
  }

  /** What has happened to a frame is not undone or repeated: an end is final, and a destroyed frame is not destroyed
      again. */
  lemma {:induction false} EndIsFinal(s: Store, s': Store, h: Handle)
    requires Remembers(s, s')
    ensures Ended(s, h) ==> Ended(s', h) && EndOf(s', h) == EndOf(s, h)
    ensures h < |s.frames| && s.frames[h].code.Destroyed? ==> s'.frames[h] == s.frames[h]
  {
    if h < |s.frames| {
      assert Outlives(s.frames[h], s'.frames[h]);
    }
  }

  /** So it is over any advance. */
  lemma {:induction false} AdvanceDestroysOnce(sys: Sys<Store>, target: int, n: nat, end: Sys<Store>, h: Handle)
    requires AdvancesTo(Resume, sys, target, n, end) && Ended(sys.state, h)
    ensures Ended(end.state, h) && EndOf(end.state, h) == EndOf(sys.state, h)
    ensures sys.state.frames[h].code.Destroyed? ==> end.state.frames[h] == sys.state.frames[h]
  {
    AdvanceRemembers(sys, target, n, end);
    EndIsFinal(sys.state, end.state, h);
  }

  /** And over any stretch of `Run`, under any clock. */
  lemma {:induction false} RunDestroysOnce(sys: Sys<Store>, turns: seq<Turn>, h: Handle)
    requires RunFor(ResumeLate, sys, turns).Some? && Ended(sys.state, h)
    ensures var end := RunFor(ResumeLate, sys, turns).value;
      && Ended(end.state, h) && EndOf(end.state, h) == EndOf(sys.state, h)
      && (sys.state.frames[h].code.Destroyed? ==> end.state.frames[h] == sys.state.frames[h])
  {
    RunForRemembers(sys, turns);
    EndIsFinal(sys.state, RunFor(ResumeLate, sys, turns).value.state, h);
  }

  // ---- No lost wakeups ----

  ghost predicate Suspended(s: Store, h: Handle) {
    && Live(s, h) && !s.frames[h].code.Finished?
    && !(s.frames[h].code.Start? && s.frames[h].owner.Argument?)
  }

  /** `h` awaits a live unfinished task that will resume it. */
  ghost predicate AwaitsChild(s: Store, h: Handle) {
    exists c: Handle :: h < c < |s.frames| && HeldByAwaiter(s, h, c) && Live(s, c) && !s.frames[c].code.Finished?
      && s.frames[c].continuation == Some(h)
  }

  /** `h` awaits group `g`, which is open: child `i`'s wrapper has yet to report. */
  ghost predicate WaitsOn(s: Store, h: Handle, g: nat, i: nat) {
    && ParentWaits(s, g) && s.groups[g].parent == h && !Resolved(s.groups[g])
    && i < |s.groups[g].Children()| && h < s.groups[g].first + i < |s.frames|
    && IsWrapper(s.frames[s.groups[g].first + i].code, g, i)
  }

  ghost predicate AwaitsGroup(s: Store, h: Handle) {
    exists g, i :: WaitsOn(s, h, g, i)
  }

  /** In every reachable state, every started, unfinished frame that is not executing has exactly one thing that will
      resume it: an entry in the ready queue, an entry in the timer queue, a live child, or an open combinator; waiting
      edges lead to younger frames. */
  lemma {:induction false} OneWakeSource(s: Store, run: Option<Handle>, ready: multiset<Handle>,
                                         timers: multiset<Timer>, h: Handle)
    requires Inv(s, run, ready, timers) && Suspended(s, h) && run != Some(h)
    ensures var t := if s.frames[h].code.Sleeping? then timers[Timer(s.frames[h].code.when, h)] else 0;
      ready[h] + t + OneIf(AwaitsChild(s, h)) + OneIf(AwaitsGroup(s, h)) == 1
  {
    assert FrameOk(s, run, h);
    assert ready[h] == Wanted(s, run, timers, h);
    match s.frames[h].code
    case Awaiting(c, _) =>
      assert FrameOk(s, run, c) && HeldByAwaiter(s, h, c);
    case WrapAwaiting(c, _, _) =>
      assert FrameOk(s, run, c) && HeldByAwaiter(s, h, c);
    case InGroup(g, _) => OpenGroupHasChild(s, run, h, g);
    case _ =>
  }

  lemma {:induction false} OpenGroupHasChild(s: Store, run: Option<Handle>, h: Handle, g: nat)
    requires FramesOk(s, run) && GroupsOk(s) && h < |s.frames| && s.frames[h].code.InGroup?
             && s.frames[h].code.group == g
    ensures g < |s.groups| && (AwaitsGroup(s, h) <==> !Resolved(s.groups[g])) && !AwaitsChild(s, h)
  {
    assert FrameOk(s, run, h) && GroupOk(s, g);
    if !Resolved(s.groups[g]) {
      var group := s.groups[g];
      if group.Join? {
        MissingNone(group.slots);
        var i :| 0 <= i < |group.slots| && group.slots[i].None?;
        assert WrapperOk(s, g, i) && FrameOk(s, run, group.first + i);
        assert WaitsOn(s, h, g, i);
      } else {
        assert WrapperOk(s, g, 0);
        assert WaitsOn(s, h, g, 0);
      }
    }
  }

  // ---- A drained scheduler has nothing left ----

  lemma {:induction false} NobodyRunnable(s: Store, h: Handle)
    requires Inv(s, None, multiset{}, multiset{})
    ensures !Runnable(s, h)
  {
    assert multiset{}[h] == Wanted(s, None, multiset{}, h);
  }

  /** With nothing ready and no timers, no frame is suspended: waiting edges lead to ever younger frames. */
  lemma {:induction false} NothingSuspended(s: Store, h: Handle)
    requires Inv(s, None, multiset{}, multiset{}) && Live(s, h)
    ensures s.frames[h].code.Finished?
    decreases |s.frames| - h
  {
    assert FrameOk(s, None, h);
    if s.frames[h].code.Start? && s.frames[h].owner.Argument? {
      NobodyRunnable(s, s.frames[h].owner.wrapper);
    } else if !s.frames[h].code.Finished? {
      OneWakeSource(s, None, multiset{}, multiset{}, h);
      if AwaitsChild(s, h) {
        var c :| h < c < |s.frames| && HeldByAwaiter(s, h, c) && Live(s, c) && !s.frames[c].code.Finished?
          && s.frames[c].continuation == Some(h);
        NothingSuspended(s, c);
      } else {
        var g: nat, i: nat :| WaitsOn(s, h, g, i);
        NothingSuspended(s, s.groups[g].first + i);
      }
    }
  }

  /** When `Run` breaks, every task has finished, and every frame has been destroyed but those whose handle a caller
      (such as `Run` itself) still holds. */
  lemma {:induction false} DrainedMeansDone(s: Store, h: Handle)
    requires Inv(s, None, multiset{}, multiset{}) && h < |s.frames|
    ensures s.frames[h].code.Destroyed? || (s.frames[h].code.Finished? && s.frames[h].owner == Driver)
  {
    assert FrameOk(s, None, h);
    if !s.frames[h].code.Destroyed? {
      NothingSuspended(s, h);
      if s.frames[h].owner.Wrapped? {
        NothingSuspended(s, s.groups[s.frames[h].owner.group].parent);
      }
    }
  }

  /** A drained `EventLoop::Run`, whatever the clock did: both queues are empty, nothing faulted, every task is done. */
  lemma {:induction false} RunDrains(sys: Sys<Store>, turns: seq<Turn>, last: Turn)
    requires Good(false, sys) && ClockOk(ResumeLate, sys, turns) && RunFor(ResumeLate, sys, turns).Some?
    requires var end := RunFor(ResumeLate, sys, turns).value;
      end.now <= last.now && RunTurn(ResumeLate, end, last) == None
    ensures var end := RunFor(ResumeLate, sys, turns).value;
      && !end.state.fault
      && (!end.state.aborted ==> end.ready == [] && end.timers == [] && forall h :: 0 <= h < |end.state.frames| ==>
            end.state.frames[h].code.Destroyed?
            || (end.state.frames[h].code.Finished? && end.state.frames[h].owner == Driver))
  {
    RunForGood(sys, turns);
    var end := RunFor(ResumeLate, sys, turns).value;
    assert DrainExpired(end.(now := last.now)).ready == [];
    if !end.state.aborted {
      assert multiset(end.ready) == multiset{} && multiset(end.timers) == multiset{};
      forall h | 0 <= h < |end.state.frames|
        ensures end.state.frames[h].code.Destroyed?
                || (end.state.frames[h].code.Finished? && end.state.frames[h].owner == Driver)
      {
        DrainedMeansDone(end.state, h);
      }
    }
  }

  // ---- Exceptions and std::terminate ----

  /** Only a detached task that lets an exception escape its own body calls `std::terminate`: no combinator wrapper
      does, whatever its child throws.  For wrappers this is the catch-all around `WhenAnyChild`, which the machine
      has as the fact that `WrapperDone` records the child's outcome, exception or not, and then finishes normally. */
  lemma {:induction false} OnlyEscapesTerminate(s: Store, h: Handle, now: int, later: int, ready: multiset<Handle>,
                                                timers: multiset<Timer>)
    requires Inv(s, Some(h), ready, timers)
    ensures Step(s, h, now, later).store.aborted <==>
      s.frames[h].owner.Itself? && s.frames[h].code.Start? && s.frames[h].code.b.Throw?
  {
    StepSafe(s, h, now, later, ready, timers);
  }

  // ---- Meaning ----

  ghost predicate Ended(s: Store, h: Handle) {
    h < |s.frames| && s.frames[h].origin.Some? && (s.frames[h].code.Finished? || s.frames[h].code.Destroyed?)
  }

  /** How a task ended, and when. */
  ghost function EndOf(s: Store, h: Handle): Done
    requires Ended(s, h)
  {
    Done(s.frames[h].code.o, s.frames[h].since)
  }

  /** Every task that has ended, in any reachable state and whatever else shares the scheduler, ended as its
      direct-style meaning allows. */
  lemma {:induction false} EndsAsMeant(x: bool, sys: Sys<Store>, h: Handle)
    requires Good(x, sys) && !sys.state.aborted && Ended(sys.state, h)
    ensures OriginEnds(x, sys.state.frames[h].origin.value, EndOf(sys.state, h))
    ensures EndOf(sys.state, h).at <= sys.now
  {
    assert FrameTimed(x, sys.state, sys.now, h);
  }

  /** In any reachable state, under any clock: a task that began by awaiting an empty `Task<T>` and has ended, ended as
      its handler does from a `std::logic_error`; one that awaited an empty `Task<void>`, as what follows; one that
      raced nothing, as its handler does from a `std::invalid_argument`. */
  lemma {:induction false} AwaitingNothingEnds(x: bool, sys: Sys<Store>, h: Handle, next: Body, caught: Body)
    requires Good(x, sys) && !sys.state.aborted && Ended(sys.state, h)
    ensures var origin, d := sys.state.frames[h].origin.value, EndOf(sys.state, h);
      && (origin.body == AwaitEmpty(false, next, caught) ==>
            Ends(x, caught, origin.env + [Raised(LOGIC_ERROR)], origin.at, d))
      && (origin.body == AwaitEmpty(true, next, caught) ==> Ends(x, next, origin.env + [Value(Unit)], origin.at, d))
      && (origin.body == Any([], next, caught) ==>
            Ends(x, caught, origin.env + [Raised(INVALID_ARGUMENT)], origin.at, d))
      && (origin.body == All([], next, caught) ==> Ends(x, next, origin.env + [Value(Tuple([]))], origin.at, d))
  {
    EndsAsMeant(x, sys, h);
    var origin, d := sys.state.frames[h].origin.value, EndOf(sys.state, h);
    EmptyTaskEnds(x, next, caught, origin.env, origin.at, d);
    EmptyCombinatorEnds(x, next, caught, origin.env, origin.at, d);
  }

  /** A task without races delivers exactly what the direct-style evaluator computes: at exactly its time when time
      is virtual, and never before it under any clock. */
  lemma {:induction false} EndsAsEvaluated(x: bool, sys: Sys<Store>, h: Handle)
    requires Good(x, sys) && !sys.state.aborted && Ended(sys.state, h)
    requires RaceFree(sys.state.frames[h].origin.value.body)
    ensures var origin := sys.state.frames[h].origin.value;
      var d := Eval(origin.body, origin.env, origin.at);
      EndOf(sys.state, h).o == d.o && Reads(x, d.at, EndOf(sys.state, h).at)
  {
    EndsAsMeant(x, sys, h);
    var origin := sys.state.frames[h].origin.value;
    if x {
      EvalIsMeaning(origin.body, origin.env, origin.at, EndOf(sys.state, h));
    } else {
      EvalBoundsMeaning(origin.body, origin.env, origin.at, EndOf(sys.state, h));
    }
  }

  /** A steady task never ends before its duration has passed, under any clock. */
  lemma {:induction false} NeverEarly(x: bool, sys: Sys<Store>, h: Handle)
    requires Good(x, sys) && !sys.state.aborted && Ended(sys.state, h)
    requires Steady(sys.state.frames[h].origin.value.body)
    ensures var origin := sys.state.frames[h].origin.value;
      EndOf(sys.state, h).o.Value? && Reads(x, origin.at + Duration(origin.body), EndOf(sys.state, h).at)
  {
    EndsAsMeant(x, sys, h);
    var origin := sys.state.frames[h].origin.value;
    SteadyEnds(x, origin.body, origin.env, origin.at, EndOf(sys.state, h));
  }

  // ---- Virtual time ----

  /** Under `AdvanceTo`, a task has ended by the time the clock lands exactly if its meaning lets it end by then:
      a task still suspended may only end later. */
  lemma {:induction false} StillRunningEndsLater(sys: Sys<Store>, target: int, n: nat, end: Sys<Store>, h: Handle)
    returns (d: Done)
    requires Good(true, sys) && sys.now <= target && AdvancesTo(Resume, sys, target, n, end) && !end.state.aborted
    requires Unfinished(end.state, h)
    ensures OriginEnds(true, end.state.frames[h].origin.value, d) && target < d.at
  {
    AdvanceGood(true, sys, target, n, end);
    AdvanceLands(Resume, sys, target, n, end);
    QuietUntil(true, end, target + 1);
    d := MayEndLater(true, end.state, None, end.now, target + 1, h);
  }

  /** The cost law: a steady task created at virtual time `t` ends normally at exactly `t + Duration`, whatever
      other tasks share the scheduler.  An advance past that instant finds it ended then, an earlier one finds it
      still running. */
  lemma {:induction false} SteadyOnTime(sys: Sys<Store>, target: int, n: nat, end: Sys<Store>, h: Handle)
    requires Good(true, sys) && sys.now <= target && AdvancesTo(Resume, sys, target, n, end) && !end.state.aborted
    requires h < |end.state.frames| && end.state.frames[h].origin.Some? && Steady(end.state.frames[h].origin.value.body)
    ensures var origin := end.state.frames[h].origin.value;
      var due := origin.at + Duration(origin.body);
      if due <= target then Ended(end.state, h) && EndOf(end.state, h).o.Value? && EndOf(end.state, h).at == due
      else Unfinished(end.state, h)
  {
    AdvanceGood(true, sys, target, n, end);
    AdvanceLands(Resume, sys, target, n, end);
    var origin := end.state.frames[h].origin.value;
    if Unfinished(end.state, h) {
      var d := StillRunningEndsLater(sys, target, n, end, h);
      SteadyEnds(true, origin.body, origin.env, origin.at, d);
    } else {
      NeverEarly(true, end, h);
      EndsAsMeant(true, end, h);
    }
  }

  /** The same for tasks without races, values and exceptions included. */
  lemma {:induction false} EvaluatedOnTime(sys: Sys<Store>, target: int, n: nat, end: Sys<Store>, h: Handle)
    requires Good(true, sys) && sys.now <= target && AdvancesTo(Resume, sys, target, n, end) && !end.state.aborted
    requires h < |end.state.frames| && end.state.frames[h].origin.Some?
             && RaceFree(end.state.frames[h].origin.value.body)
    ensures var origin := end.state.frames[h].origin.value;
      var d := Eval(origin.body, origin.env, origin.at);
      if d.at <= target then Ended(end.state, h) && EndOf(end.state, h) == d else Unfinished(end.state, h)
  {
    AdvanceGood(true, sys, target, n, end);
    AdvanceLands(Resume, sys, target, n, end);
    var origin := end.state.frames[h].origin.value;
    if Unfinished(end.state, h) {
      var d := StillRunningEndsLater(sys, target, n, end, h);
      EvalIsMeaning(origin.body, origin.env, origin.at, d);
    } else {
      EndsAsEvaluated(true, end, h);
      EndsAsMeant(true, end, h);
    }
  }

  /** A complete `Run` under a manual clock: every task has ended, a steady one after exactly its duration, and one
      without races exactly as evaluated. */
  lemma {:induction false} RunEndsOnTime(sys: Sys<Store>, n: nat, end: Sys<Store>, h: Handle)
    requires Good(true, sys) && RunsOut(Resume, sys, n, end) && !end.state.aborted
    requires h < |end.state.frames| && end.state.frames[h].origin.Some?
    ensures var origin := end.state.frames[h].origin.value;
      && Ended(end.state, h)
      && (Steady(origin.body) ==>
            EndOf(end.state, h).o.Value? && EndOf(end.state, h).at == origin.at + Duration(origin.body))
      && (RaceFree(origin.body) ==> EndOf(end.state, h) == Eval(origin.body, origin.env, origin.at))
  {
    RunGood(true, sys, n, end);
    DrainedOnTime(end, h);
  }

  lemma {:induction false} DrainedOnTime(end: Sys<Store>, h: Handle)
    requires Good(true, end) && end.ready == [] && end.timers == [] && !end.state.aborted
    requires h < |end.state.frames| && end.state.frames[h].origin.Some?
    ensures var origin := end.state.frames[h].origin.value;
      && Ended(end.state, h)
      && (Steady(origin.body) ==>
            EndOf(end.state, h).o.Value? && EndOf(end.state, h).at == origin.at + Duration(origin.body))
      && (RaceFree(origin.body) ==> EndOf(end.state, h) == Eval(origin.body, origin.env, origin.at))
  {
    assert multiset(end.ready) == multiset{} && multiset(end.timers) == multiset{};
    DrainedMeansDone(end.state, h);
    var origin := end.state.frames[h].origin.value;
    if Steady(origin.body) {
      NeverEarly(true, end, h);
    }
    if RaceFree(origin.body) {
      EndsAsEvaluated(true, end, h);
    }
  }

  // ---- From launch to end ----

  /** Far enough ahead an advance exhausts all timers. */
  lemma {:induction false} FarEnough(sys: Sys<Store>) returns (target: int, n: nat, end: Sys<Store>)
    requires Good(true, sys)
    ensures sys.now <= target && AdvancesTo(Resume, sys, target, n, end) && end.timers == []
    decreases if sys.state.aborted then 0 else 1, Work(sys)
  {
    hide Good, Resume, Work;
    target := sys.now;
    n, end := AdvanceHalts(true, sys, target);
    AdvanceLands(Resume, sys, target, n, end);
    AdvanceGood(true, sys, target, n, end);
    if end.timers != [] {
      var mid, n1, next := end, n, FireFront(Resume, end);
      FireWorks(mid);
      AdvanceWorks(sys, target, n1, mid);
      target, n, end := FarEnough(next);
      n := n + 1;
      assert AdvancesTo(Resume, mid, target, n, end);
      AdvanceComposes(Resume, sys, sys.now, target, n1, mid, n, end);
      n := n1 + n;
    }
  }

  lemma {:induction false} FireWorks(sys: Sys<Store>)
    requires Good(true, sys) && sys.ready == [] && sys.timers != [] && sys.now <= sys.timers[0].when
    ensures var next := FireFront(Resume, sys);
      && Good(true, next) && ManualNext(Resume, sys, next.now) == Some(next) && next.now == sys.timers[0].when
      && (sys.state.aborted ==> next.state.aborted)
         && (sys.state.aborted == next.state.aborted ==> Work(next) < Work(sys))
  {
    ManualGood(true, sys, sys.timers[0].when);
  }

  lemma {:induction false} AdvanceWorks(sys: Sys<Store>, target: int, n: nat, end: Sys<Store>)
    requires Good(true, sys) && AdvancesTo(Resume, sys, target, n, end)
    ensures sys.state.aborted ==> end.state.aborted
    ensures sys.state.aborted == end.state.aborted ==> Work(end) <= Work(sys)
    decreases n
  {
    hide Good, Resume;
    if n > 0 {
      var next := ManualNext(Resume, sys, target).value;
      ManualGood(true, sys, target);
      AdvanceGood(true, next, target, n - 1, end);
      AdvanceWorks(next, target, n - 1, end);
    }
  }

  /** Even where the traces differ, both schedulers end every task without races alike, with the same value or
      exception at the same virtual time, and every steady task normally and at the same time. */
  lemma {:induction false} SchedulersDeliverTheSame(m: Sys<Store>, target: int, n: nat, end: Sys<Store>, n': nat,
                                                    end': Sys<Store>, h: Handle)
    requires Good(true, m) && m.now <= target && AdvancesTo(Resume, m, target, n, end) && end.timers == []
    requires RunsOut(Resume, m, n', end') && !end.state.aborted && !end'.state.aborted
    requires h < |m.state.frames| && m.state.frames[h].origin.Some?
    ensures Ended(end.state, h) && Ended(end'.state, h)
    ensures RaceFree(m.state.frames[h].origin.value.body) ==> EndOf(end.state, h) == EndOf(end'.state, h)
    ensures Steady(m.state.frames[h].origin.value.body) ==>
      EndOf(end.state, h).o.Value? && EndOf(end'.state, h).o.Value? && EndOf(end.state, h).at == EndOf(end'.state, h).at
  {
    AdvanceRemembers(m, target, n, end);
    RunRemembers(m, n', end');
    assert Outlives(m.state.frames[h], end.state.frames[h]) && Outlives(m.state.frames[h], end'.state.frames[h]);
    AdvanceGood(true, m, target, n, end);
    AdvanceLands(Resume, m, target, n, end);
    RunGood(true, m, n', end');
    DrainedOnTime(end, h);
    DrainedOnTime(end', h);
  }

  /** Frame `k` is held by a caller and created as `origin` says. */
  ghost predicate HeldByCaller(s: Store, k: Handle, origin: Origin) {
    k < |s.frames| && !s.frames[k].code.Destroyed? && s.frames[k].owner == Driver && s.frames[k].origin == Some(origin)
  }

  /** Nothing the coroutines do destroys a frame that a caller holds. */
  lemma {:induction false} StepLeavesCaller(s: Store, h: Handle, now: int, later: int, ready: multiset<Handle>,
                                            timers: multiset<Timer>, k: Handle, origin: Origin)
    requires Inv(s, Some(h), ready, timers) && HeldByCaller(s, k, origin)
    ensures HeldByCaller(Step(s, h, now, later).store, k, origin)
  {
    assert FrameOk(s, Some(h), h);
    match s.frames[h].code
    case Start(b) => StepBodyLeavesCaller(s, h, b, now, later, k, origin);
    case WrapAwaiting(c, g, i) =>
      assert FrameOk(s, Some(h), c) && GroupOk(s, g);
      WrapperDoneStore(s, h, c, g, i, now);
    case InGroup(g, b) =>
      assert GroupOk(s, g);
      GroupDoneStore(s, h, g, b);
      StepRemembers(s, h, now, later);
      assert Outlives(s.frames[k], Step(s, h, now, later).store.frames[k]);
    case _ =>
  }

  lemma {:induction false} StepBodyLeavesCaller(s: Store, h: Handle, b: Body, now: int, later: int, k: Handle,
                                                origin: Origin)
    requires h < |s.frames| && s.frames[h].code == Start(b) && HeldByCaller(s, k, origin)
    ensures HeldByCaller(StepBody(s, h, b, now, later).store, k, origin)
  {
  }

  lemma {:induction false} ExecLeavesCaller(s: Store, run: Option<Handle>, now: int, pace: Pace, fuel: nat,
                                            ready: multiset<Handle>, timers: multiset<Timer>, k: Handle, origin: Origin)
    requires Inv(s, run, ready, timers) && Mass(s.frames) <= fuel && HeldByCaller(s, k, origin)
    ensures HeldByCaller(Exec(s, run, now, pace, fuel).reaction.state, k, origin)
    decreases fuel
  {
    hide Step, Inv;
    if run.Some? {
      var h, t, t' := run.value, Begins(now, pace), Passes(now, pace);
      StepMass(s, h, t, t', ready, timers);
      StepSafe(s, h, t, t', ready, timers);
      StepLeavesCaller(s, h, t, t', ready, timers, k, origin);
      var m := Step(s, h, t, t');
      if !Escapes(s, h) {
        ExecLeavesCaller(m.store, m.run, t', Onward(pace), fuel - 1, ready + multiset(m.posts),
                         timers + multiset(m.sleeps), k, origin);
      }
    }
  }

  lemma {:induction false} IterationLeavesCaller(x: bool, sys: Sys<Store>, turn: Turn, k: Handle, origin: Origin)
    requires Good(x, sys) && sys.now <= turn.now && (x ==> turn.now == sys.now)
    requires RunTurn(ResumeLate, sys, turn).Some? && HeldByCaller(sys.state, k, origin)
    ensures HeldByCaller(RunTurn(ResumeLate, sys, turn).value.state, k, origin)
  {
    hide Exec, HeldByCaller, Inv, Timed, Due;
    TickGood(x, sys, turn.now);
    DrainGood(x, sys.(now := turn.now));
    var s := DrainExpired(sys.(now := turn.now));
    if s.ready != [] && !s.state.aborted {
      FrontIsSafe(x, s);
      ExecLeavesCaller(s.state, Some(s.ready[0]), s.now, turn.pace, Mass(s.state.frames), multiset(s.ready[1..]),
                       multiset(s.timers), k, origin);
    }
  }

  lemma {:induction false} FrontIsSafe(x: bool, sys: Sys<Store>)
    requires Good(x, sys) && sys.ready != [] && !sys.state.aborted
    ensures Inv(sys.state, Some(sys.ready[0]), multiset(sys.ready[1..]), multiset(sys.timers))
  {
    TakeFront(sys.ready);
    TakeReady(sys.state, sys.ready[0], multiset(sys.ready), multiset(sys.timers));
  }

  /** Launch a steady program among any others and advance: it ends at its launch time plus its duration. */
  lemma {:induction false} LaunchedOnTime(sys: Sys<Store>, b: Body, env: Env, detached: bool, target: int, n: nat,
                                          end: Sys<Store>)
    requires Good(true, sys) && sys.now <= target && Steady(b)
    requires AdvancesTo(Resume, Launched(sys, b, env, detached), target, n, end) && !end.state.aborted
    ensures var h := |sys.state.frames|;
      if sys.now + Duration(b) <= target
      then Ended(end.state, h) && EndOf(end.state, h).o.Value? && EndOf(end.state, h).at == sys.now + Duration(b)
      else Unfinished(end.state, h)
  {
    var sys1 := Launched(sys, b, env, detached);
    LaunchGood(true, sys, b, env, detached);
    AdvanceRemembers(sys1, target, n, end);
    assert Outlives(sys1.state.frames[|sys.state.frames|], end.state.frames[|sys.state.frames|]);
    SteadyOnTime(sys1, target, n, end, |sys.state.frames|);
  }

  // ---- The two schedulers ----

  lemma {:induction false} AsleepIsNotReady(x: bool, sys: Sys<Store>, t: Timer)
    requires Good(x, sys) && !sys.state.aborted && t in sys.timers
    ensures t.handle !in sys.ready
  {
    var ready, timers := multiset(sys.ready), multiset(sys.timers);
    assert timers[t] > 0;
    assert ready[t.handle] == Wanted(sys.state, None, timers, t.handle);
  }

  lemma {:induction false} ClashQueues<S>(p: Coroutines<S>, m: Sys<S>)
    requires Clash(p, m) && Sorted(m.timers)
    ensures FireFront(p, m).ready == WakeReaction(p, m).posts && m.timers[1] in FireFront(p, m).timers
  {
    InsertAllLaws(m.timers[1..], WakeReaction(p, m).sleeps);
    assert m.timers[1] == m.timers[1..][0];
    assert multiset(FireFront(p, m).timers)[m.timers[1]] > 0;
  }

  /** A closed program never posts a coroutine that is asleep. */
  lemma {:induction false} PostsAreNotAsleep(x: bool, m: Sys<Store>)
    requires Good(x, m) && Clash(Resume, m) && !FireFront(Resume, m).state.aborted
    ensures WakeReaction(Resume, m).posts[0] != m.timers[1].handle
  {
    hide Resume, Inv, Timed, Due, FireFront;
    FireGood(x, m);
    ClashQueues(Resume, m);
    AsleepIsNotReady(x, FireFront(Resume, m), m.timers[1]);
  }

  lemma {:induction false} ClosedProgramsAreHonest(x: bool, m: Sys<Store>, target: int, n: nat, end: Sys<Store>)
    requires Good(x, m) && AdvancesTo(Resume, m, target, n, end) && !end.state.aborted
    ensures Honest(Resume, m, target, n)
    decreases n
  {
    hide Good, Resume;
    if n > 0 {
      var next := ManualNext(Resume, m, target).value;
      ManualGood(x, m, target);
      AdvanceGood(x, next, target, n - 1, end);
      ClosedProgramsAreHonest(x, next, target, n - 1, end);
      if Clash(Resume, m) {
        PostsAreNotAsleep(x, m);
      }
    }
  }

  /** For closed programs, a complete `Run` under a manual clock and an advance that exhausts all timers agree on
      the trace if and only if no coroutine woken by a timer posts anything while another timer is due. */
  lemma {:induction false} SchedulersAgree(m: Sys<Store>, target: int, n: nat, end: Sys<Store>, n': nat,
                                           end': Sys<Store>)
    requires Good(true, m) && DueCount(m.timers, m.now) == 0 && m.now <= target
    requires AdvancesTo(Resume, m, target, n, end) && end.timers == [] && !end.state.aborted
    requires RunsOut(Resume, m, n', end')
    ensures end.trace == end'.trace <==> NoClash(Resume, m, target, n)
  {
    ClosedProgramsOnlySleep();
    ClosedProgramsAreHonest(true, m, target, n, end);
    DrainNothing(m);
    SameTraceIffNoClash(Resume, m, target, n, end, n', end');
  }
}
