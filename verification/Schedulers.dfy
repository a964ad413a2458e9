/** The schedulers as objects: a ready queue, a timer heap, the coroutines they drive, and their driving loops. */
module Schedulers {
  import opened Wrappers
  import opened Programs
  import opened Timers
  import opened TimerHeap
  import opened Clocks
  import opened Runtime
  import opened Safety
  import opened Execution
  import opened Scheduling
  import opened WholeRuns
  import opened SafetySteps
  import opened TimingSteps
  import opened FrameHeap
  import opened Cost
  import opened Guarantees
  import opened Equivalence

  /** The two containers of a scheduler and the coroutines behind the handles in them, with the history of the run. */
  class Queues {
    var ready: seq<Handle>
    const timers: TimerQueue
    const heap: CoroutineHeap
    ghost var trace: seq<Event>
    ghost var scheduled: seq<Timer>
    ghost var fired: seq<Timer>

    constructor ()
      ensures fresh(timers) && fresh(timers.entries) && fresh(heap) && timers.Valid()
      ensures forall now :: View(now) == Idle(now)
    {
      ready, trace, scheduled, fired := [], [], [], [];
      timers := new TimerQueue();
      heap := new CoroutineHeap();
    }

    ghost function View(now: int): Sys<Store>
      reads this, timers, heap
    {
      Sys(heap.State(), ready, timers.Contents(), now, trace, scheduled, fired)
    }

    method Post(h: Handle)
      modifies this`ready
      ensures ready == old(ready) + [h]
    {
      ready := ready + [h];
    }

    method ScheduleAt(when: int, h: Handle)
      requires timers.Valid()
      modifies timers, timers.entries, this`scheduled
      ensures timers.Valid() && (timers.entries == old(timers.entries) || fresh(timers.entries))
      ensures timers.Contents() == Insert(old(timers.Contents()), Timer(when, h))
      ensures scheduled == old(scheduled) + [Timer(when, h)]
    {
      timers.Schedule(when, h);
      scheduled := scheduled + [Timer(when, h)];
    }

    method ScheduleAll(xs: seq<Timer>)
      requires timers.Valid()
      modifies timers, timers.entries, this`scheduled
      ensures timers.Valid() && (timers.entries == old(timers.entries) || fresh(timers.entries))
      ensures timers.Contents() == InsertAll(old(timers.Contents()), xs) && scheduled == old(scheduled) + xs
    {
      hide Insert, InsertAll, TimerQueue.Valid, TimerQueue.Contents;
      var i := 0;
      InsertNothing(timers.Contents(), xs);
      while i < |xs|
        invariant 0 <= i <= |xs| && timers.Valid()
        invariant timers.entries == old(timers.entries) || fresh(timers.entries)
        invariant timers.Contents() == InsertAll(old(timers.Contents()), xs[..i])
                  && scheduled == old(scheduled) + xs[..i]
      {
        InsertOneMore(old(timers.Contents()), xs, i);
        assert xs[..i + 1] == xs[..i] + [xs[i]];
        ScheduleAt(xs[i].when, xs[i].handle);
        i := i + 1;
      }
      assert xs[..i] == xs;
    }

    static lemma {:induction false} InsertNothing(ts: seq<Timer>, xs: seq<Timer>)
      ensures xs[..0] == [] && InsertAll(ts, xs[..0]) == ts
    {
    }

    /** `handle.resume()`: the coroutine runs until it suspends, posting and scheduling on the way. */
    method ResumeHandle(h: Handle, clock: Clock)
      requires timers.Valid()
      requires !heap.aborted ==> Inv(heap.State(), Some(h), multiset(ready), multiset(timers.Contents()))
      modifies this, timers, timers.entries, heap, clock
      ensures timers.Valid() && (timers.entries == old(timers.entries) || fresh(timers.entries))
      ensures View(clock.now) == ResumedLate(ResumeLate, old(View(clock.now)), h, Pace(clock.drift, old(clock.calls)))
    {
      hide Inv, ResumeLate, Insert, InsertAll, TimerQueue.Valid, TimerQueue.Contents;
      trace := trace + [Event(h, clock.now)];
      heap.ResumeHandle(h, clock, multiset(ready), multiset(timers.Contents()));
      ready := ready + heap.posts;
      ScheduleAll(heap.sleeps);
    }

    /** Pops the front of the ready queue and resumes it. */
    method ServeOne(ghost x: bool, clock: Clock)
      requires timers.Valid() && Good(x, View(clock.now)) && ready != [] && (x ==> clock.Manual())
      modifies this, timers, timers.entries, heap, clock
      ensures timers.Valid() && (timers.entries == old(timers.entries) || fresh(timers.entries))
      ensures View(clock.now) == ServeLate(ResumeLate, old(View(clock.now)), Pace(clock.drift, old(clock.calls)))
      ensures Good(x, View(clock.now)) && old(clock.now) <= clock.now
      ensures clock.Manual() ==>
        View(clock.now) == ServeFront(Resume, old(View(clock.now))) && clock.now == old(clock.now)
    {
      hide Inv, ResumeLate, Resume, TimerQueue.Valid, TimerQueue.Contents;
      ghost var pace := Pace(clock.drift, clock.calls);
      ServeLateGood(x, View(clock.now), pace);
      FrontReady(x, View(clock.now));
      ManualServe(View(clock.now), clock, pace);
      hide Good;
      var h := ready[0];
      ready := ready[1..];
      ResumeHandle(h, clock);
    }

    static lemma {:induction false} FrontReady(x: bool, sys: Sys<Store>)
      requires Good(x, sys) && sys.ready != []
      ensures !sys.state.aborted ==> Inv(sys.state, Some(sys.ready[0]), multiset(sys.ready[1..]), multiset(sys.timers))
    {
      if !sys.state.aborted {
        FrontIsSafe(x, sys);
      }
    }

    static lemma {:induction false} ManualServe(sys: Sys<Store>, clock: Clock, pace: Pace)
      requires sys.ready != [] && pace.drift == clock.drift
      ensures clock.Manual() ==> ServeLate(ResumeLate, sys, pace) == ServeFront(Resume, sys)
    {
      if clock.Manual() {
        assert forall k: nat :: pace.drift(k) == clock.drift(k);
        ServedStill(sys, pace);
      }
    }

    /** Resumes a timer that `PopDue` has just popped, at the virtual time it moved to. */
    method FireOne(ghost x: bool, ghost before: Sys<Store>, t: Timer, clock: Clock)
      requires timers.Valid() && Good(x, before) && before.ready == [] && before.timers != [] && t == before.timers[0]
      requires clock.Manual() && clock.now == Max(before.now, t.when)
      requires View(clock.now) == before.(timers := before.timers[1..], now := clock.now)
      modifies this, timers, timers.entries, heap, clock
      ensures timers.Valid() && (timers.entries == old(timers.entries) || fresh(timers.entries))
      ensures View(clock.now) == FireFront(Resume, before) && Good(x, View(clock.now))
    {
      hide Resume, ResumeLate, TimerQueue.Valid, TimerQueue.Contents;
      FireGood(x, before);
      PoppedIsSafe(x, before);
      hide Inv, Good;
      fired := fired + [t];
      ghost var pace := Pace(clock.drift, clock.calls);
      assert forall k: nat :: pace.drift(k) == clock.drift(k);
      ResumedStill(View(clock.now), t.handle, pace);
      ResumeHandle(t.handle, clock);
    }

    static lemma {:induction false} PoppedIsSafe(x: bool, sys: Sys<Store>)
      requires Good(x, sys) && sys.ready == [] && sys.timers != []
      ensures !sys.state.aborted ==>
        Inv(sys.state, Some(sys.timers[0].handle), multiset(sys.ready), multiset(sys.timers[1..]))
    {
      TakeFront(sys.timers);
      if !sys.state.aborted {
        TakeTimer(sys.state, sys.timers[0], multiset(sys.ready), multiset(sys.timers));
      }
    }

    /** Calling a coroutine function and posting its handle, detached or not. */
    method Launch(b: Body, env: Env, detached: bool, now: int)
      modifies this`ready, heap
      ensures View(now) == Launched(old(View(now)), b, env, detached)
    {
      var h := heap.CreateTask(b, env, if detached then Itself else Driver, now);
      Post(h);
    }
  }

  // ---- Steps of a run, counted from its start ----

  /** The state after `k` resumptions of `AdvanceTo(target)`. */
  ghost function After(sys: Sys<Store>, target: int, k: nat): Option<Sys<Store>>
    decreases k
  {
    if k == 0 then Some(sys)
    else
      match ManualNext(Resume, sys, target)
      case None => None
      case Some(next) => After(next, target, k - 1)
  }

  lemma {:induction false} OneMore(sys: Sys<Store>, target: int, k: nat, v: Sys<Store>)
    requires After(sys, target, k) == Some(v) && ManualNext(Resume, v, target).Some?
    ensures After(sys, target, k + 1) == ManualNext(Resume, v, target)
    decreases k
  {
    hide Resume;
    if k > 0 {
      OneMore(ManualNext(Resume, sys, target).value, target, k - 1, v);
    }
  }

  /** A drain is a stretch of the advance. */
  lemma {:induction false} DrainIsStretch(sys: Sys<Store>, target: int, k: nat, v: Sys<Store>, n: nat, end: Sys<Store>)
    requires After(sys, target, k) == Some(v) && DrainsTo(Resume, v, n, end)
    ensures After(sys, target, k + n) == Some(end)
    decreases n
  {
    hide Resume;
    if n > 0 {
      OneMore(sys, target, k, v);
      DrainIsStretch(sys, target, k + 1, ServeFront(Resume, v), n - 1, end);
    }
  }

  lemma {:induction false} AdvanceIsOver(sys: Sys<Store>, target: int, k: nat, v: Sys<Store>)
    requires After(sys, target, k) == Some(v) && ManualNext(Resume, v, target) == None
    ensures AdvancesTo(Resume, sys, target, k, v.(now := Max(v.now, target)))
    decreases k
  {
    hide Resume;
    if k > 0 {
      AdvanceIsOver(ManualNext(Resume, sys, target).value, target, k - 1, v);
    }
  }

  lemma {:induction false} DrainOneMore(sys: Sys<Store>, n: nat, v: Sys<Store>)
    requires Drained(sys, n) == Some(v) && v.ready != []
    ensures Drained(sys, n + 1) == Some(ServeFront(Resume, v))
    decreases n
  {
    hide Resume;
    if n > 0 {
      DrainOneMore(ServeFront(Resume, sys), n - 1, v);
    }
  }

  /** The state after `n` resumptions of the ready queue. */
  ghost function Drained(sys: Sys<Store>, n: nat): Option<Sys<Store>>
    decreases n
  {
    if n == 0 then Some(sys)
    else if sys.ready == [] then None
    else Drained(ServeFront(Resume, sys), n - 1)
  }

  lemma {:induction false} DrainIsOver(sys: Sys<Store>, n: nat, v: Sys<Store>)
    requires Drained(sys, n) == Some(v) && v.ready == []
    ensures DrainsTo(Resume, sys, n, v)
    decreases n
  {
    hide Resume;
    if n > 0 {
      DrainIsOver(ServeFront(Resume, sys), n - 1, v);
    }
  }

  /** Fewer steps are left, or the program has terminated. */
  ghost predicate Shrinks(sys: Sys<Store>, sys': Sys<Store>) {
    if sys'.state.aborted == sys.state.aborted then Work(sys') < Work(sys) else sys'.state.aborted
  }

  lemma {:induction false} ServeShrinks(x: bool, sys: Sys<Store>)
    requires Good(x, sys) && sys.ready != []
    ensures Good(x, ServeFront(Resume, sys)) && Shrinks(sys, ServeFront(Resume, sys))
  {
    ServeGood(x, sys);
  }

  lemma {:induction false} DrainEnds(x: bool, sys: Sys<Store>, n: nat, end: Sys<Store>)
    requires Good(x, sys) && DrainsTo(Resume, sys, n, end)
    ensures end.ready == [] && Good(x, end)
    ensures if end.state.aborted == sys.state.aborted then Work(end) <= Work(sys) else end.state.aborted
    decreases n
  {
    hide Good, Resume, Work, ServeFront;
    if n > 0 {
      ServeShrinks(x, sys);
      DrainEnds(x, ServeFront(Resume, sys), n - 1, end);
    }
  }

  lemma {:induction false} FireShrinks(x: bool, sys: Sys<Store>)
    requires Good(x, sys) && sys.ready == [] && sys.timers != []
    ensures Good(x, FireFront(Resume, sys)) && Shrinks(sys, FireFront(Resume, sys))
  {
    FireGood(x, sys);
  }

  /** The virtual-time scheduler; its clock moves only when it says so. */
  class ManualScheduler {
    const queues: Queues
    const clock: Clock

    ghost function View(): Sys<Store>
      reads this, queues, queues.timers, queues.heap, clock
    {
      queues.View(clock.now)
    }

    ghost predicate Valid()
      reads this, queues, queues.timers, queues.timers.entries, queues.heap, clock
    {
      queues.timers.Valid() && Good(true, View()) && clock.Manual()
    }

    constructor ()
      ensures Valid() && View() == Idle(0) && fresh(queues) && fresh(clock)
      ensures fresh(queues.timers) && fresh(queues.timers.entries) && fresh(queues.heap)
    {
      queues := new Queues();
      clock := new Clock(NoDrift);
      new;
      IdleGood(true, 0);
    }

    /** `DrainReady`: resumes what is ready, and whatever that posts, until nothing is. */
    method DrainReady() returns (resumed: nat)
      requires Valid()
      modifies queues, queues.timers, queues.timers.entries, queues.heap, clock
      ensures Valid() && (queues.timers.entries == old(queues.timers.entries) || fresh(queues.timers.entries))
      ensures DrainsTo(Resume, old(View()), resumed, View())
    {
      hide Good, Resume, ResumeLate, ServeFront, ServeLate, Work, DrainsTo, TimerQueue.Valid, TimerQueue.Contents;
      resumed := 0;
      while |queues.ready| > 0
        invariant Valid() && (queues.timers.entries == old(queues.timers.entries) || fresh(queues.timers.entries))
        invariant Drained(old(View()), resumed) == Some(View())
        decreases if queues.heap.aborted then 0 else 1, Work(View())
      {
        ghost var v := View();
        ServeShrinks(true, v);
        queues.ServeOne(true, clock);
        DrainOneMore(old(View()), resumed, v);
        resumed := resumed + 1;
      }
      DrainIsOver(old(View()), resumed, View());
    }

    method Launch(b: Body, env: Env, detached: bool)
      requires Valid()
      modifies queues, queues.heap
      ensures Valid() && View() == Launched(old(View()), b, env, detached)
    {
      hide TimerQueue.Valid, TimerQueue.Contents, Good;
      LaunchGood(true, View(), b, env, detached);
      queues.Launch(b, env, detached, clock.now);
    }

    /** `sys` is `v` after `PopDue(target)` returned `due`. */
    static ghost predicate Popped(v: Sys<Store>, target: int, due: Option<Timer>, sys: Sys<Store>) {
      if v.timers != [] && v.timers[0].when <= target then due == Some(v.timers[0])
        && sys == v.(timers := v.timers[1..])
      else due == None && sys == v
    }

    /** A timer popped from `v` is resumed at its own deadline, then the ready queue is drained. */
    method FireAndDrain(t: Timer, target: int, ghost start: Sys<Store>, ghost k: nat, ghost v: Sys<Store>)
      returns (resumed: nat)
      requires queues.timers.Valid() && clock.Manual()
      requires Good(true, v) && v.ready == [] && After(start, target, k) == Some(v)
      requires Popped(v, target, Some(t), View())
      modifies queues, queues.timers, queues.timers.entries, queues.heap, clock
      ensures Valid() && (queues.timers.entries == old(queues.timers.entries) || fresh(queues.timers.entries))
      ensures View().ready == [] && After(start, target, k + resumed) == Some(View()) && Shrinks(v, View())
    {
      hide Good, Resume, ServeFront, FireFront, Work, DrainsTo, TimerQueue.Valid, TimerQueue.Contents;
      clock.JumpTo(t.when);
      FireShrinks(true, v);
      queues.FireOne(true, v, t, clock);
      OneMore(start, target, k, v);
      ghost var fired := View();
      var more := DrainReady();
      DrainIsStretch(start, target, k + 1, fired, more, View());
      DrainEnds(true, fired, more, View());
      resumed := 1 + more;
    }

    /** The firing loop of `AdvanceTo`. */
    method FireUpTo(target: int, ghost start: Sys<Store>, ghost k: nat) returns (resumed: nat)
      requires Valid() && queues.ready == [] && After(start, target, k) == Some(View())
      modifies queues, queues.timers, queues.timers.entries, queues.heap, clock
      ensures Valid() && (queues.timers.entries == old(queues.timers.entries) || fresh(queues.timers.entries))
      ensures After(start, target, k + resumed) == Some(View()) && ManualNext(Resume, View(), target) == None
    {
      hide Good, Resume, ServeFront, FireFront, Work, DrainsTo, After, TimerQueue.Valid, TimerQueue.Contents;
      ghost var v := View();
      resumed := 0;
      var due := queues.timers.PopDue(target);
      while due.Some?
        invariant queues.timers.Valid() && clock.Manual()
        invariant queues.timers.entries == old(queues.timers.entries) || fresh(queues.timers.entries)
        invariant Good(true, v) && v.ready == [] && After(start, target, k + resumed) == Some(v)
        invariant Popped(v, target, due, View())
        decreases if v.state.aborted then 0 else 1, Work(v)
      {
        var more := FireAndDrain(due.value, target, start, k + resumed, v);
        resumed, v := resumed + more, View();
        due := queues.timers.PopDue(target);
      }
    }

    /** `AdvanceTo`: drains, fires every timer up to `target` at its own deadline, draining after each, and lands on
        `target`; returns the number of resumptions. */
    method AdvanceTo(target: int) returns (resumed: nat)
      requires Valid()
      modifies queues, queues.timers, queues.timers.entries, queues.heap, clock
      ensures Valid() && (queues.timers.entries == old(queues.timers.entries) || fresh(queues.timers.entries))
      ensures AdvancesTo(Resume, old(View()), target, resumed, View())
    {
      hide Good, Resume, After, DrainsTo, TimerQueue.Valid, TimerQueue.Contents;
      ghost var start := View();
      resumed := DrainReady();
      FirstDrain(start, target, resumed, View());
      var fired := FireUpTo(target, start, resumed);
      resumed := resumed + fired;
      AdvanceIsOver(start, target, resumed, View());
      TickGood(true, View(), Max(clock.now, target));
      clock.JumpTo(target);
    }

    method AdvanceBy(delta: int) returns (resumed: nat)
      requires Valid()
      modifies queues, queues.timers, queues.timers.entries, queues.heap, clock
      ensures Valid() && (queues.timers.entries == old(queues.timers.entries) || fresh(queues.timers.entries))
      ensures AdvancesBy(Resume, old(View()), delta, resumed, View())
    {
      hide Good, Resume, AdvancesTo, TimerQueue.Valid, TimerQueue.Contents;
      resumed := AdvanceTo(clock.now + delta);
    }

    /** Drains what is ready or due without moving time. */
    method RunUntilIdle() returns (resumed: nat)
      requires Valid()
      modifies queues, queues.timers, queues.timers.entries, queues.heap, clock
      ensures Valid() && (queues.timers.entries == old(queues.timers.entries) || fresh(queues.timers.entries))
      ensures AdvancesBy(Resume, old(View()), 0, resumed, View()) && clock.now == old(clock.now)
    {
      hide Good, Resume, TimerQueue.Valid, TimerQueue.Contents;
      ghost var start := View();
      resumed := AdvanceTo(clock.now);
      AdvanceLands(Resume, start, start.now, resumed, View());
    }
  }

  lemma {:induction false} FirstDrain(start: Sys<Store>, target: int, n: nat, end: Sys<Store>)
    requires Good(true, start) && DrainsTo(Resume, start, n, end)
    ensures After(start, target, n) == Some(end) && end.ready == []
  {
    hide Good, Resume;
    DrainIsStretch(start, target, 0, start, n, end);
    DrainEnds(true, start, n, end);
  }

  // ---- Runs of the event loop, counted from their start ----

  /** What a run of the loop has come to: `v` after the iterations `turns`, without drift if time is exact. */
  ghost predicate Ran(x: bool, start: Sys<Store>, turns: seq<Turn>, v: Sys<Store>) {
    && ClockOk(ResumeLate, start, turns) && RunFor(ResumeLate, start, turns) == Some(v)
    && (x ==> Undrifting(ResumeLate, start, turns))
  }

  lemma {:induction false} OneMoreIteration(x: bool, sys: Sys<Store>, turns: seq<Turn>, v: Sys<Store>, turn: Turn)
    requires Ran(x, sys, turns, v) && v.now <= turn.now && RunTurn(ResumeLate, v, turn).Some?
    requires x ==> turn.now == v.now && Standing(turn.pace)
    ensures Ran(x, sys, turns + [turn], RunTurn(ResumeLate, v, turn).value)
    decreases |turns|
  {
    hide ResumeLate, RunTurn;
    if turns == [] {
      assert turns + [turn] == [turn] && [turn][1..] == [];
      var next := RunTurn(ResumeLate, v, turn).value;
      assert RunFor(ResumeLate, next, []) == Some(next);
      assert RunFor(ResumeLate, sys, [turn]) == Some(next);
      assert ClockOk(ResumeLate, sys, [turn]);
      assert x ==> Undrifting(ResumeLate, sys, [turn]);
    } else {
      assert (turns + [turn])[1..] == turns[1..] + [turn] && (turns + [turn])[0] == turns[0];
      OneMoreIteration(x, RunTurn(ResumeLate, sys, turns[0]).value, turns[1..], v, turn);
    }
  }

  /** The root frame is destroyed once the loop has drained. */
  function Reclaimed(sys: Sys<Store>, root: Handle): Sys<Store>
    requires IsFinished(sys.state, root)
  {
    sys.(state := Destroy(sys.state, root))
  }

  lemma {:induction false} ReclaimGood(x: bool, sys: Sys<Store>, root: Handle)
    requires Good(x, sys) && !sys.state.aborted && IsFinished(sys.state, root) && sys.state.frames[root].owner == Driver
    ensures Good(x, Reclaimed(sys, root))
  {
    DestroyTimed(x, sys.state, sys.now, root);
    ReclaimSafe(sys.state, root, multiset(sys.ready), multiset(sys.timers));
  }

  lemma {:induction false} ReclaimSafe(s: Store, root: Handle, ready: multiset<Handle>, timers: multiset<Timer>)
    requires Inv(s, None, ready, timers) && IsFinished(s, root) && s.frames[root].owner == Driver
    ensures Inv(Destroy(s, root), None, ready, timers)
  {
    hide ReadyOk, TimersOk, GroupOk, FrameOk, Destroy;
    var s' := Destroy(s, root);
    ReclaimedQueues(s, root, ready, timers);
    forall k | 0 <= k < |s'.frames| ensures FrameOk(s', None, k) {
      assert FrameOk(s, None, k) && FrameOk(s, None, root);
      ReclaimedFrame(s, root, k);
    }
    forall g | 0 <= g < |s'.groups| ensures GroupOk(s', g) {
      assert GroupOk(s, g);
      ReclaimedGroup(s, root, g);
    }
  }

  lemma {:induction false} ReclaimedFrame(s: Store, root: Handle, k: Handle)
    requires IsFinished(s, root) && s.frames[root].owner == Driver && FrameOk(s, None, root)
    requires k < |s.frames| && FrameOk(s, None, k)
    ensures FrameOk(Destroy(s, root), None, k)
  {
    ReclaimedCode(s, root, k);
    ReclaimedOwner(s, root, k);
    hide CodeOk, OwnerOk;
  }

  lemma {:induction false} ReclaimedCode(s: Store, root: Handle, k: Handle)
    requires IsFinished(s, root) && s.frames[root].owner == Driver
    requires k < |s.frames| && CodeOk(s, None, k)
    ensures CodeOk(Destroy(s, root), None, k)
  {
  }

  lemma {:induction false} ReclaimedOwner(s: Store, root: Handle, k: Handle)
    requires IsFinished(s, root) && s.frames[root].owner == Driver && k < |s.frames|
    requires !s.frames[k].code.Destroyed? ==> OwnerOk(s, k)
    ensures !Destroy(s, root).frames[k].code.Destroyed? ==> OwnerOk(Destroy(s, root), k)
  {
  }

  lemma {:induction false} ReclaimedGroup(s: Store, root: Handle, g: nat)
    requires IsFinished(s, root) && s.frames[root].owner == Driver && g < |s.groups| && GroupOk(s, g)
    ensures GroupOk(Destroy(s, root), g)
  {
    GroupStays(s, Destroy(s, root), g);
  }

  lemma {:induction false} ReclaimedQueues(s: Store, root: Handle, ready: multiset<Handle>, timers: multiset<Timer>)
    requires IsFinished(s, root) && ReadyOk(s, None, ready, timers) && TimersOk(s, None, timers)
    ensures ReadyOk(Destroy(s, root), None, ready, timers) && TimersOk(Destroy(s, root), None, timers)
    ensures |Destroy(s, root).frames| == |s.frames| && Destroy(s, root).groups == s.groups
    ensures Destroy(s, root).fault == s.fault && Destroy(s, root).aborted == s.aborted
  {
    var s' := Destroy(s, root);
    forall h: Handle ensures ready[h] == Wanted(s', None, timers, h) {
      assert ready[h] == Wanted(s, None, timers, h);
    }
  }

  /** What is left to do in `Run`: twice the steps, plus one if the loop will wait first. */
  ghost function LeftToRun(sys: Sys<Store>): nat {
    2 * Work(sys) + Waits(sys)
  }

  /** An iteration leaves less to do, or the program has terminated. */
  lemma {:induction false} IterationShrinks(x: bool, sys: Sys<Store>, turn: Turn)
    requires Good(x, sys) && !sys.state.aborted && sys.now <= turn.now && RunTurn(ResumeLate, sys, turn).Some?
    requires x ==> sys.now == turn.now && Standing(turn.pace)
    ensures var next := RunTurn(ResumeLate, sys, turn).value;
      Good(x, next) && (next.state.aborted || LeftToRun(next) < LeftToRun(sys))
  {
    hide Good, Mass, RunTurn, DrainExpired;
    RunTurnGood(x, sys, turn);
    WaitsLess(sys, turn.now);
    var next := RunTurn(ResumeLate, sys, turn).value;
    if Waits(sys.(now := turn.now)) == 1 {
      DueDoesNotWait(next);
    }
  }

  lemma {:induction false} WaitsLess(sys: Sys<Store>, r: int)
    requires sys.now <= r
    ensures Waits(sys.(now := r)) <= Waits(sys)
  {
    var k, k' := DueCount(sys.timers, sys.now), DueCount(sys.timers, r);
    if k > 0 {
      assert |HandlesOf(sys.timers[..k'])| > 0;
    } else {
      assert HandlesOf(sys.timers[..k]) == [];
    }
  }

  /** Both queues are empty and every frame has been destroyed, `root` and detached ones included, except frames
      that other callers hold, which have finished. */
  ghost predicate AllReclaimed(sys: Sys<Store>, root: Handle) {
    && sys.ready == [] && sys.timers == [] && !sys.state.fault
    && root < |sys.state.frames| && sys.state.frames[root].code.Destroyed?
    && forall h :: 0 <= h < |sys.state.frames| ==>
      sys.state.frames[h].code.Destroyed? || (sys.state.frames[h].code.Finished? && sys.state.frames[h].owner == Driver)
  }

  /** The production loop. */
  class EventLoop {
    const queues: Queues
    const clock: Clock
    ghost const exact: bool

    ghost function View(): Sys<Store>
      reads this, queues, queues.timers, queues.heap, clock
    {
      queues.View(clock.now)
    }

    /** Time is counted exactly only if the clock is a manual one. */
    ghost predicate Valid()
      reads this, queues, queues.timers, queues.timers.entries, queues.heap, clock
    {
      queues.timers.Valid() && Good(exact, View()) && (exact ==> clock.Manual())
    }

    constructor (clock: Clock, ghost exact: bool)
      requires exact ==> clock.Manual()
      ensures this.clock == clock && this.exact == exact && fresh(queues)
      ensures fresh(queues.timers) && fresh(queues.timers.entries) && fresh(queues.heap)
      ensures Valid() && View() == Idle(clock.now)
    {
      this.clock, this.exact := clock, exact;
      queues := new Queues();
      new;
      IdleGood(exact, clock.now);
    }

    /** Posts a task: detached, as `Post(Task<void>&&)` does, or still held by the caller. */
    method Launch(b: Body, env: Env, detached: bool)
      requires Valid()
      modifies queues, queues.heap
      ensures Valid() && View() == Launched(old(View()), b, env, detached)
    {
      hide TimerQueue.Valid, TimerQueue.Contents, Good;
      LaunchGood(exact, View(), b, env, detached);
      queues.Launch(b, env, detached, clock.now);
    }

    /** Moves every timer that is due at one reading of the clock to the ready queue. */
    method DrainExpiredTimers()
      requires Valid()
      modifies queues, queues.timers, queues.timers.entries, clock
      ensures Valid() && (queues.timers.entries == old(queues.timers.entries) || fresh(queues.timers.entries))
      ensures old(clock.now) <= clock.now && (exact ==> clock.now == old(clock.now))
      ensures View() == DrainExpired(old(View()).(now := clock.now))
    {
      hide Good, DrainExpired, TimerQueue.Valid, TimerQueue.Contents;
      var now := clock.Now();
      TickGood(exact, old(View()), now);
      ghost var v := View();
      var due := queues.timers.PopDue(now);
      while due.Some?
        invariant queues.timers.Valid()
                  && (queues.timers.entries == old(queues.timers.entries) || fresh(queues.timers.entries))
        invariant Good(exact, v) && v.now == now == clock.now
                  && DrainExpired(v) == DrainExpired(old(View()).(now := now))
        invariant ManualScheduler.Popped(v, now, due, View())
        decreases |v.timers|
      {
        DrainStep(v);
        DrainOneGood(exact, v);
        queues.Post(due.value.handle);
        queues.fired := queues.fired + [due.value];
        v := View();
        due := queues.timers.PopDue(now);
      }
      DrainedAlready(v);
    }

    static lemma {:induction false} DrainedAlready(v: Sys<Store>)
      requires v.timers != [] ==> v.now < v.timers[0].when
      ensures DrainExpired(v) == v
    {
      assert v.ready + HandlesOf(v.timers[..0]) == v.ready;
      assert v.fired + v.timers[..0] == v.fired;
    }

    /** `RunOnce`: resumes what is ready or due now, once. */
    method RunOnce() returns (any: bool, ghost reading: int, ghost paces: seq<Pace>)
      requires Valid()
      modifies queues, queues.timers, queues.timers.entries, queues.heap, clock
      ensures Valid() && (queues.timers.entries == old(queues.timers.entries) || fresh(queues.timers.entries))
      ensures old(clock.now) <= reading <= clock.now && (exact ==> clock.now == old(clock.now))
      ensures var s := DrainExpired(old(View()).(now := reading));
        |paces| == |s.ready| && View() == Serve(ResumeLate, s, paces) && (any <==> s.ready != [])
    {
      hide Good, ResumeLate, Resume, DrainExpired, ServeFront, TimerQueue.Valid, TimerQueue.Contents;
      DrainExpiredTimers();
      reading, paces := clock.now, [];
      ghost var s := View();
      var drainCount := |queues.ready|;
      var i := 0;
      while i < drainCount
        invariant 0 <= i <= drainCount == |s.ready| && |paces| == i
        invariant Valid() && (queues.timers.entries == old(queues.timers.entries) || fresh(queues.timers.entries))
        invariant View() == Serve(ResumeLate, s, paces) && reading <= clock.now && (exact ==> clock.now == reading)
      {
        ghost var pace := Pace(clock.drift, clock.calls);
        ServeMore(ResumeLate, s, paces, pace);
        queues.ServeOne(exact, clock);
        i, paces := i + 1, paces + [pace];
      }
      any := drainCount > 0;
    }

    /** One iteration of the loop of `Run`, as `turn` says: resumes a handle or waits; `over` when nothing is left. */
    method Iterate() returns (over: bool, ghost turn: Turn)
      requires Valid() && !queues.heap.aborted
      modifies queues, queues.timers, queues.timers.entries, queues.heap, clock
      ensures Valid() && (queues.timers.entries == old(queues.timers.entries) || fresh(queues.timers.entries))
      ensures old(clock.now) <= turn.now <= clock.now && (exact ==> turn.now == old(clock.now) && Standing(turn.pace))
      ensures match RunTurn(ResumeLate, old(View()), turn)
              case None => over && View() == old(View()).(now := turn.now)
              case Some(next) => !over && next.now <= clock.now && (exact ==> next.now == clock.now)
                                 && View() == next.(now := clock.now)
    {
      hide Good, ResumeLate, Resume, DrainExpired, ServeFront, TimerQueue.Valid, TimerQueue.Contents;
      DrainExpiredTimers();
      turn := Turn(clock.now, Pace(clock.drift, clock.calls));
      Unmoved(clock, turn.pace);
      TurnIs(old(View()), turn);
      if |queues.ready| > 0 {
        queues.ServeOne(exact, clock);
        return false, turn;
      }
      match queues.timers.NextDeadline() {
        case None =>
          return true, turn;
        case Some(deadline) =>
          ghost var s := View();
          clock.WaitUntil(deadline);
          TickGood(exact, s, clock.now);
          return false, turn;
      }
    }

    static lemma {:induction false} Unmoved(clock: Clock, pace: Pace)
      requires pace.drift == clock.drift
      ensures clock.Manual() ==> Standing(pace)
    {
      if clock.Manual() {
        assert forall k: nat :: pace.drift(k) == clock.drift(k);
      }
    }

    static lemma {:induction false} TurnIs(sys: Sys<Store>, turn: Turn)
      ensures var s := DrainExpired(sys.(now := turn.now));
        && (s.ready != [] ==> RunTurn(ResumeLate, sys, turn) == Some(ServeLate(ResumeLate, s, turn.pace)))
        && (s.ready == [] ==> s == sys.(now := turn.now))
        && (s.ready == [] && s.timers != [] ==>
              RunTurn(ResumeLate, sys, turn) == Some(s.(now := Max(s.now, s.timers[0].when))))
        && (s.ready == [] && s.timers == [] ==> RunTurn(ResumeLate, sys, turn) == None)
    {
      hide ResumeLate, DrainExpired, ServeLate;
      DrainEmpty(sys.(now := turn.now));
    }

    /** What the loop of `Run` knows after `turns` since `start`; `v` is the state that the last iteration left, before
        the clock moved on. */
    ghost predicate Running(start: Sys<Store>, turns: seq<Turn>, v: Sys<Store>, root: Handle, origin: Origin)
      reads this, queues, queues.timers, queues.heap, clock
    {
      && Ran(exact, start, turns, v)
      && v.now <= clock.now && (exact ==> v.now == clock.now) && View() == v.(now := clock.now)
      && (!v.state.aborted ==> HeldByCaller(v.state, root, origin))
    }

    /** One more iteration, and what it leaves to do. */
    static lemma {:induction false} Iterated(x: bool, start: Sys<Store>, turns: seq<Turn>, v: Sys<Store>,
                                             before: Sys<Store>, turn: Turn, root: Handle, origin: Origin)
      requires Ran(x, start, turns, v)
      requires before == v.(now := before.now) && v.now <= before.now <= turn.now
      requires x ==> turn.now == v.now && Standing(turn.pace)
      requires Good(x, before) && !before.state.aborted && HeldByCaller(before.state, root, origin)
      requires RunTurn(ResumeLate, before, turn).Some?
      ensures var next := RunTurn(ResumeLate, before, turn).value;
        && Ran(x, start, turns + [turn], next)
        && (next.state.aborted || LeftToRun(next) < LeftToRun(before)) && HeldByCaller(next.state, root, origin)
    {
      hide Good, ResumeLate, LeftToRun, HeldByCaller, DrainExpired, ServeLate;
      assert before.(now := turn.now) == v.(now := turn.now);
      hide RunTurn;
      SameTurn(before, v, turn);
      OneMoreIteration(x, start, turns, v, turn);
      IterationShrinks(x, before, turn);
      IterationLeavesCaller(x, before, turn, root, origin);
    }

    static lemma {:induction false} SameTurn(a: Sys<Store>, b: Sys<Store>, turn: Turn)
      requires a.(now := turn.now) == b.(now := turn.now)
      ensures RunTurn(ResumeLate, a, turn) == RunTurn(ResumeLate, b, turn)
    {
    }

    /** `Run`: posts the root, drives the loop until nothing is ready and no timer is left, destroys the root frame and
        hands back how the root ended (the caller rethrows an exception); `None` if the program terminated.  Under a
        manual clock the iterations are a run of the abstract loop. */
    method Run(b: Body, env: Env) returns (o: Option<Outcome>, ghost turns: seq<Turn>)
      requires Valid() && !queues.heap.aborted
      modifies queues, queues.timers, queues.timers.entries, queues.heap, clock
      ensures Valid() && (o == None <==> queues.heap.aborted)
      ensures queues.timers.entries == old(queues.timers.entries) || fresh(queues.timers.entries)
      ensures var start := Launched(old(View()), b, env, false);
        ClockOk(ResumeLate, start, turns) && RunFor(ResumeLate, start, turns).Some?
      ensures o.Some? ==>
        var start, root := Launched(old(View()), b, env, false), |old(queues.heap.frames)|;
        var end := RunFor(ResumeLate, start, turns).value.(now := clock.now);
        && RunNext(Resume, end) == None && Ended(end.state, root) && o == Some(EndOf(end.state, root).o)
        && IsFinished(end.state, root) && View() == Reclaimed(end, root)
        && (exact ==> RunsOut(Resume, start, |turns|, end))
      ensures o.Some? ==> AllReclaimed(View(), |old(queues.heap.frames)|)
      ensures o.Some? && RaceFree(b) ==> o.value == Eval(b, env, old(clock.now)).o
    {
      hide Good, ResumeLate, Resume, Ran, RunFor, ClockOk, RunTurn, RunNext, RunsOut, HeldByCaller, LeftToRun, Waits,
        TimerQueue.Valid, TimerQueue.Contents;
      var root := |queues.heap.frames|;
      ghost var origin := Origin(b, env, clock.now);
      LaunchGood(exact, View(), b, env, false);
      queues.Launch(b, env, false, clock.now);
      ghost var start := View();
      ghost var v := start;
      turns := [];
      NoTurns(exact, start);
      HeldFromLaunch(old(View()), b, env);
      var over := false;
      while !over && !queues.heap.aborted
        invariant Valid() && (queues.timers.entries == old(queues.timers.entries) || fresh(queues.timers.entries))
        invariant Running(start, turns, v, root, origin) && (over ==> RunNext(Resume, View()) == None)
        decreases if over || v.state.aborted then 0 else 1, LeftToRun(View())
      {
        ghost var before, turn := View(), Turn(0, STILL);
        over, turn := Iterate();
        NoTurnLeft(before, turn);
        if !over {
          Iterated(exact, start, turns, v, before, turn, root, origin);
          v, turns := RunTurn(ResumeLate, before, turn).value, turns + [turn];
          StillLess(v, clock.now);
        }
      }
      RanOut(exact, start, turns, v, View());
      if queues.heap.aborted {
        return None, turns;
      }
      RootIsDone(exact, View(), root, origin);
      ReclaimGood(exact, View(), root);
      ReclaimsAll(exact, View(), root);
      RootAsEvaluated(exact, View(), root, origin);
      var outcome := queues.heap.TakeOutcome(root);
      return Some(outcome), turns;
    }

    static lemma {:induction false} NoTurns(x: bool, start: Sys<Store>)
      ensures Ran(x, start, [], start)
    {
    }

    static lemma {:induction false} NoTurnLeft(sys: Sys<Store>, turn: Turn)
      ensures RunTurn(ResumeLate, sys, turn) == None ==> RunNext(Resume, sys.(now := turn.now)) == None
    {
    }

    static lemma {:induction false} RanOut(x: bool, start: Sys<Store>, turns: seq<Turn>, v: Sys<Store>, end: Sys<Store>)
      requires Ran(x, start, turns, v) && end == v.(now := end.now) && (x ==> end.now == v.now)
      ensures ClockOk(ResumeLate, start, turns) && RunFor(ResumeLate, start, turns) == Some(v)
      ensures x && RunNext(Resume, end) == None ==> RunsOut(Resume, start, |turns|, end)
    {
      hide Resume, ResumeLate, RunNext, RunTurn, RunsOut, RunFor;
      if x && RunNext(Resume, end) == None {
        assert end == v;
        ResumesVirtually();
        UndriftingRunsOut(Resume, ResumeLate, start, turns, v);
      }
    }

    static lemma {:induction false} ReclaimsAll(x: bool, sys: Sys<Store>, root: Handle)
      requires Good(x, sys) && !sys.state.aborted && RunNext(Resume, sys) == None && IsFinished(sys.state, root)
      ensures AllReclaimed(Reclaimed(sys, root), root)
    {
      NothingReady(sys);
      assert multiset(sys.ready) == multiset{} && multiset(sys.timers) == multiset{};
      forall h | 0 <= h < |sys.state.frames|
        ensures sys.state.frames[h].code.Destroyed?
                || (sys.state.frames[h].code.Finished? && sys.state.frames[h].owner == Driver)
      {
        DrainedMeansDone(sys.state, h);
      }
    }

    static lemma {:induction false} RootAsEvaluated(x: bool, sys: Sys<Store>, root: Handle, origin: Origin)
      requires Good(x, sys) && !sys.state.aborted && Ended(sys.state, root) && HeldByCaller(sys.state, root, origin)
      ensures RaceFree(origin.body) ==> EndOf(sys.state, root).o == Eval(origin.body, origin.env, origin.at).o
    {
      if RaceFree(origin.body) {
        EndsAsEvaluated(x, sys, root);
      }
    }

    static lemma {:induction false} HeldFromLaunch(sys: Sys<Store>, b: Body, env: Env)
      ensures HeldByCaller(Launched(sys, b, env, false).state, |sys.state.frames|, Origin(b, env, sys.now))
    {
    }

    static lemma {:induction false} StillLess(v: Sys<Store>, now: int)
      requires v.now <= now
      ensures LeftToRun(v.(now := now)) <= LeftToRun(v)
    {
      WaitsLess(v, now);
    }

    static lemma {:induction false} RootIsDone(x: bool, sys: Sys<Store>, root: Handle, origin: Origin)
      requires Good(x, sys) && !sys.state.aborted && RunNext(Resume, sys) == None
               && HeldByCaller(sys.state, root, origin)
      ensures IsFinished(sys.state, root) && sys.state.frames[root].owner == Driver && Ended(sys.state, root)
    {
      NothingReady(sys);
      assert multiset(sys.ready) == multiset{} && multiset(sys.timers) == multiset{};
      DrainedMeansDone(sys.state, root);
    }

    static lemma {:induction false} NothingReady(sys: Sys<Store>)
      requires RunNext(Resume, sys) == None
      ensures sys.ready == [] && sys.timers == []
    {
      RunNextIs(Resume, sys);
    }
  }
}
