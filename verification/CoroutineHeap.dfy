/** The frame machine in place: the same steps as `Runtime`, as updates of promises, awaiters and shared states. */
module FrameHeap {
  import opened Wrappers
  import opened Programs
  import opened Meaning
  import opened Timers
  import opened Runtime
  import opened Safety
  import opened SafetySteps
  import opened Execution
  import opened Scheduling
  import opened Clocks

  /** All coroutine frames and combinator states of a program.  `posts` and `sleeps` collect the calls of `Post` and
      `ScheduleAt` that the current resumption makes. */
  class CoroutineHeap {
    var frames: seq<Frame>
    var groups: seq<Group>
    var fault: bool
    var aborted: bool
    var posts: seq<Handle>
    var sleeps: seq<Timer>

    function State(): Store
      reads this
    {
      Store(frames, groups, fault, aborted)
    }

    /** The state after a step from `s` that did `m`. */
    twostate predicate Did(new m: Move, new run: Option<Handle>)
      reads this
    {
      State() == m.store && run == m.run && posts == old(posts) + m.posts && sleeps == old(sleeps) + m.sleeps
    }

    constructor ()
      ensures State() == EMPTY_STORE && posts == [] && sleeps == []
    {
      frames, groups, fault, aborted, posts, sleeps := [], [], false, false, [], [];
    }

    /** Undefined behaviour, or a failed assertion. */
    method Crash() returns (run: Option<Handle>)
      modifies this`fault
      ensures Did(Runtime.Crash(old(State())), run)
    {
      fault := true;
      run := None;
    }

    /** Calling a coroutine function: a suspended frame. */
    method CreateTask(b: Body, env: Env, owner: Owner, now: int) returns (h: Handle)
      modifies this`frames
      ensures h == |old(frames)| && frames == old(frames) + [TaskFrame(b, env, None, owner, now)]
    {
      h := |frames|;
      frames := frames + [TaskFrame(b, env, None, owner, now)];
    }

    /** `coroutine_handle::destroy` of a finished frame. */
    method DestroyFrame(h: Handle)
      requires IsFinished(State(), h)
      modifies this`frames
      ensures State() == Destroy(old(State()), h)
    {
      frames := frames[h := frames[h].(code := Destroyed(frames[h].code.o))];
    }

    /** `return_value` or `unhandled_exception`, then `FinalAwaiter::await_suspend`. */
    method FinishFrame(h: Handle, o: Outcome, now: int) returns (run: Option<Handle>)
      requires h < |frames|
      modifies this
      ensures Did(Finish(old(State()), h, o, now), run)
    {
      frames := frames[h := frames[h].(code := Finished(o), since := now)];
      if !frames[h].owner.Itself? {
        run := frames[h].continuation;
      } else {
        DestroyFrame(h);
        if o.Raised? {
          aborted := true;
        }
        run := None;
      }
    }

    /** The frame goes on executing at `b`. */
    method ContinueFrame(h: Handle, env: Env, b: Body) returns (run: Option<Handle>)
      requires h < |frames|
      modifies this`frames
      ensures Did(Continue(old(State()), h, env, b), run)
    {
      frames := frames[h := frames[h].(code := Start(b), env := env)];
      run := Some(h);
    }

    method DeliverOutcome(h: Handle, o: Outcome, next: Body, caught: Body) returns (run: Option<Handle>)
      requires h < |frames|
      modifies this`frames
      ensures Did(Deliver(old(State()), h, o, next, caught), run)
    {
      run := ContinueFrame(h, frames[h].env + [o], if o.Value? then next else caught);
    }

    method SuspendFrame(h: Handle, code: Code, now: int)
      requires h < |frames|
      modifies this`frames
      ensures frames == old(frames)[h := Suspend(old(frames)[h], code, now)]
    {
      frames := frames[h := frames[h].(code := code, since := now)];
    }

    /** `TaskAwaiter::await_suspend`: the awaiter of `h` takes over `c`, which will resume `h` when it ends. */
    method AwaitSuspend(h: Handle, c: Handle) returns (run: Option<Handle>)
      requires h < |frames| && c < |frames|
      modifies this`frames
      ensures frames == old(frames)[c := old(frames)[c].(continuation := Some(h), owner := Awaiter(h))]
              && run == Some(c)
    {
      frames := frames[c := frames[c].(continuation := Some(h), owner := Awaiter(h))];
      run := Some(c);
    }

    method AwaitFresh(h: Handle, b: Body, now: int) returns (run: Option<Handle>)
      requires h < |frames| && b.Await?
      modifies this`frames
      ensures Did(AwaitTask(old(State()), h, b, now), run)
    {
      ghost var s := State();
      var c := CreateTask(b.child, frames[h].env, Driver, now);
      SuspendFrame(h, Awaiting(c, b), now);
      run := AwaitSuspend(h, c);
      assert frames == AwaitTask(s, h, b, now).store.frames;
    }

    /** `SleepAwaitable`: the deadline is fixed at one reading; one that has passed at the next does not suspend. */
    method SleepFrame(h: Handle, b: Body, now: int, later: int) returns (run: Option<Handle>)
      requires h < |frames| && b.Sleep?
      modifies this
      ensures Did(SleepFor(old(State()), h, b, now, later), run)
    {
      var deadline := now + b.duration(frames[h].env);
      if deadline <= later {
        run := ContinueFrame(h, frames[h].env, b.next);
      } else {
        SuspendFrame(h, Sleeping(deadline, b), now);
        sleeps := sleeps + [Timer(deadline, h)];
        run := None;
      }
    }

    /** `IScheduler::Post(Task<void>&&)`: release it, mark it detached, post it. */
    method PostTask(h: Handle)
      requires h < |frames|
      modifies this`frames, this`posts
      ensures frames == old(frames)[h := old(frames)[h].(owner := Itself)] && posts == old(posts) + [h]
    {
      frames := frames[h := frames[h].(owner := Itself)];
      posts := posts + [h];
    }

    method SpawnFrame(h: Handle, b: Body, now: int) returns (run: Option<Handle>)
      requires h < |frames| && b.Spawn?
      modifies this
      ensures Did(SpawnTask(old(State()), h, b, now), run)
    {
      ghost var s := State();
      var c := CreateTask(b.task, frames[h].env, Driver, now);
      PostTask(c);
      run := ContinueFrame(h, frames[h].env, b.next);
      assert frames == SpawnTask(s, h, b, now).store.frames;
    }

    /** `SpawnChildren` of `WhenAll`, and the loop in `await_suspend` of `WhenAny`: build and post one wrapper per
        child, in argument order.  A wrapper of `WhenAll` stays in the vector; one of `WhenAny` is detached. */
    method ForkChildren(h: Handle, b: Body, now: int) returns (run: Option<Handle>)
      requires h < |frames| && (b.All? || b.Any?)
      modifies this
      ensures Did(Fork(old(State()), h, b, now), run)
    {
      var env, first, g, n := frames[h].env, |frames|, |groups|, |b.children|;
      ghost var ws, ts := WrapperFrames(b.children, first, g, b.All?, now), TaskFrames(b.children, env, first, now);
      groups := groups + [NewGroup(h, first, b, env, now)];
      SuspendFrame(h, InGroup(g, b), now);
      ghost var parent := frames;
      var i := 0;
      while i < n
        invariant 0 <= i <= n && frames == parent + ws[..i] && posts == old(posts) + Handles(first, n)[..i]
        invariant groups == old(groups) + [NewGroup(h, first, b, env, now)]
        invariant fault == old(fault) && aborted == old(aborted) && sleeps == old(sleeps)
      {
        var w := Frame(Wrap(first + n + i, g, i), [], None, if b.All? then Wrapped(g, i) else Itself, now, None);
        frames := frames + [w];
        posts := posts + [first + i];
        assert ws[..i + 1] == ws[..i] + [ws[i]];
        assert Handles(first, n)[..i + 1] == Handles(first, n)[..i] + [first + i];
        i := i + 1;
      }
      assert ws[..n] == ws && Handles(first, n)[..n] == Handles(first, n);
      i := 0;
      while i < n
        invariant 0 <= i <= n && frames == parent + ws + ts[..i] && posts == old(posts) + Handles(first, n)
        invariant groups == old(groups) + [NewGroup(h, first, b, env, now)]
        invariant fault == old(fault) && aborted == old(aborted) && sleeps == old(sleeps)
      {
        var t := CreateTask(b.children[i], env, Argument(first + i), now);
        assert ts[..i + 1] == ts[..i] + [ts[i]];
        i := i + 1;
      }
      assert ts[..n] == ts;
      run := None;
    }

    /** A wrapper starts: `co_await` of the child it was made for. */
    method StartWrapperFrame(h: Handle, task: Handle, g: nat, i: nat, now: int) returns (run: Option<Handle>)
      requires h < |frames|
      modifies this
      ensures Did(StartWrapper(old(State()), h, task, g, i, now), run)
    {
      if task < |frames| && task != h && frames[task].code.Start? {
        SuspendFrame(h, WrapAwaiting(task, g, i), now);
        run := AwaitSuspend(h, task);
      } else {
        run := Crash();
      }
    }

    /** `await_resume` of a finished task, and the end of its awaiter: the outcome is taken, the frame freed. */
    method TakeOutcome(c: Handle) returns (o: Outcome)
      requires IsFinished(State(), c)
      modifies this`frames
      ensures o == old(frames)[c].code.o && State() == Destroy(old(State()), c)
    {
      o := frames[c].code.o;
      DestroyFrame(c);
    }

    method TaskDoneFrame(h: Handle, c: Handle, b: Body) returns (run: Option<Handle>)
      requires h < |frames| && b.Await?
      modifies this
      ensures Did(TaskDone(old(State()), h, c, b), run)
    {
      if c < |frames| && frames[c].code.Finished? {
        var o := TakeOutcome(c);
        run := DeliverOutcome(h, o, b.next, b.caught);
      } else {
        run := Crash();
      }
    }

    /** `WhenAllState::OnChildDone`, after the wrapper has stored the outcome in its slot. */
    method OnJoinChildDone(g: nat, i: nat, d: Done)
      requires CanNotify(State(), g, i) && groups[g].Join?
      modifies this`groups, this`posts
      ensures var (group, post) := OnChildDone(old(groups)[g], i, d);
        groups == old(groups)[g := group] && posts == old(posts) + if post then [group.parent] else []
    {
      groups := groups[g := groups[g].(slots := groups[g].slots[i := Some(d)])];
      groups := groups[g := groups[g].(remaining := groups[g].remaining - 1)];
      if groups[g].remaining == 0 {
        posts := posts + [groups[g].parent];
      }
    }

    /** `WhenAnyState::OnChildDone`: the first to arrive wins, later completions are dropped. */
    method OnRaceChildDone(g: nat, i: nat, d: Done)
      requires CanNotify(State(), g, i) && groups[g].Race?
      modifies this`groups, this`posts
      ensures var (group, post) := OnChildDone(old(groups)[g], i, d);
        groups == old(groups)[g := group] && posts == old(posts) + if post then [group.parent] else []
    {
      if groups[g].winner.Some? {
        return;
      }
      groups := groups[g := groups[g].(winner := Some((i, d)))];
      posts := posts + [groups[g].parent];
    }

    /** The rest of `WhenAllChild` and `WhenAnyChild` once the child has ended, normally or not. */
    method WrapperDoneFrame(h: Handle, c: Handle, g: nat, i: nat, now: int) returns (run: Option<Handle>)
      requires h < |frames|
      modifies this
      ensures Did(WrapperDone(old(State()), h, c, g, i, now), run)
    {
      if c >= |frames| || !frames[c].code.Finished? || !CanNotify(State(), g, i) {
        run := Crash();
        return;
      }
      var d := Done(frames[c].code.o, now);
      if OnChildDone(groups[g], i, d).1 && !ParentWaits(State(), g) {
        run := Crash();
        return;
      }
      var o := TakeOutcome(c);
      if groups[g].Join? {
        OnJoinChildDone(g, i, d);
      } else {
        OnRaceChildDone(g, i, d);
      }
      run := FinishFrame(h, Value(Unit), now);
    }

    /** The end of a `WhenAll` awaitable: its vector destroys the wrappers. */
    method DestroyWrappers(first: Handle, n: nat)
      requires AllFinished(frames, first, n)
      modifies this`frames
      ensures frames == DestroyRange(old(frames), first, n)
    {
      var k := 0;
      while k < n
        invariant 0 <= k <= n && |frames| == |old(frames)|
        invariant forall j :: 0 <= j < |frames| ==>
          (frames[j] == if first <= j < first + k then old(frames)[j].(code := Destroyed(old(frames)[j].code.o))
                        else old(frames)[j])
      {
        FinishedAt(old(frames), first, n, first + k);
        DestroyFrame(first + k);
        k := k + 1;
      }
    }

    /** `await_resume` of a combinator: `MakeReturn` of `WhenAll`, the winner of `WhenAny`. */
    method GroupDoneFrame(h: Handle, g: nat, b: Body) returns (run: Option<Handle>)
      requires h < |frames| && (b.All? || b.Any?)
      modifies this
      ensures Did(GroupDone(old(State()), h, g, b), run)
    {
      if g >= |groups| {
        run := Crash();
        return;
      }
      match groups[g] {
        case Join(_, first, _, _, slots) =>
          if Engaged(slots) && AllFinished(frames, first, |slots|) {
            DestroyWrappers(first, |slots|);
            run := DeliverOutcome(h, JoinOutcome(Outcomes(Completions(slots))), b.next, b.caught);
          } else {
            run := Crash();
          }
        case Race(_, _, _, winner) =>
          if winner.Some? {
            run := DeliverOutcome(h, RaceOutcome(winner.value.0, winner.value.1.o), b.next, b.caught);
          } else {
            run := Crash();
          }
      }
    }

    method StepBodyFrame(h: Handle, b: Body, now: int, later: int) returns (run: Option<Handle>)
      requires h < |frames|
      modifies this
      ensures Did(StepBody(old(State()), h, b, now, later), run)
    {
      var env := frames[h].env;
      match b {
        case Return(v) => run := FinishFrame(h, Value(v(env)), now);
        case Throw(e) => run := FinishFrame(h, Raised(e(env)), now);
        case Branch(cond, yes, no) => run := ContinueFrame(h, env, if cond(env) then yes else no);
        case Await(_, _, _) => run := AwaitFresh(h, b, now);
        case AwaitEmpty(isVoid, next, caught) => run := DeliverOutcome(h, EmptyTaskOutcome(isVoid), next, caught);
        case Sleep(_, _) => run := SleepFrame(h, b, now, later);
        case All(children, next, caught) =>
          if |children| == 0 {
            run := DeliverOutcome(h, Value(Tuple([])), next, caught);
          } else {
            run := ForkChildren(h, b, now);
          }
        case Any(children, next, caught) =>
          if |children| == 0 {
            run := DeliverOutcome(h, Raised(INVALID_ARGUMENT), next, caught);
          } else {
            run := ForkChildren(h, b, now);
          }
        case Spawn(_, _) => run := SpawnFrame(h, b, now);
      }
    }

    /** Executes `h` up to its next transfer of control. */
    method StepFrame(h: Handle, now: int, later: int) returns (run: Option<Handle>)
      modifies this
      ensures Did(Step(old(State()), h, now, later), run)
    {
      if h >= |frames| {
        run := Crash();
        return;
      }
      match frames[h].code {
        case Start(b) => run := StepBodyFrame(h, b, now, later);
        case Wrap(task, g, i) => run := StartWrapperFrame(h, task, g, i, now);
        case Awaiting(c, b) =>
          if b.Await? {
            run := TaskDoneFrame(h, c, b);
          } else {
            run := Crash();
          }
        case WrapAwaiting(c, g, i) => run := WrapperDoneFrame(h, c, g, i, now);
        case Sleeping(_, b) =>
          if b.Sleep? {
            run := ContinueFrame(h, frames[h].env, b.next);
          } else {
            run := Crash();
          }
        case InGroup(g, b) =>
          if b.All? || b.Any? {
            run := GroupDoneFrame(h, g, b);
          } else {
            run := Crash();
          }
        case Finished(_) => run := Crash();
        case Destroyed(_) => run := Crash();
      }
    }

    /** `handle.resume()`: transfer after transfer in one loop, until control returns to the scheduler.  No call nests
        another resumption, however deep the chain of awaits.  Each step may read the clock twice. */
    method ResumeHandle(h: Handle, clock: Clock, ghost ready: multiset<Handle>, ghost timers: multiset<Timer>)
      requires !aborted ==> Inv(State(), Some(h), ready, timers)
      modifies this, clock
      ensures Lapse(Reaction(State(), posts, sleeps), clock.now)
           == ResumeLate(old(State()), h, old(clock.now), Pace(clock.drift, old(clock.calls)))
    {
      hide Step, Inv, Mass, Safe, Exec;
      posts, sleeps := [], [];
      if aborted {
        return;
      }
      var run := Some(h);
      ghost var all := ResumeLate(State(), h, clock.now, Pace(clock.drift, clock.calls));
      ghost var r, t, fuel := ready, timers, Mass(frames);
      while run.Some?
        invariant run.Some? ==> Inv(State(), run, r, t) && Mass(frames) <= fuel
        invariant Remains(all, posts, sleeps, Exec(State(), run, clock.now, Pace(clock.drift, clock.calls), fuel))
        decreases if run.Some? then 1 + Mass(frames) else 0
      {
        var h' := run.value;
        ghost var s, now, pace := State(), clock.now, Pace(clock.drift, clock.calls);
        var begins := clock.Now();
        var passes := clock.Now();
        assert begins == Begins(now, pace) && passes == Passes(now, pace);
        ghost var m := Step(s, h', begins, passes);
        StepMass(s, h', begins, passes, r, t);
        StepSafe(s, h', begins, passes, r, t);
        SafeMove(m, r, t);
        ExecOne(s, Some(h'), now, pace, fuel);
        Remaining(all, posts, sleeps, m, Exec(m.store, m.run, passes, Onward(pace), fuel - 1));
        run := StepFrame(h', begins, passes);
        fuel, r, t := fuel - 1, r + multiset(m.posts), t + multiset(m.sleeps);
      }
      ExecOne(State(), run, clock.now, Pace(clock.drift, clock.calls), fuel);
    }

    /** What has been done so far and `rest` make up `all`. */
    static ghost predicate Remains(all: Lapse<Store>, posts: seq<Handle>, sleeps: seq<Timer>, rest: Lapse<Store>) {
      all == Lapse(Reaction(rest.reaction.state, posts + rest.reaction.posts, sleeps + rest.reaction.sleeps), rest.now)
    }

    static lemma {:induction false} Remaining(all: Lapse<Store>, posts: seq<Handle>, sleeps: seq<Timer>, m: Move,
                                              rest: Lapse<Store>)
      requires Remains(all, posts, sleeps,
                 Lapse(Reaction(rest.reaction.state, m.posts + rest.reaction.posts, m.sleeps + rest.reaction.sleeps),
                   rest.now))
      ensures Remains(all, posts + m.posts, sleeps + m.sleeps, rest)
    {
      assert posts + (m.posts + rest.reaction.posts) == posts + m.posts + rest.reaction.posts;
      assert sleeps + (m.sleeps + rest.reaction.sleeps) == sleeps + m.sleeps + rest.reaction.sleeps;
    }

    static lemma {:induction false} ExecOne(s: Store, run: Option<Handle>, now: int, pace: Pace, fuel: nat)
      ensures run.None? ==> Exec(s, run, now, pace, fuel) == Lapse(Reaction(s, [], []), now)
      ensures run.Some? && fuel > 0 ==>
        var m := Step(s, run.value, Begins(now, pace), Passes(now, pace));
        var l := Exec(m.store, m.run, Passes(now, pace), Onward(pace), fuel - 1);
        Exec(s, run, now, pace, fuel)
          == Lapse(Reaction(l.reaction.state, m.posts + l.reaction.posts, m.sleeps + l.reaction.sleeps), l.now)
    {
    }

    static lemma {:induction false} FinishedAt(frames: seq<Frame>, first: Handle, n: nat, k: Handle)
      requires AllFinished(frames, first, n) && first <= k < first + n
      ensures k < |frames| && frames[k].code.Finished?
    {
    }

    static lemma {:induction false} SafeMove(m: Move, r: multiset<Handle>, t: multiset<Timer>)
      ensures Safe(m, r, t) ==> Inv(m.store, m.run, r + multiset(m.posts), t + multiset(m.sleeps))
    {
    }
  }
}
