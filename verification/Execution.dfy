/** Resuming a handle: the machine runs, transfer by transfer, until control is back at the scheduler. */
module Execution {
  import opened Wrappers
  import opened Programs
  import opened Timers
  import opened Runtime
  import opened Safety
  import opened SafetySteps
  import opened SafetyGroups
  import opened Scheduling

  // ---- The step measure ----

  /** The steps a bookmark can still cause. */
  function Weight(code: Code): nat {
    match code
    case Start(b) => Size(b)
    case Wrap(_, _, _) => 2
    case Awaiting(_, b) => if b.Await? then 1 + Size(b.next) + Size(b.caught) else 1
    case WrapAwaiting(_, _, _) => 1
    case Sleeping(_, b) => if b.Sleep? then 1 + Size(b.next) else 1
    case InGroup(_, b) => if b.All? || b.Any? then 1 + Size(b.next) + Size(b.caught) else 1
    case Finished(_) => 0
    case Destroyed(_) => 0
  }

  function Mass(frames: seq<Frame>): nat {
    if frames == [] then 0 else Mass(frames[..|frames| - 1]) + Weight(frames[|frames| - 1].code)
  }

  lemma {:induction false} MassUpdate(frames: seq<Frame>, h: Handle, f: Frame)
    requires h < |frames|
    ensures Mass(frames[h := f]) == Mass(frames) - Weight(frames[h].code) + Weight(f.code)
  {
    var n := |frames| - 1;
    if h < n {
      MassUpdate(frames[..n], h, f);
      assert frames[h := f][..n] == frames[..n][h := f];
    } else {
      assert frames[h := f][..n] == frames[..n];
    }
  }

  lemma {:induction false} MassAppend(a: seq<Frame>, b: seq<Frame>)
    ensures Mass(a + b) == Mass(a) + Mass(b)
  {
    if b == [] {
      assert a + b == a;
    } else {
      var n := |b| - 1;
      assert (a + b)[..|a + b| - 1] == a + b[..n];
      MassAppend(a, b[..n]);
    }
  }

  lemma {:induction false} MassSame(a: seq<Frame>, b: seq<Frame>)
    requires |a| == |b| && forall k :: 0 <= k < |a| ==> Weight(a[k].code) == Weight(b[k].code)
    ensures Mass(a) == Mass(b)
  {
    if a != [] {
      var n := |a| - 1;
      assert forall k :: 0 <= k < n ==> a[..n][k] == a[k] && b[..n][k] == b[k];
      MassSame(a[..n], b[..n]);
    }
  }

  lemma {:induction false} WeightInMass(frames: seq<Frame>, h: Handle)
    requires h < |frames|
    ensures Weight(frames[h].code) <= Mass(frames)
  {
    var n := |frames| - 1;
    if h < n {
      WeightInMass(frames[..n], h);
    }
  }

  /** Wrappers and tasks weigh what a combinator paid for its children. */
  lemma {:induction false} MassOfFork(cs: seq<Body>, ws: seq<Frame>, ts: seq<Frame>)
    requires |ws| == |ts| == |cs|
    requires forall i :: 0 <= i < |cs| ==> ws[i].code.Wrap?
    requires forall i :: 0 <= i < |cs| ==> ts[i].code == Start(cs[i])
    ensures Mass(ws) + Mass(ts) == SizeAll(cs)
  {
    if cs != [] {
      var n := |cs| - 1;
      assert forall i :: 0 <= i < n ==> ws[..n][i] == ws[i] && ts[..n][i] == ts[i] && cs[..n][i] == cs[i];
      MassOfFork(cs[..n], ws[..n], ts[..n]);
    }
  }

  lemma {:induction false} ForkMass(s: Store, h: Handle, b: Body, now: int)
    requires h < |s.frames| && s.frames[h].code == Start(b) && (b.All? || b.Any?)
    ensures Mass(Fork(s, h, b, now).store.frames) < Mass(s.frames)
  {
    hide Mass, SizeAll;
    var f, first, g := s.frames[h], |s.frames|, |s.groups|;
    var fs := s.frames[h := Suspend(f, InGroup(g, b), now)];
    var ws := WrapperFrames(b.children, first, g, b.All?, now);
    var ts := TaskFrames(b.children, f.env, first, now);
    MassUpdate(s.frames, h, Suspend(f, InGroup(g, b), now));
    MassAppend(fs, ws);
    MassAppend(fs + ws, ts);
    MassOfFork(b.children, ws, ts);
  }

  /** A frame moves on to lighter code and may have created one lighter frame. */
  lemma {:induction false} LocalMass(frames: seq<Frame>, h: Handle, f: Frame, created: seq<Frame>)
    requires h < |frames| && |created| <= 1
    requires Weight(f.code) + (if created == [] then 0 else Weight(created[0].code)) < Weight(frames[h].code)
    ensures Mass(frames[h := f] + created) < Mass(frames)
  {
    MassUpdate(frames, h, f);
    if created == [] {
      assert frames[h := f] + created == frames[h := f];
    } else {
      assert (frames[h := f] + created)[..|frames|] == frames[h := f];
    }
  }

  lemma {:induction false} StepBodyMass(s: Store, h: Handle, b: Body, now: int, later: int)
    requires h < |s.frames| && s.frames[h].code == Start(b)
    ensures Mass(StepBody(s, h, b, now, later).store.frames) < Mass(s.frames)
  {
    hide Mass, Fork;
    if (b.All? || b.Any?) && b.children != [] {
      ForkMass(s, h, b, now);
    } else {
      var frames := StepBody(s, h, b, now, later).store.frames;
      LocalMass(s.frames, h, frames[h], frames[|s.frames|..]);
      assert frames == s.frames[h := frames[h]] + frames[|s.frames|..];
    }
  }

  /** The running frame moves on while a finished child is freed. */
  lemma {:induction false} FreeMass(s: Store, h: Handle, c: Handle, frames: seq<Frame>)
    requires h < |s.frames| && c < |s.frames| && h != c && s.frames[c].code.Finished?
    requires |frames| == |s.frames| && frames[c].code.Destroyed? && Weight(frames[h].code) < Weight(s.frames[h].code)
    requires frames == s.frames[c := frames[c]][h := frames[h]]
    ensures Mass(frames) < Mass(s.frames)
  {
    MassUpdate(s.frames, c, frames[c]);
    MassUpdate(s.frames[c := frames[c]], h, frames[h]);
  }

  lemma {:induction false} TaskDoneMass(s: Store, h: Handle, c: Handle, b: Body)
    requires h < |s.frames| && RunOk(s, Some(h)) && FrameOk(s, Some(h), h) && s.frames[h].code == Awaiting(c, b)
    ensures Mass(TaskDone(s, h, c, b).store.frames) < Mass(s.frames)
  {
    FreeMass(s, h, c, TaskDone(s, h, c, b).store.frames);
  }

  lemma {:induction false} WrapperDoneMass(s: Store, h: Handle, c: Handle, g: nat, i: nat, now: int)
    requires Reports(s, h, c, g, i)
    ensures Mass(WrapperDone(s, h, c, g, i, now).store.frames) < Mass(s.frames)
  {
    WrapperDoneStore(s, h, c, g, i, now);
    var frames := WrapperDone(s, h, c, g, i, now).store.frames;
    assert frames == s.frames[c := frames[c]][h := frames[h]];
    FreeMass(s, h, c, frames);
  }

  lemma {:induction false} GroupDoneMass(s: Store, h: Handle, g: nat, b: Body)
    requires FramesOk(s, Some(h)) && Joins(s, h, g, b)
    ensures (b.All? || b.Any?) && Mass(GroupDone(s, h, g, b).store.frames) < Mass(s.frames)
  {
    GroupDoneStore(s, h, g, b);
    var frames := GroupDone(s, h, g, b).store.frames;
    MassUpdate(s.frames, h, frames[h]);
    forall k | 0 <= k < |frames| ensures Weight(frames[k].code) == Weight(s.frames[h := frames[h]][k].code) {
    }
    MassSame(frames, s.frames[h := frames[h]]);
  }

  lemma {:induction false} StepMass(s: Store, h: Handle, now: int, later: int, ready: multiset<Handle>,
                                    timers: multiset<Timer>)
    requires Inv(s, Some(h), ready, timers)
    ensures Mass(Step(s, h, now, later).store.frames) < Mass(s.frames)
  {
    assert FrameOk(s, Some(h), h);
    var f := s.frames[h];
    match f.code
    case Start(b) => StepBodyMass(s, h, b, now, later);
    case Wrap(task, g, i) =>
      var f' := Suspend(f, WrapAwaiting(task, g, i), now);
      LocalMass(s.frames, h, f', []);
      assert s.frames[h := f'] + [] == s.frames[h := f'];
      MassUpdate(s.frames[h := f'], task, s.frames[task].(continuation := Some(h), owner := Awaiter(h)));
    case Awaiting(c, b) => TaskDoneMass(s, h, c, b);
    case WrapAwaiting(c, g, i) =>
      assert FrameOk(s, Some(h), c) && GroupOk(s, g);
      WrapperDoneMass(s, h, c, g, i, now);
    case Sleeping(_, b) => MassUpdate(s.frames, h, f.(code := Start(b.next)));
    case InGroup(g, b) =>
      assert GroupOk(s, g);
      GroupDoneMass(s, h, g, b);
  }

  // ---- Every step is safe ----

  /** A detached task lets an exception escape: the one step that calls `std::terminate`. */
  ghost predicate Escapes(s: Store, h: Handle) {
    h < |s.frames| && s.frames[h].code.Start? && s.frames[h].code.b.Throw? && s.frames[h].owner.Itself?
  }

  lemma {:induction false} StepSafe(s: Store, h: Handle, now: int, later: int, ready: multiset<Handle>,
                                    timers: multiset<Timer>)
    requires Inv(s, Some(h), ready, timers)
    ensures !Escapes(s, h) ==> Safe(Step(s, h, now, later), ready, timers)
    ensures Escapes(s, h) ==>
      Step(s, h, now, later).store.aborted && !Step(s, h, now, later).store.fault && Step(s, h, now, later).run == None
  {
    assert FrameOk(s, Some(h), h);
    match s.frames[h].code
    case Start(b) =>
      if !Escapes(s, h) {
        StepBodySafe(s, h, b, now, later, ready, timers);
      }
    case Wrap(task, g, i) => StartWrapperSafe(s, h, task, g, i, now, ready, timers);
    case Awaiting(c, b) => TaskDoneSafe(s, h, c, b, ready, timers);
    case WrapAwaiting(c, g, i) => WrapperDoneSafe(s, h, c, g, i, now, ready, timers);
    case Sleeping(_, b) => ContinueSafe(s, h, s.frames[h].env, b.next, ready, timers);
    case InGroup(g, b) => GroupDoneSafe(s, h, g, b, ready, timers);
  }

  lemma {:induction false} StepBodySafe(s: Store, h: Handle, b: Body, now: int, later: int, ready: multiset<Handle>,
                                        timers: multiset<Timer>)
    requires Inv(s, Some(h), ready, timers) && s.frames[h].code == Start(b) && !Escapes(s, h)
    ensures Safe(StepBody(s, h, b, now, later), ready, timers)
  {
    var env := s.frames[h].env;
    match b
    case Return(v) => FinishSafe(s, h, Value(v(env)), now, ready, timers);
    case Throw(e) => FinishSafe(s, h, Raised(e(env)), now, ready, timers);
    case Branch(cond, yes, no) => ContinueSafe(s, h, env, if cond(env) then yes else no, ready, timers);
    case Await(_, _, _) => AwaitTaskSafe(s, h, b, now, ready, timers);
    case AwaitEmpty(isVoid, next, caught) =>
      var o := EmptyTaskOutcome(isVoid);
      ContinueSafe(s, h, env + [o], if o.Value? then next else caught, ready, timers);
    case Sleep(duration, next) =>
      if now + duration(env) > later {
        ParkSafe(s, h, b, now, later, ready, timers);
      } else {
        ContinueSafe(s, h, env, next, ready, timers);
      }
    case All(children, next, _) =>
      if children == [] {
        ContinueSafe(s, h, env + [Value(Tuple([]))], next, ready, timers);
      } else {
        ForkSafe(s, h, b, now, ready, timers);
      }
    case Any(children, _, caught) =>
      if children == [] {
        ContinueSafe(s, h, env + [Raised(INVALID_ARGUMENT)], caught, ready, timers);
      } else {
        ForkSafe(s, h, b, now, ready, timers);
      }
    case Spawn(_, _) => SpawnTaskSafe(s, h, b, now, ready, timers);
  }

  // ---- Whole resumptions ----

  /** The clock as a step begins and as it ends, and the pace from there. */
  function Begins(now: int, pace: Pace): int {
    now + pace.drift(pace.from)
  }

  function Passes(now: int, pace: Pace): int {
    Begins(now, pace) + pace.drift(pace.from + 1)
  }

  function Onward(pace: Pace): Pace {
    Pace(pace.drift, pace.from + 2)
  }

  /** Runs `run` until control returns; `fuel` bounds the number of transfers. */
  function Exec(s: Store, run: Option<Handle>, now: int, pace: Pace, fuel: nat): Lapse<Store>
    decreases fuel
  {
    match run
    case None => Lapse(Reaction(s, [], []), now)
    case Some(h) =>
      if fuel == 0 then Lapse(Reaction(s.(fault := true), [], []), now)
      else
        var m := Step(s, h, Begins(now, pace), Passes(now, pace));
        var l := Exec(m.store, m.run, Passes(now, pace), Onward(pace), fuel - 1);
        Lapse(Reaction(l.reaction.state, m.posts + l.reaction.posts, m.sleeps + l.reaction.sleeps), l.now)
  }

  /** `handle.resume()` at clock reading `now`, while time passes.  After `std::terminate` nothing runs any more. */
  function ResumeLate(s: Store, h: Handle, now: int, pace: Pace): Lapse<Store> {
    if s.aborted then Lapse(Reaction(s, [], []), now) else Exec(s, Some(h), now, pace, Mass(s.frames))
  }

  /** `handle.resume()` while the clock stands still. */
  function Resume(s: Store, h: Handle, now: int): Reaction<Store> {
    ResumeLate(s, h, now, STILL).reaction
  }

  lemma {:induction false} StandsStill(now: int, pace: Pace)
    requires Standing(pace)
    ensures Begins(now, pace) == Passes(now, pace) == now && Standing(Onward(pace))
  {
  }

  lemma {:induction false} ExecStill(s: Store, run: Option<Handle>, now: int, pace: Pace, pace': Pace, fuel: nat)
    requires Standing(pace) && Standing(pace')
    ensures Exec(s, run, now, pace, fuel) == Exec(s, run, now, pace', fuel) && Exec(s, run, now, pace, fuel).now == now
    decreases fuel
  {
    hide Step;
    if run.Some? && fuel > 0 {
      var m := Step(s, run.value, now, now);
      assert Begins(now, pace) == Passes(now, pace) == Begins(now, pace') == Passes(now, pace') == now;
      ExecStill(m.store, m.run, now, Onward(pace), Onward(pace'), fuel - 1);
    }
  }

  /** Whenever a resumption comes to a sleep, under any clock: the deadline counts from the first reading, and unless
      the second has reached it, the resumption ends there with that one timer. */
  lemma {:induction false} SleepSetsTimer(s: Store, h: Handle, now: int, pace: Pace, fuel: nat)
    requires h < |s.frames| && s.frames[h].code.Start? && s.frames[h].code.b.Sleep? && fuel > 0
    ensures var b, t := s.frames[h].code.b, now + pace.drift(pace.from);
      var deadline, later := t + b.duration(s.frames[h].env), t + pace.drift(pace.from + 1);
      var l := Exec(s, Some(h), now, pace, fuel);
      if later < deadline then
        && l.now == later && l.reaction.posts == [] && l.reaction.sleeps == [Timer(deadline, h)]
        && l.reaction.state.frames == s.frames[h := s.frames[h].(code := Sleeping(deadline, b), since := t)]
      else
        var s' := s.(frames := s.frames[h := s.frames[h].(code := Start(b.next))]);
        l == Exec(s', Some(h), later, Onward(pace), fuel - 1)
  {
  }

  /** Under a clock that only moves when waited on, a resumption is one at a single reading. */
  lemma {:induction false} ResumesVirtually()
    ensures Virtually(Resume, ResumeLate)
  {
    hide Exec;
    forall s: Store, h: Handle, now: int, pace: Pace | Standing(pace)
      ensures ResumeLate(s, h, now, pace) == Lapse(Resume(s, h, now), now)
    {
      ExecStill(s, Some(h), now, pace, STILL, Mass(s.frames));
    }
  }

  /** Control is back at the scheduler after a reaction: the program has terminated or the invariant holds again. */
  ghost predicate SafeReturn(r: Reaction<Store>, ready: multiset<Handle>, timers: multiset<Timer>) {
    !r.state.fault && (r.state.aborted || Inv(r.state, None, ready + multiset(r.posts), timers + multiset(r.sleeps)))
  }

  lemma {:induction false} ReturnNow(s: Store, ready: multiset<Handle>, timers: multiset<Timer>)
    requires Inv(s, None, ready, timers)
    ensures SafeReturn(Reaction(s, [], []), ready, timers)
  {
    assert ready + multiset([]) == ready;
    assert timers + multiset([]) == timers;
  }

  lemma {:induction false} ReturnLater(r: Reaction<Store>, posts: seq<Handle>, sleeps: seq<Timer>,
                                       ready: multiset<Handle>, timers: multiset<Timer>)
    requires SafeReturn(r, ready + multiset(posts), timers + multiset(sleeps))
    ensures SafeReturn(Reaction(r.state, posts + r.posts, sleeps + r.sleeps), ready, timers)
  {
    assert ready + multiset(posts) + multiset(r.posts) == ready + multiset(posts + r.posts);
    assert timers + multiset(sleeps) + multiset(r.sleeps) == timers + multiset(sleeps + r.sleeps);
  }

  lemma {:induction false} ExecSafe(s: Store, run: Option<Handle>, now: int, pace: Pace, fuel: nat,
                                    ready: multiset<Handle>, timers: multiset<Timer>)
    requires Inv(s, run, ready, timers) && Mass(s.frames) <= fuel
    ensures SafeReturn(Exec(s, run, now, pace, fuel).reaction, ready, timers)
    ensures now <= Exec(s, run, now, pace, fuel).now
    ensures Mass(Exec(s, run, now, pace, fuel).reaction.state.frames) + (if run.Some? then 1 else 0) <= Mass(s.frames)
    decreases fuel
  {
    hide Step, Inv;
    match run {
      case None => ReturnNow(s, ready, timers);
      case Some(h) =>
        var t, t' := Begins(now, pace), Passes(now, pace);
        StepMass(s, h, t, t', ready, timers);
        StepSafe(s, h, t, t', ready, timers);
        var m := Step(s, h, t, t');
        if !Escapes(s, h) {
          ExecSafe(m.store, m.run, t', Onward(pace), fuel - 1, ready + multiset(m.posts), timers + multiset(m.sleeps));
          ReturnLater(Exec(m.store, m.run, t', Onward(pace), fuel - 1).reaction, m.posts, m.sleeps, ready, timers);
        }
    }
  }

  /** A handle leaves the ready queue to be resumed. */
  lemma {:induction false} TakeReady(s: Store, h: Handle, ready: multiset<Handle>, timers: multiset<Timer>)
    requires Inv(s, None, ready, timers) && ready[h] > 0
    ensures Inv(s, Some(h), ready - multiset{h}, timers)
  {
    assert h < |s.frames| && FrameOk(s, None, h);
    forall k | 0 <= k < |s.frames| ensures FrameOk(s, Some(h), k) {
      assert FrameOk(s, None, k);
    }
  }

  /** A due entry leaves the timer queue to be resumed. */
  lemma {:induction false} TakeTimer(s: Store, t: Timer, ready: multiset<Handle>, timers: multiset<Timer>)
    requires Inv(s, None, ready, timers) && timers[t] > 0
    ensures Inv(s, Some(t.handle), ready, timers - multiset{t})
  {
    forall k | 0 <= k < |s.frames| ensures FrameOk(s, Some(t.handle), k) {
      assert FrameOk(s, None, k);
    }
  }

  /** A due entry moves to the ready queue. */
  lemma {:induction false} MoveTimer(s: Store, t: Timer, ready: multiset<Handle>, timers: multiset<Timer>)
    requires Inv(s, None, ready, timers) && timers[t] > 0
    ensures Inv(s, None, ready + multiset{t.handle}, timers - multiset{t})
  {
  }

  lemma {:induction false} ResumeSafe(s: Store, h: Handle, now: int, pace: Pace, ready: multiset<Handle>,
                                      timers: multiset<Timer>)
    requires Inv(s, Some(h), ready, timers)
    ensures SafeReturn(ResumeLate(s, h, now, pace).reaction, ready, timers) && now <= ResumeLate(s, h, now, pace).now
    ensures Mass(ResumeLate(s, h, now, pace).reaction.state.frames) < Mass(s.frames)
  {
    ExecSafe(s, Some(h), now, pace, Mass(s.frames), ready, timers);
  }
}
