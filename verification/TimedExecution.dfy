/** The timed invariant over whole resumptions and over the passing of time. */
module TimedExecution {
  import opened Wrappers
  import opened Programs
  import opened Meaning
  import opened Timers
  import opened Runtime
  import opened Safety
  import opened SafetyGroups
  import opened Execution
  import opened Timing
  import opened Horizon
  import opened TimingSteps
  import opened Scheduling

  /** A sleeper runs only once its deadline has come. */
  ghost predicate Awake(s: Store, run: Option<Handle>, now: int) {
    run.Some? && run.value < |s.frames| && s.frames[run.value].code.Sleeping? ==> s.frames[run.value].code.when <= now
  }

  lemma {:induction false} StepBodyTimed(x: bool, s: Store, h: Handle, b: Body, now: int, later: int)
    requires Reads(x, now, later) && Executes(x, s, now, h, b) && FrameOk(s, Some(h), h) && RunOk(s, Some(h))
             && GroupsOk(s)
    ensures Timed(x, StepBody(s, h, b, now, later).store, if b.Sleep? then later else now)
  {
    var env, origin := s.frames[h].env, s.frames[h].origin.value;
    match b
    case Return(v) =>
      assert Ends(x, b, env, now, Done(Value(v(env)), now));
      FinishTimed(x, s, now, h, Value(v(env)));
    case Throw(e) =>
      assert Ends(x, b, env, now, Done(Raised(e(env)), now));
      FinishTimed(x, s, now, h, Raised(e(env)));
    case Branch(cond, yes, no) =>
      var b' := if cond(env) then yes else no;
      GoOnTimed(x, s, h, b, now, b', env);
    case Await(_, _, _) => AwaitTaskTimed(x, s, now, h, b);
    case AwaitEmpty(isVoid, next, caught) =>
      var o := EmptyTaskOutcome(isVoid);
      GoOnTimed(x, s, h, b, now, if o.Value? then next else caught, env + [o]);
    case Sleep(_, _) => SleepForTimed(x, s, now, later, h, b);
    case All(children, next, _) =>
      if children == [] {
        GoOnTimed(x, s, h, b, now, next, env + [Value(Tuple([]))]);
      } else {
        ForkTimed(x, s, now, h, b);
      }
    case Any(children, _, caught) =>
      if children == [] {
        GoOnTimed(x, s, h, b, now, caught, env + [Raised(INVALID_ARGUMENT)]);
      } else {
        ForkTimed(x, s, now, h, b);
      }
    case Spawn(_, _) => SpawnTaskTimed(x, s, now, h, b);
  }

  /** A statement that does not suspend. */
  lemma {:induction false} GoOnTimed(x: bool, s: Store, h: Handle, b: Body, now: int, b': Body, env': Env)
    requires Executes(x, s, now, h, b) && Leads(x, b, s.frames[h].env, now, b', env', now)
    ensures Timed(x, Continue(s, h, env', b').store, now)
  {
    RefinesAfter(x, b, s.frames[h].env, now, b', env', now, s.frames[h].origin.value);
    ContinueTimed(x, s, now, h, env', b');
  }

  lemma {:induction false} StepTimed(x: bool, s: Store, h: Handle, now: int, later: int, ready: multiset<Handle>,
                                     timers: multiset<Timer>)
    requires Inv(s, Some(h), ready, timers) && Timed(x, s, now) && Awake(s, Some(h), now) && Reads(x, now, later)
    ensures Timed(x, Step(s, h, now, later).store, later)
  {
    TransferTimed(x, s, h, now, later, ready, timers);
    if !(s.frames[h].code.Start? && s.frames[h].code.b.Sleep?) {
      hide Step, Timed;
      PassTimed(x, Step(s, h, now, later).store, now, later);
    }
  }

  lemma {:induction false} TransferTimed(x: bool, s: Store, h: Handle, now: int, later: int, ready: multiset<Handle>,
                                         timers: multiset<Timer>)
    requires Inv(s, Some(h), ready, timers) && Timed(x, s, now) && Awake(s, Some(h), now) && Reads(x, now, later)
    ensures Timed(x, Step(s, h, now, later).store,
                  if s.frames[h].code.Start? && s.frames[h].code.b.Sleep? then later else now)
  {
    assert FrameOk(s, Some(h), h) && FrameTimed(x, s, now, h);
    match s.frames[h].code
    case Start(b) => StepBodyTimed(x, s, h, b, now, later);
    case Wrap(task, g, i) => StartWrapperTimed(x, s, now, h, task, g, i);
    case Awaiting(c, b) =>
      assert FrameTimed(x, s, now, c);
      TaskDoneTimed(x, s, now, h, c, b);
    case WrapAwaiting(c, g, i) =>
      assert FrameOk(s, Some(h), c) && GroupOk(s, g);
      WrapperDoneTimed(x, s, now, h, c, g, i);
    case Sleeping(w, b) => WakeTimed(x, s, now, h, w, b);
    case InGroup(g, b) =>
      assert GroupOk(s, g);
      GroupDoneTimed(x, s, now, h, g, b);
  }

  /** A sleeper whose entry has left the timer queue is due. */
  ghost predicate Due(s: Store, timers: multiset<Timer>, now: int) {
    forall h {:trigger s.frames[h]} :: 0 <= h < |s.frames| && s.frames[h].code.Sleeping? ==>
      timers[Timer(s.frames[h].code.when, h)] > 0 || s.frames[h].code.when <= now
  }

  /** A step puts no frame to sleep but with a timer in the future. */
  lemma {:induction false} StepSleepers(s: Store, h: Handle, now: int, later: int, ready: multiset<Handle>,
                                        timers: multiset<Timer>)
    requires Inv(s, Some(h), ready, timers)
    ensures var m := Step(s, h, now, later);
      AllAfter(m.sleeps, later) && forall k {:trigger m.store.frames[k]} ::
        0 <= k < |m.store.frames| && m.store.frames[k].code.Sleeping? ==>
          (k < |s.frames| && s.frames[k].code == m.store.frames[k].code)
            || Timer(m.store.frames[k].code.when, k) in m.sleeps
  {
    assert FrameOk(s, Some(h), h);
    match s.frames[h].code
    case Start(b) => StepBodySleepers(s, h, b, now, later);
    case WrapAwaiting(c, g, i) =>
      assert FrameOk(s, Some(h), c) && GroupOk(s, g);
      WrapperDoneStore(s, h, c, g, i, now);
    case InGroup(g, b) =>
      assert GroupOk(s, g);
      GroupDoneStore(s, h, g, b);
    case _ =>
  }

  lemma {:induction false} StepBodySleepers(s: Store, h: Handle, b: Body, now: int, later: int)
    requires h < |s.frames| && FrameOk(s, Some(h), h) && s.frames[h].code == Start(b)
    ensures var m := StepBody(s, h, b, now, later);
      AllAfter(m.sleeps, later) && forall k {:trigger m.store.frames[k]} ::
        0 <= k < |m.store.frames| && m.store.frames[k].code.Sleeping? ==>
          (k < |s.frames| && s.frames[k].code == m.store.frames[k].code)
            || Timer(m.store.frames[k].code.when, k) in m.sleeps
  {
  }

  lemma {:induction false} StepDue(s: Store, h: Handle, now: int, later: int, ready: multiset<Handle>,
                                   timers: multiset<Timer>)
    requires Inv(s, Some(h), ready, timers) && Due(s, timers, now)
    ensures var m := Step(s, h, now, later); Due(m.store, timers + multiset(m.sleeps), now) && AllAfter(m.sleeps, later)
  {
    StepSleepers(s, h, now, later, ready, timers);
    hide Step, Inv;
    var m := Step(s, h, now, later);
    forall k | 0 <= k < |m.store.frames| && m.store.frames[k].code.Sleeping?
      ensures (timers + multiset(m.sleeps))[Timer(m.store.frames[k].code.when, k)] > 0
              || m.store.frames[k].code.when <= now
    {
      if k < |s.frames| && s.frames[k].code == m.store.frames[k].code {
        assert timers[Timer(s.frames[k].code.when, k)] > 0 || s.frames[k].code.when <= now;
      }
    }
  }

  /** The executing frame has left both queues, so if it sleeps it is due. */
  lemma {:induction false} DueRuns(s: Store, h: Handle, now: int, ready: multiset<Handle>, timers: multiset<Timer>)
    requires Inv(s, Some(h), ready, timers) && Due(s, timers, now)
    ensures Awake(s, Some(h), now)
  {
    if s.frames[h].code.Sleeping? {
      assert timers[Timer(s.frames[h].code.when, h)] == 0;
    }
  }

  lemma {:induction false} DueLater(s: Store, timers: multiset<Timer>, now: int, later: int)
    requires Due(s, timers, now) && now <= later
    ensures Due(s, timers, later)
  {
  }

  /** One step in its place in a resumption. */
  lemma {:induction false} StepPasses(x: bool, s: Store, h: Handle, now: int, t: int, t': int,
                                      ready: multiset<Handle>, timers: multiset<Timer>)
    requires Inv(s, Some(h), ready, timers) && Timed(x, s, now) && Due(s, timers, now)
    requires Reads(x, now, t) && Reads(x, t, t')
    ensures var m := Step(s, h, t, t');
      Timed(x, m.store, t') && Due(m.store, timers + multiset(m.sleeps), t') && AllAfter(m.sleeps, t')
      && (m.sleeps == [] || m.run == None)
  {
    hide Step, Inv, Timed, Due;
    PassTimed(x, s, now, t);
    DueLater(s, timers, now, t);
    DueRuns(s, h, t, ready, timers);
    StepTimed(x, s, h, t, t', ready, timers);
    StepDue(s, h, t, t', ready, timers);
    var m := Step(s, h, t, t');
    DueLater(m.store, timers + multiset(m.sleeps), t, t');
    SleepReturns(s, h, t, t');
  }

  /** Going to sleep is the last thing a resumption does. */
  lemma {:induction false} SleepReturns(s: Store, h: Handle, now: int, later: int)
    ensures Step(s, h, now, later).sleeps == [] || Step(s, h, now, later).run == None
  {
  }

  lemma {:induction false} PaceReads(x: bool, now: int, pace: Pace)
    requires x ==> Standing(pace)
    ensures Reads(x, now, Begins(now, pace)) && Reads(x, Begins(now, pace), Passes(now, pace))
            && (x ==> Standing(Onward(pace)))
  {
  }

  /** Control is back at the scheduler, with the timed invariant in place. */
  ghost predicate TimedReturn(x: bool, l: Lapse<Store>, timers: multiset<Timer>) {
    && Timed(x, l.reaction.state, l.now) && Due(l.reaction.state, timers + multiset(l.reaction.sleeps), l.now)
    && AllAfter(l.reaction.sleeps, l.now)
  }

  lemma {:induction false} ReturnsTimed(x: bool, s: Store, now: int, timers: multiset<Timer>)
    requires Timed(x, s, now) && Due(s, timers, now)
    ensures TimedReturn(x, Lapse(Reaction(s, [], []), now), timers)
  {
    hide Timed, Due;
    assert timers + multiset([]) == timers;
  }

  /** A step before it: what a step schedules, it schedules last. */
  lemma {:induction false} ReturnsTimedAfter(x: bool, m: Move, t: int, l: Lapse<Store>, timers: multiset<Timer>)
    requires TimedReturn(x, l, timers + multiset(m.sleeps)) && AllAfter(m.sleeps, t)
    requires m.sleeps == [] || l == Lapse(Reaction(m.store, [], []), t)
    ensures TimedReturn(x, Lapse(Reaction(l.reaction.state, m.posts + l.reaction.posts, m.sleeps + l.reaction.sleeps),
                                 l.now), timers)
  {
    hide Timed, Due;
    assert timers + multiset(m.sleeps) + multiset(l.reaction.sleeps)
      == timers + multiset(m.sleeps + l.reaction.sleeps);
    if m.sleeps == [] {
      assert m.sleeps + l.reaction.sleeps == l.reaction.sleeps;
    } else {
      assert m.sleeps + l.reaction.sleeps == m.sleeps;
    }
  }

  lemma {:induction false} ExecTimed(x: bool, s: Store, run: Option<Handle>, now: int, pace: Pace, fuel: nat,
                                     ready: multiset<Handle>, timers: multiset<Timer>)
    requires Inv(s, run, ready, timers) && Mass(s.frames) <= fuel && Timed(x, s, now) && Due(s, timers, now)
    requires x ==> Standing(pace)
    ensures TimedReturn(x, Exec(s, run, now, pace, fuel), timers)
    decreases fuel
  {
    hide Step, Inv, Timed, Due, Standing, Begins, Passes, Onward, Reads, Mass, Escapes, TimedReturn, AllAfter;
    match run {
      case None => ReturnsTimed(x, s, now, timers);
      case Some(h) =>
        var t, t' := Begins(now, pace), Passes(now, pace);
        PaceReads(x, now, pace);
        StepMass(s, h, t, t', ready, timers);
        StepSafe(s, h, t, t', ready, timers);
        StepPasses(x, s, h, now, t, t', ready, timers);
        var m := Step(s, h, t, t');
        if Escapes(s, h) {
          ReturnsTimed(x, m.store, t', timers + multiset(m.sleeps));
        } else {
          ExecTimed(x, m.store, m.run, t', Onward(pace), fuel - 1, ready + multiset(m.posts),
                    timers + multiset(m.sleeps));
        }
        ReturnsTimedAfter(x, m, t', Exec(m.store, m.run, t', Onward(pace), fuel - 1), timers);
    }
  }

  /** Time passes while control is at the scheduler: under an exact clock only when nothing is runnable, and no
      further than the earliest sleeper. */
  lemma {:induction false} TickTimed(x: bool, s: Store, now: int, now': int, ready: multiset<Handle>,
                                     timers: multiset<Timer>)
    requires Inv(s, None, ready, timers) && Timed(x, s, now) && now <= now'
    requires x ==> now == now' || Quiet(s, None, now, now')
    ensures Timed(x, s, now')
  {
    if now != now' {
      forall k | 0 <= k < |s.frames| ensures FrameTimed(x, s, now', k) {
        FrameTicks(x, s, now, now', k);
      }
      forall g | 0 <= g < |s.groups| ensures GroupTimed(x, s, now', g) {
        assert GroupOk(s, g) && GroupTimed(x, s, now, g);
        if ParentWaits(s, g) {
          var p := s.groups[g].parent;
          assert FrameOk(s, None, p) && Runnable(s, p) == Resolved(s.groups[g]);
        }
      }
    }
  }

  lemma {:induction false} FrameTicks(x: bool, s: Store, now: int, now': int, k: Handle)
    requires k < |s.frames| && FramesOk(s, None) && FramesTimed(x, s, now) && now < now'
    requires x ==> Quiet(s, None, now, now')
    ensures FrameTimed(x, s, now', k)
  {
    assert FrameOk(s, None, k) && FrameTimed(x, s, now, k);
    var f := s.frames[k];
    if x {
      assert !Runnable(s, k);
      if f.code.Start? {
        assert Runnable(s, f.owner.wrapper);
      }
    } else if f.code.Start? {
      forall d | Ends(x, f.code.b, f.env, now', d) ensures OriginEnds(x, f.origin.value, d) {
        EndsFromEarlier(f.code.b, f.env, now, now', d);
      }
    }
  }
}
