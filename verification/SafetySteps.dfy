/** The safety invariant across each step of a single frame: per step, what its frames, then its queues, still
    satisfy. */
module SafetySteps {
  import opened Wrappers
  import opened Programs
  import opened Timers
  import opened Runtime
  import opened Safety

  /** The invariant holds after a move, with its posts and timers in the queues. */
  ghost predicate Safe(m: Move, ready: multiset<Handle>, timers: multiset<Timer>) {
    Inv(m.store, m.run, ready + multiset(m.posts), timers + multiset(m.sleeps))
  }

  /** A group is still in order when its wrappers are. */
  lemma {:induction false} GroupStays(s: Store, s': Store, g: nat)
    requires g < |s.groups| && g < |s'.groups| && s'.groups[g] == s.groups[g] && GroupOk(s, g)
    requires |s.frames| <= |s'.frames|
    requires ParentWaits(s', g) ==> ParentWaits(s, g)
    requires s.groups[g].Race? && s.groups[g].winner.None? ==> ParentWaits(s', g)
    requires forall i {:trigger WrapperOk(s', g, i)} ::
               (0 <= i < |s.groups[g].Children()| && ParentWaits(s', g)
               && (s.groups[g].Race? ==> s.groups[g].winner.None?) && WrapperOk(s, g, i)) ==> WrapperOk(s', g, i)
    ensures GroupOk(s', g)
  {
  }

  lemma {:induction false} FinishOwner(s: Store, h: Handle, o: Outcome, now: int, k: Handle)
    requires h < |s.frames| && RunOk(s, Some(h)) && s.frames[h].code.Start? && FrameOk(s, Some(h), h)
    requires k < |s.frames| && k != h && OwnerOk(s, k)
    ensures OwnerOk(Finish(s, h, o, now).store, k)
  {
  }

  lemma {:induction false} ContinueCode(s: Store, h: Handle, env: Env, b: Body, k: Handle)
    requires h < |s.frames| && RunOk(s, Some(h)) && (s.frames[h].code.Start? || s.frames[h].code.Sleeping?)
    requires FrameOk(s, Some(h), h)
    requires k < |s.frames| && FrameOk(s, Some(h), k)
    ensures var m := Continue(s, h, env, b); k < |m.store.frames| && CodeOk(m.store, m.run, k)
  {
  }

  lemma {:induction false} ContinueOwner(s: Store, h: Handle, env: Env, b: Body, k: Handle)
    requires h < |s.frames| && RunOk(s, Some(h)) && (s.frames[h].code.Start? || s.frames[h].code.Sleeping?)
    requires FrameOk(s, Some(h), h)
    requires k < |s.frames| && FrameOk(s, Some(h), k)
    ensures var m := Continue(s, h, env, b);
      k < |m.store.frames| && (!m.store.frames[k].code.Destroyed? ==> OwnerOk(m.store, k))
  {
  }

  lemma {:induction false} ContinueFrame(s: Store, h: Handle, env: Env, b: Body, k: Handle)
    requires h < |s.frames| && RunOk(s, Some(h)) && (s.frames[h].code.Start? || s.frames[h].code.Sleeping?)
    requires FrameOk(s, Some(h), h)
    requires k < |s.frames| && FrameOk(s, Some(h), k)
    ensures var m := Continue(s, h, env, b); k < |m.store.frames| && FrameOk(m.store, m.run, k)
  {
    hide CodeOk, OwnerOk;
    ContinueCode(s, h, env, b, k);
    ContinueOwner(s, h, env, b, k);
  }

  lemma {:induction false} ContinueQueues(s: Store, h: Handle, env: Env, b: Body, ready: multiset<Handle>,
                                          timers: multiset<Timer>)
    requires h < |s.frames| && RunOk(s, Some(h)) && (s.frames[h].code.Start? || s.frames[h].code.Sleeping?)
    requires FrameOk(s, Some(h), h)
    requires ReadyOk(s, Some(h), ready, timers) && TimersOk(s, Some(h), timers)
    ensures var m := Continue(s, h, env, b);
      var timers' := timers + multiset(m.sleeps);
      ReadyOk(m.store, m.run, ready + multiset(m.posts), timers') && TimersOk(m.store, m.run, timers')
  {
  }

  lemma {:induction false} ContinueSafe(s: Store, h: Handle, env: Env, b: Body, ready: multiset<Handle>,
                                        timers: multiset<Timer>)
    requires Inv(s, Some(h), ready, timers)
    requires (s.frames[h].code.Start? || s.frames[h].code.Sleeping?)
    ensures Safe(Continue(s, h, env, b), ready, timers)
  {
    assert FrameOk(s, Some(h), h);
    var m := Continue(s, h, env, b);
    var s' := m.store;
    forall k | 0 <= k < |s'.frames| ensures FrameOk(s', m.run, k) {
      if k < |s.frames| {
        ContinueFrame(s, h, env, b, k);
      }
    }
    forall g | 0 <= g < |s'.groups| ensures GroupOk(s', g) {
      assert GroupOk(s, g);
      GroupStays(s, s', g);
    }
    ContinueQueues(s, h, env, b, ready, timers);
  }

  lemma {:induction false} FinishFrame(s: Store, h: Handle, o: Outcome, now: int, k: Handle)
    requires h < |s.frames| && RunOk(s, Some(h)) && s.frames[h].code.Start? && (s.frames[h].owner.Itself? ==> o.Value?)
    requires FrameOk(s, Some(h), h)
    requires k < |s.frames| && FrameOk(s, Some(h), k)
    ensures var m := Finish(s, h, o, now); k < |m.store.frames| && FrameOk(m.store, m.run, k)
  {
    FinishCode(s, h, o, now, k);
    if k == h {
      FinishSelf(s, h, o, now);
    } else if !s.frames[k].code.Destroyed? {
      FinishOwner(s, h, o, now, k);
    }
    hide CodeOk, OwnerOk;
  }

  lemma {:induction false} FinishCode(s: Store, h: Handle, o: Outcome, now: int, k: Handle)
    requires h < |s.frames| && RunOk(s, Some(h)) && s.frames[h].code.Start? && (s.frames[h].owner.Itself? ==> o.Value?)
    requires FrameOk(s, Some(h), h) && k < |s.frames| && FrameOk(s, Some(h), k)
    ensures var m := Finish(s, h, o, now); k < |m.store.frames| && CodeOk(m.store, m.run, k)
  {
  }

  lemma {:induction false} FinishSelf(s: Store, h: Handle, o: Outcome, now: int)
    requires h < |s.frames| && RunOk(s, Some(h)) && s.frames[h].code.Start? && FrameOk(s, Some(h), h)
    ensures var s' := Finish(s, h, o, now).store; !s'.frames[h].code.Destroyed? ==> OwnerOk(s', h)
  {
  }

  lemma {:induction false} FinishQueues(s: Store, h: Handle, o: Outcome, now: int, ready: multiset<Handle>,
                                        timers: multiset<Timer>)
    requires h < |s.frames| && RunOk(s, Some(h)) && s.frames[h].code.Start? && (s.frames[h].owner.Itself? ==> o.Value?)
    requires FrameOk(s, Some(h), h)
    requires ReadyOk(s, Some(h), ready, timers) && TimersOk(s, Some(h), timers)
    ensures var m := Finish(s, h, o, now);
      var timers' := timers + multiset(m.sleeps);
      ReadyOk(m.store, m.run, ready + multiset(m.posts), timers') && TimersOk(m.store, m.run, timers')
  {
  }

  lemma {:induction false} FinishSafe(s: Store, h: Handle, o: Outcome, now: int, ready: multiset<Handle>,
                                      timers: multiset<Timer>)
    requires Inv(s, Some(h), ready, timers)
    requires s.frames[h].code.Start? && (s.frames[h].owner.Itself? ==> o.Value?)
    ensures Safe(Finish(s, h, o, now), ready, timers)
  {
    assert FrameOk(s, Some(h), h);
    var m := Finish(s, h, o, now);
    var s' := m.store;
    forall k | 0 <= k < |s'.frames| ensures FrameOk(s', m.run, k) {
      if k < |s.frames| {
        FinishFrame(s, h, o, now, k);
      }
    }
    forall g | 0 <= g < |s'.groups| ensures GroupOk(s', g) {
      assert GroupOk(s, g);
      GroupStays(s, s', g);
    }
    FinishQueues(s, h, o, now, ready, timers);
  }

  lemma {:induction false} AwaitTaskCode(s: Store, h: Handle, b: Body, now: int, k: Handle)
    requires h < |s.frames| && RunOk(s, Some(h)) && b.Await? && s.frames[h].code == Start(b)
    requires FrameOk(s, Some(h), h)
    requires k < |s.frames| && FrameOk(s, Some(h), k)
    ensures var m := AwaitTask(s, h, b, now); k < |m.store.frames| && CodeOk(m.store, m.run, k)
  {
  }

  lemma {:induction false} AwaitTaskOwner(s: Store, h: Handle, b: Body, now: int, k: Handle)
    requires h < |s.frames| && RunOk(s, Some(h)) && b.Await? && s.frames[h].code == Start(b)
    requires FrameOk(s, Some(h), h)
    requires k < |s.frames| && FrameOk(s, Some(h), k)
    ensures var m := AwaitTask(s, h, b, now);
      k < |m.store.frames| && (!m.store.frames[k].code.Destroyed? ==> OwnerOk(m.store, k))
  {
  }

  lemma {:induction false} AwaitTaskFrame(s: Store, h: Handle, b: Body, now: int, k: Handle)
    requires h < |s.frames| && RunOk(s, Some(h)) && b.Await? && s.frames[h].code == Start(b)
    requires FrameOk(s, Some(h), h)
    requires k < |s.frames| && FrameOk(s, Some(h), k)
    ensures var m := AwaitTask(s, h, b, now); k < |m.store.frames| && FrameOk(m.store, m.run, k)
  {
    hide CodeOk, OwnerOk;
    AwaitTaskCode(s, h, b, now, k);
    AwaitTaskOwner(s, h, b, now, k);
  }

  lemma {:induction false} AwaitTaskQueues(s: Store, h: Handle, b: Body, now: int, ready: multiset<Handle>,
                                           timers: multiset<Timer>)
    requires h < |s.frames| && RunOk(s, Some(h)) && b.Await? && s.frames[h].code == Start(b)
    requires FrameOk(s, Some(h), h)
    requires ReadyOk(s, Some(h), ready, timers) && TimersOk(s, Some(h), timers)
    ensures var m := AwaitTask(s, h, b, now);
      var timers' := timers + multiset(m.sleeps);
      ReadyOk(m.store, m.run, ready + multiset(m.posts), timers') && TimersOk(m.store, m.run, timers')
  {
  }

  lemma {:induction false} AwaitTaskSafe(s: Store, h: Handle, b: Body, now: int, ready: multiset<Handle>,
                                         timers: multiset<Timer>)
    requires Inv(s, Some(h), ready, timers)
    requires b.Await? && s.frames[h].code == Start(b)
    ensures Safe(AwaitTask(s, h, b, now), ready, timers)
  {
    assert FrameOk(s, Some(h), h);
    var m := AwaitTask(s, h, b, now);
    var s' := m.store;
    forall k | 0 <= k < |s'.frames| ensures FrameOk(s', m.run, k) {
      if k < |s.frames| {
        AwaitTaskFrame(s, h, b, now, k);
      }
    }
    forall g | 0 <= g < |s'.groups| ensures GroupOk(s', g) {
      assert GroupOk(s, g);
      GroupStays(s, s', g);
    }
    AwaitTaskQueues(s, h, b, now, ready, timers);
  }

  lemma {:induction false} ParkCode(s: Store, h: Handle, b: Body, now: int, later: int, k: Handle)
    requires h < |s.frames| && RunOk(s, Some(h)) && b.Sleep? && s.frames[h].code == Start(b)
             && now + b.duration(s.frames[h].env) > later
    requires FrameOk(s, Some(h), h)
    requires k < |s.frames| && FrameOk(s, Some(h), k)
    ensures var m := SleepFor(s, h, b, now, later); k < |m.store.frames| && CodeOk(m.store, m.run, k)
  {
  }

  lemma {:induction false} ParkOwner(s: Store, h: Handle, b: Body, now: int, later: int, k: Handle)
    requires h < |s.frames| && RunOk(s, Some(h)) && b.Sleep? && s.frames[h].code == Start(b)
             && now + b.duration(s.frames[h].env) > later
    requires FrameOk(s, Some(h), h)
    requires k < |s.frames| && FrameOk(s, Some(h), k)
    ensures var m := SleepFor(s, h, b, now, later);
      k < |m.store.frames| && (!m.store.frames[k].code.Destroyed? ==> OwnerOk(m.store, k))
  {
  }

  lemma {:induction false} ParkFrame(s: Store, h: Handle, b: Body, now: int, later: int, k: Handle)
    requires h < |s.frames| && RunOk(s, Some(h)) && b.Sleep? && s.frames[h].code == Start(b)
             && now + b.duration(s.frames[h].env) > later
    requires FrameOk(s, Some(h), h)
    requires k < |s.frames| && FrameOk(s, Some(h), k)
    ensures var m := SleepFor(s, h, b, now, later); k < |m.store.frames| && FrameOk(m.store, m.run, k)
  {
    hide CodeOk, OwnerOk;
    ParkCode(s, h, b, now, later, k);
    ParkOwner(s, h, b, now, later, k);
  }

  lemma {:induction false} ParkQueues(s: Store, h: Handle, b: Body, now: int, later: int, ready: multiset<Handle>,
                                      timers: multiset<Timer>)
    requires h < |s.frames| && RunOk(s, Some(h)) && b.Sleep? && s.frames[h].code == Start(b)
             && now + b.duration(s.frames[h].env) > later
    requires FrameOk(s, Some(h), h)
    requires ReadyOk(s, Some(h), ready, timers) && TimersOk(s, Some(h), timers)
    ensures var m := SleepFor(s, h, b, now, later);
      var timers' := timers + multiset(m.sleeps);
      ReadyOk(m.store, m.run, ready + multiset(m.posts), timers') && TimersOk(m.store, m.run, timers')
  {
  }

  lemma {:induction false} ParkSafe(s: Store, h: Handle, b: Body, now: int, later: int, ready: multiset<Handle>,
                                    timers: multiset<Timer>)
    requires Inv(s, Some(h), ready, timers)
    requires b.Sleep? && s.frames[h].code == Start(b) && now + b.duration(s.frames[h].env) > later
    ensures Safe(SleepFor(s, h, b, now, later), ready, timers)
  {
    assert FrameOk(s, Some(h), h);
    var m := SleepFor(s, h, b, now, later);
    var s' := m.store;
    forall k | 0 <= k < |s'.frames| ensures FrameOk(s', m.run, k) {
      if k < |s.frames| {
        ParkFrame(s, h, b, now, later, k);
      }
    }
    forall g | 0 <= g < |s'.groups| ensures GroupOk(s', g) {
      assert GroupOk(s, g);
      GroupStays(s, s', g);
    }
    ParkQueues(s, h, b, now, later, ready, timers);
  }

  lemma {:induction false} SpawnTaskCode(s: Store, h: Handle, b: Body, now: int, k: Handle)
    requires h < |s.frames| && RunOk(s, Some(h)) && b.Spawn? && s.frames[h].code == Start(b)
    requires FrameOk(s, Some(h), h)
    requires k < |s.frames| && FrameOk(s, Some(h), k)
    ensures var m := SpawnTask(s, h, b, now); k < |m.store.frames| && CodeOk(m.store, m.run, k)
  {
  }

  lemma {:induction false} SpawnTaskOwner(s: Store, h: Handle, b: Body, now: int, k: Handle)
    requires h < |s.frames| && RunOk(s, Some(h)) && b.Spawn? && s.frames[h].code == Start(b)
    requires FrameOk(s, Some(h), h)
    requires k < |s.frames| && FrameOk(s, Some(h), k)
    ensures var m := SpawnTask(s, h, b, now);
      k < |m.store.frames| && (!m.store.frames[k].code.Destroyed? ==> OwnerOk(m.store, k))
  {
  }

  lemma {:induction false} SpawnTaskFrame(s: Store, h: Handle, b: Body, now: int, k: Handle)
    requires h < |s.frames| && RunOk(s, Some(h)) && b.Spawn? && s.frames[h].code == Start(b)
    requires FrameOk(s, Some(h), h)
    requires k < |s.frames| && FrameOk(s, Some(h), k)
    ensures var m := SpawnTask(s, h, b, now); k < |m.store.frames| && FrameOk(m.store, m.run, k)
  {
    hide CodeOk, OwnerOk;
    SpawnTaskCode(s, h, b, now, k);
    SpawnTaskOwner(s, h, b, now, k);
  }

  lemma {:induction false} SpawnTaskQueues(s: Store, h: Handle, b: Body, now: int, ready: multiset<Handle>,
                                           timers: multiset<Timer>)
    requires h < |s.frames| && RunOk(s, Some(h)) && b.Spawn? && s.frames[h].code == Start(b)
    requires FrameOk(s, Some(h), h)
    requires ReadyOk(s, Some(h), ready, timers) && TimersOk(s, Some(h), timers)
    ensures var m := SpawnTask(s, h, b, now);
      var timers' := timers + multiset(m.sleeps);
      ReadyOk(m.store, m.run, ready + multiset(m.posts), timers') && TimersOk(m.store, m.run, timers')
  {
  }

  lemma {:induction false} SpawnTaskSafe(s: Store, h: Handle, b: Body, now: int, ready: multiset<Handle>,
                                         timers: multiset<Timer>)
    requires Inv(s, Some(h), ready, timers)
    requires b.Spawn? && s.frames[h].code == Start(b)
    ensures Safe(SpawnTask(s, h, b, now), ready, timers)
  {
    assert FrameOk(s, Some(h), h);
    var m := SpawnTask(s, h, b, now);
    var s' := m.store;
    forall k | 0 <= k < |s'.frames| ensures FrameOk(s', m.run, k) {
      if k < |s.frames| {
        SpawnTaskFrame(s, h, b, now, k);
      }
    }
    forall g | 0 <= g < |s'.groups| ensures GroupOk(s', g) {
      assert GroupOk(s, g);
      GroupStays(s, s', g);
    }
    SpawnTaskQueues(s, h, b, now, ready, timers);
  }

  lemma {:induction false} StartWrapperCode(s: Store, h: Handle, task: Handle, g: nat, i: nat, now: int, k: Handle)
    requires h < |s.frames| && RunOk(s, Some(h)) && s.frames[h].code == Wrap(task, g, i)
    requires FrameOk(s, Some(h), h)
    requires k < |s.frames| && FrameOk(s, Some(h), k)
    ensures var m := StartWrapper(s, h, task, g, i, now); k < |m.store.frames| && CodeOk(m.store, m.run, k)
  {
  }

  lemma {:induction false} StartWrapperOwner(s: Store, h: Handle, task: Handle, g: nat, i: nat, now: int, k: Handle)
    requires h < |s.frames| && RunOk(s, Some(h)) && s.frames[h].code == Wrap(task, g, i)
    requires FrameOk(s, Some(h), h)
    requires k < |s.frames| && FrameOk(s, Some(h), k)
    ensures var m := StartWrapper(s, h, task, g, i, now);
      k < |m.store.frames| && (!m.store.frames[k].code.Destroyed? ==> OwnerOk(m.store, k))
  {
  }

  lemma {:induction false} StartWrapperFrame(s: Store, h: Handle, task: Handle, g: nat, i: nat, now: int, k: Handle)
    requires h < |s.frames| && RunOk(s, Some(h)) && s.frames[h].code == Wrap(task, g, i)
    requires FrameOk(s, Some(h), h)
    requires k < |s.frames| && FrameOk(s, Some(h), k)
    ensures var m := StartWrapper(s, h, task, g, i, now); k < |m.store.frames| && FrameOk(m.store, m.run, k)
  {
    hide CodeOk, OwnerOk;
    StartWrapperCode(s, h, task, g, i, now, k);
    StartWrapperOwner(s, h, task, g, i, now, k);
  }

  lemma {:induction false} StartWrapperQueues(s: Store, h: Handle, task: Handle, g: nat, i: nat, now: int,
                                              ready: multiset<Handle>, timers: multiset<Timer>)
    requires h < |s.frames| && RunOk(s, Some(h)) && s.frames[h].code == Wrap(task, g, i)
    requires FrameOk(s, Some(h), h)
    requires ReadyOk(s, Some(h), ready, timers) && TimersOk(s, Some(h), timers)
    ensures var m := StartWrapper(s, h, task, g, i, now);
      var timers' := timers + multiset(m.sleeps);
      ReadyOk(m.store, m.run, ready + multiset(m.posts), timers') && TimersOk(m.store, m.run, timers')
  {
  }

  lemma {:induction false} StartWrapperSafe(s: Store, h: Handle, task: Handle, g: nat, i: nat, now: int,
                                            ready: multiset<Handle>, timers: multiset<Timer>)
    requires Inv(s, Some(h), ready, timers)
    requires s.frames[h].code == Wrap(task, g, i)
    ensures Safe(StartWrapper(s, h, task, g, i, now), ready, timers)
  {
    assert FrameOk(s, Some(h), h);
    var m := StartWrapper(s, h, task, g, i, now);
    var s' := m.store;
    forall k | 0 <= k < |s'.frames| ensures FrameOk(s', m.run, k) {
      if k < |s.frames| {
        StartWrapperFrame(s, h, task, g, i, now, k);
      }
    }
    forall g | 0 <= g < |s'.groups| ensures GroupOk(s', g) {
      assert GroupOk(s, g);
      GroupStays(s, s', g);
    }
    StartWrapperQueues(s, h, task, g, i, now, ready, timers);
  }

  lemma {:induction false} TaskDoneCode(s: Store, h: Handle, c: Handle, b: Body, k: Handle)
    requires h < |s.frames| && RunOk(s, Some(h)) && s.frames[h].code == Awaiting(c, b) && b.Await?
    requires FrameOk(s, Some(h), h)
    requires k < |s.frames| && FrameOk(s, Some(h), k)
    ensures var m := TaskDone(s, h, c, b); k < |m.store.frames| && CodeOk(m.store, m.run, k)
  {
  }

  lemma {:induction false} TaskDoneOwner(s: Store, h: Handle, c: Handle, b: Body, k: Handle)
    requires h < |s.frames| && RunOk(s, Some(h)) && s.frames[h].code == Awaiting(c, b) && b.Await?
    requires FrameOk(s, Some(h), h)
    requires k < |s.frames| && FrameOk(s, Some(h), k)
    ensures var m := TaskDone(s, h, c, b);
      k < |m.store.frames| && (!m.store.frames[k].code.Destroyed? ==> OwnerOk(m.store, k))
  {
  }

  lemma {:induction false} TaskDoneFrame(s: Store, h: Handle, c: Handle, b: Body, k: Handle)
    requires h < |s.frames| && RunOk(s, Some(h)) && s.frames[h].code == Awaiting(c, b) && b.Await?
    requires FrameOk(s, Some(h), h)
    requires k < |s.frames| && FrameOk(s, Some(h), k)
    ensures var m := TaskDone(s, h, c, b); k < |m.store.frames| && FrameOk(m.store, m.run, k)
  {
    hide CodeOk, OwnerOk;
    TaskDoneCode(s, h, c, b, k);
    TaskDoneOwner(s, h, c, b, k);
  }

  lemma {:induction false} TaskDoneQueues(s: Store, h: Handle, c: Handle, b: Body, ready: multiset<Handle>,
                                          timers: multiset<Timer>)
    requires h < |s.frames| && RunOk(s, Some(h)) && s.frames[h].code == Awaiting(c, b) && b.Await?
    requires FrameOk(s, Some(h), h)
    requires ReadyOk(s, Some(h), ready, timers) && TimersOk(s, Some(h), timers)
    ensures var m := TaskDone(s, h, c, b);
      var timers' := timers + multiset(m.sleeps);
      ReadyOk(m.store, m.run, ready + multiset(m.posts), timers') && TimersOk(m.store, m.run, timers')
  {
  }

  lemma {:induction false} TaskDoneSafe(s: Store, h: Handle, c: Handle, b: Body, ready: multiset<Handle>,
                                        timers: multiset<Timer>)
    requires Inv(s, Some(h), ready, timers)
    requires s.frames[h].code == Awaiting(c, b) && b.Await?
    ensures Safe(TaskDone(s, h, c, b), ready, timers)
  {
    assert FrameOk(s, Some(h), h);
    var m := TaskDone(s, h, c, b);
    var s' := m.store;
    forall k | 0 <= k < |s'.frames| ensures FrameOk(s', m.run, k) {
      if k < |s.frames| {
        TaskDoneFrame(s, h, c, b, k);
      }
    }
    forall g | 0 <= g < |s'.groups| ensures GroupOk(s', g) {
      assert GroupOk(s, g);
      GroupStays(s, s', g);
    }
    TaskDoneQueues(s, h, c, b, ready, timers);
  }

}
