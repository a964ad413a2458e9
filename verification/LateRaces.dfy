/** Who wins a race under any clock: the child that ends first in that run. */
module LateRaces {
  import opened Wrappers
  import opened Programs
  import opened Meaning
  import opened Timers
  import opened Runtime
  import opened Safety
  import opened SafetyGroups
  import opened Execution
  import opened Timing
  import TimingSteps
  import opened TimedExecution
  import opened Scheduling
  import opened WholeRuns
  import opened History

  /** The frame of child `i`. */
  ghost function ChildAt(group: Group, i: nat): Handle {
    group.first + |group.Children()| + i
  }

  ghost predicate HasEnded(s: Store, k: Handle) {
    k < |s.frames| && (s.frames[k].code.Finished? || s.frames[k].code.Destroyed?)
  }

  /** Wrapper `i` has yet to report on its child. */
  ghost predicate Unreported(s: Store, group: Group, g: nat, i: nat) {
    var w, c := group.first + i, ChildAt(group, i);
    c < |s.frames| && (s.frames[w].code == Wrap(c, g, i) || s.frames[w].code == WrapAwaiting(c, g, i))
  }

  /** Child `j` has not ended, or ended no earlier than `at`. */
  ghost predicate NoEarlier(s: Store, group: Group, j: nat, at: int) {
    ChildAt(group, j) < |s.frames| && (HasEnded(s, ChildAt(group, j)) ==> at <= s.frames[ChildAt(group, j)].since)
  }

  /** Nobody has reported on an open race.  The winner of a decided one ended as recorded, by the time recorded, and no
      other child ended before that time. */
  ghost predicate FirstWins(s: Store, now: int, g: nat)
    requires g < |s.groups|
  {
    var group := s.groups[g];
    group.Race? ==>
      match group.winner
      case None =>
        forall i {:trigger Unreported(s, group, g, i)} :: 0 <= i < |group.Children()| ==> Unreported(s, group, g, i)
      case Some((i, d)) =>
        var c := ChildAt(group, i);
        && i < |group.Children()| && d.at <= now
        && HasEnded(s, c) && s.frames[c].code.o == d.o && s.frames[c].since <= d.at
        && forall j {:trigger NoEarlier(s, group, j, d.at)} :: 0 <= j < |group.Children()| && j != i ==>
             NoEarlier(s, group, j, d.at)
  }

  ghost predicate AllFirstWins(s: Store, now: int) {
    forall g {:trigger FirstWins(s, now, g)} :: 0 <= g < |s.groups| ==> FirstWins(s, now, g)
  }

  lemma {:induction false} FirstWinsLater(s: Store, now: int, later: int)
    requires AllFirstWins(s, now) && now <= later
    ensures AllFirstWins(s, later)
  {
    forall g | 0 <= g < |s.groups| ensures FirstWins(s, later, g) {
      assert FirstWins(s, now, g);
    }
  }

  // ---- Steps ----

  /** What ends in a step is the executing frame, and it does so now. */
  lemma {:induction false} EndsNow(s: Store, h: Handle, now: int, later: int, k: Handle)
    requires h < |s.frames| && k < |s.frames| && !HasEnded(s, k)
    ensures var s' := Step(s, h, now, later).store; HasEnded(s', k) ==> k == h && s'.frames[k].since == now
  {
    if k != h {
      OthersStay(s, h, now, later, k);
    } else {
      match s.frames[h].code
      case Start(b) => BodyEndsNow(s, h, b, now, later);
      case _ =>
    }
  }

  lemma {:induction false} BodyEndsNow(s: Store, h: Handle, b: Body, now: int, later: int)
    requires h < |s.frames| && s.frames[h].code == Start(b)
    ensures var s' := StepBody(s, h, b, now, later).store; HasEnded(s', h) ==> s'.frames[h].since == now
  {
    hide Fork;
    if b.All? || b.Any? {
      ForkStore(s, h, b, now);
    }
  }

  lemma {:induction false} StaysNoEarlier(s: Store, h: Handle, now: int, later: int, group: Group, j: nat, at: int)
    requires h < |s.frames| && NoEarlier(s, group, j, at) && at <= now
    ensures NoEarlier(Step(s, h, now, later).store, group, j, at)
  {
    hide Step;
    var c := ChildAt(group, j);
    StepRemembers(s, h, now, later);
    assert Outlives(s.frames[c], Step(s, h, now, later).store.frames[c]);
    if !HasEnded(s, c) {
      EndsNow(s, h, now, later, c);
    }
  }

  /** A decided race. */
  lemma {:induction false} WonStays(s: Store, h: Handle, now: int, later: int, g: nat)
    requires h < |s.frames| && g < |s.groups| && s.groups[g].Race? && s.groups[g].winner.Some?
    requires FirstWins(s, now, g) && now <= later
    ensures var s' := Step(s, h, now, later).store; g < |s'.groups| && FirstWins(s', later, g)
  {
    hide Step;
    var s', group := Step(s, h, now, later).store, s.groups[g];
    var (i, d) := group.winner.value;
    StepRemembers(s, h, now, later);
    assert Settles(group, s'.groups[g]);
    assert Outlives(s.frames[ChildAt(group, i)], s'.frames[ChildAt(group, i)]);
    forall j | 0 <= j < |group.Children()| && j != i ensures NoEarlier(s', group, j, d.at) {
      assert NoEarlier(s, group, j, d.at);
      StaysNoEarlier(s, h, now, later, group, j, d.at);
    }
  }

  /** A child that has not been reported on has not ended, unless control is just passing to its wrapper. */
  lemma {:induction false} UnreportedRuns(s: Store, h: Handle, group: Group, g: nat, j: nat)
    requires FramesOk(s, Some(h)) && Unreported(s, group, g, j) && group.first + j != h
    ensures NoEarlier(s, group, j, s.frames[ChildAt(group, j)].since) && !HasEnded(s, ChildAt(group, j))
  {
    assert FrameOk(s, Some(h), group.first + j);
  }

  /** The first report decides the race. */
  lemma {:induction false} FirstReported(x: bool, s: Store, h: Handle, now: int, later: int, g: nat, j: nat,
                                         ready: multiset<Handle>, timers: multiset<Timer>)
    requires Inv(s, Some(h), ready, timers) && FrameTimed(x, s, now, h) && now <= later
    requires g < |s.groups| && s.groups[g].Race? && s.groups[g].winner.None? && FirstWins(s, now, g)
    requires j < |s.groups[g].Children()| && h == s.groups[g].first + j && s.frames[h].code.WrapAwaiting?
    ensures var s' := Step(s, h, now, later).store; g < |s'.groups| && FirstWins(s', later, g)
  {
    var group := s.groups[g];
    var c := ChildAt(group, j);
    assert FrameOk(s, Some(h), h) && GroupOk(s, g) && Unreported(s, group, g, j);
    assert FrameOk(s, Some(h), c);
    WrapperDoneStore(s, h, c, g, j, now);
    var s' := Step(s, h, now, later).store;
    assert s'.groups[g].Children() == group.Children();
    forall k | 0 <= k < |group.Children()| && k != j ensures NoEarlier(s', s'.groups[g], k, now) {
      assert Unreported(s, group, g, k);
      UnreportedRuns(s, h, group, g, k);
      EndsNow(s, h, now, later, ChildAt(group, k));
    }
  }

  /** An open race on which nobody reports in this step. */
  lemma {:induction false} OpenStays(s: Store, h: Handle, now: int, later: int, g: nat)
    requires FramesOk(s, Some(h)) && h < |s.frames| && g < |s.groups| && s.groups[g].Race? && s.groups[g].winner.None?
    requires FirstWins(s, now, g)
    requires s.frames[h].code.WrapAwaiting? ==> s.frames[h].code.group != g
    ensures var s' := Step(s, h, now, later).store; g < |s'.groups| && FirstWins(s', later, g)
  {
    var s', group := Step(s, h, now, later).store, s.groups[g];
    GroupUntouched(s, h, now, later, g);
    forall i | 0 <= i < |group.Children()| ensures Unreported(s', group, g, i) {
      assert Unreported(s, group, g, i);
      StaysUnreported(s, h, now, later, group, g, i);
    }
  }

  lemma {:induction false} GroupUntouched(s: Store, h: Handle, now: int, later: int, g: nat)
    requires h < |s.frames| && g < |s.groups|
    requires s.frames[h].code.WrapAwaiting? ==> s.frames[h].code.group != g
    ensures var s' := Step(s, h, now, later).store; g < |s'.groups| && s'.groups[g] == s.groups[g]
  {
    match s.frames[h].code
    case Start(b) => BodyTouchesNoGroup(s, h, b, now, later, g);
    case _ =>
  }

  lemma {:induction false} StaysUnreported(s: Store, h: Handle, now: int, later: int, group: Group, g: nat, i: nat)
    requires FramesOk(s, Some(h)) && h < |s.frames| && Unreported(s, group, g, i)
    requires s.frames[h].code.WrapAwaiting? ==> s.frames[h].code.group != g
    ensures Unreported(Step(s, h, now, later).store, group, g, i)
  {
    var w := group.first + i;
    if w == h {
      assert FrameOk(s, Some(h), h);
    } else {
      StepRemembers(s, h, now, later);
      OthersStay(s, h, now, later, w);
      hide Step;
    }
  }

  /** A race is open when it is forked. */
  lemma {:induction false} ForkedOpen(s: Store, h: Handle, now: int, later: int, g: nat)
    requires h < |s.frames| && |s.groups| <= g < |Step(s, h, now, later).store.groups|
    ensures FirstWins(Step(s, h, now, later).store, later, g)
  {
    match s.frames[h].code
    case Start(b) => BodyForksOpen(s, h, b, now, later, g);
    case _ =>
  }

  lemma {:induction false} BodyForksOpen(s: Store, h: Handle, b: Body, now: int, later: int, g: nat)
    requires h < |s.frames| && |s.groups| <= g < |StepBody(s, h, b, now, later).store.groups|
    ensures FirstWins(StepBody(s, h, b, now, later).store, later, g)
  {
    hide Fork;
    if b.All? || b.Any? {
      ForkStore(s, h, b, now);
      var s' := Fork(s, h, b, now).store;
      var group := s'.groups[g];
      forall i | 0 <= i < |group.Children()| && group.Race? ensures Unreported(s', group, g, i) {
        assert group.Children() == b.children;
        assert s'.frames[group.first + i].code == Wrap(ChildAt(group, i), g, i);
      }
    }
  }

  lemma {:induction false} StepFirstWins(x: bool, s: Store, h: Handle, now: int, later: int, ready: multiset<Handle>,
                                         timers: multiset<Timer>)
    requires Inv(s, Some(h), ready, timers) && Timed(x, s, now) && AllFirstWins(s, now) && now <= later
    ensures AllFirstWins(Step(s, h, now, later).store, later)
  {
    hide Step, ReadyOk, TimersOk;
    var s' := Step(s, h, now, later).store;
    assert FrameOk(s, Some(h), h) && FrameTimed(x, s, now, h);
    StepRemembers(s, h, now, later);
    forall g | 0 <= g < |s'.groups| ensures FirstWins(s', later, g) {
      if g >= |s.groups| {
        ForkedOpen(s, h, now, later, g);
      } else {
        assert FirstWins(s, now, g) && Settles(s.groups[g], s'.groups[g]);
        if s.groups[g].Race? {
          if s.groups[g].winner.Some? {
            WonStays(s, h, now, later, g);
          } else if s.frames[h].code.WrapAwaiting? && s.frames[h].code.group == g {
            FirstReported(x, s, h, now, later, g, s.frames[h].code.index, ready, timers);
          } else {
            OpenStays(s, h, now, later, g);
          }
        }
      }
    }
  }

  // ---- Whole runs ----

  lemma {:induction false} ExecFirstWins(x: bool, s: Store, run: Option<Handle>, now: int, pace: Pace, fuel: nat,
                                         ready: multiset<Handle>, timers: multiset<Timer>)
    requires Inv(s, run, ready, timers) && Mass(s.frames) <= fuel && Timed(x, s, now) && Due(s, timers, now)
    requires AllFirstWins(s, now) && (x ==> Standing(pace))
    ensures var l := Exec(s, run, now, pace, fuel); AllFirstWins(l.reaction.state, l.now)
    decreases fuel
  {
    hide Step, Inv, Timed, Due, AllFirstWins, Standing, Begins, Passes, Onward, Reads, Mass, Escapes;
    if run.Some? {
      var h, t, t' := run.value, Begins(now, pace), Passes(now, pace);
      var m := Step(s, h, t, t');
      PaceReads(x, now, pace);
      StepMass(s, h, t, t', ready, timers);
      StepSafe(s, h, t, t', ready, timers);
      StepPasses(x, s, h, now, t, t', ready, timers);
      StepInPlace(x, s, h, now, t, t', ready, timers);
      if !Escapes(s, h) {
        ExecFirstWins(x, m.store, m.run, t', Onward(pace), fuel - 1, ready + multiset(m.posts),
                      timers + multiset(m.sleeps));
      }
    }
  }

  lemma {:induction false} StepInPlace(x: bool, s: Store, h: Handle, now: int, t: int, t': int,
                                       ready: multiset<Handle>, timers: multiset<Timer>)
    requires Inv(s, Some(h), ready, timers) && Timed(x, s, now) && AllFirstWins(s, now)
    requires Reads(x, now, t) && Reads(x, t, t')
    ensures AllFirstWins(Step(s, h, t, t').store, t')
  {
    hide Step, Inv, Timed, AllFirstWins;
    TimingSteps.PassTimed(x, s, now, t);
    FirstWinsLater(s, now, t);
    StepFirstWins(x, s, h, t, t', ready, timers);
  }

  lemma {:induction false} FrontFirstWins(x: bool, sys: Sys<Store>, pace: Pace)
    requires Good(x, sys) && AllFirstWins(sys.state, sys.now) && sys.ready != [] && (x ==> Standing(pace))
    ensures var l := ResumeLate(sys.state, sys.ready[0], sys.now, pace); AllFirstWins(l.reaction.state, l.now)
  {
    hide Exec, AllFirstWins, Inv, Timed, Due;
    if !sys.state.aborted {
      TakeFront(sys.ready);
      TakeReady(sys.state, sys.ready[0], multiset(sys.ready), multiset(sys.timers));
      ExecFirstWins(x, sys.state, Some(sys.ready[0]), sys.now, pace, Mass(sys.state.frames), multiset(sys.ready[1..]),
                    multiset(sys.timers));
    }
  }

  /** In every state of `Run`, under any clock, the winner of a race is the child that ended first: as recorded, by the
      time of its report, and no sibling that has ended did so before that time. */
  lemma {:induction false} RunForFirstWins(sys: Sys<Store>, turns: seq<Turn>)
    requires Good(false, sys) && AllFirstWins(sys.state, sys.now)
    requires ClockOk(ResumeLate, sys, turns) && RunFor(ResumeLate, sys, turns).Some?
    ensures var end := RunFor(ResumeLate, sys, turns).value; AllFirstWins(end.state, end.now)
    decreases |turns|
  {
    hide Good, ResumeLate, AllFirstWins;
    if turns != [] {
      var s := DrainExpired(sys.(now := turns[0].now));
      RunTurnGood(false, sys, turns[0]);
      TickGood(false, sys, turns[0].now);
      DrainGood(false, sys.(now := turns[0].now));
      FirstWinsLater(sys.state, sys.now, turns[0].now);
      var next := RunTurn(ResumeLate, sys, turns[0]).value;
      if s.ready != [] {
        FrontFirstWins(false, s, turns[0].pace);
      } else {
        FirstWinsLater(s.state, s.now, next.now);
      }
      RunForFirstWins(next, turns[1..]);
    }
  }

  lemma {:induction false} LaunchFirstWins(sys: Sys<Store>, b: Body, env: Env, detached: bool)
    requires AllFirstWins(sys.state, sys.now)
    ensures AllFirstWins(Launched(sys, b, env, detached).state, sys.now)
  {
    var s, s' := sys.state, Launched(sys, b, env, detached).state;
    forall g | 0 <= g < |s'.groups| ensures FirstWins(s', sys.now, g) {
      var group := s.groups[g];
      assert FirstWins(s, sys.now, g);
      if group.Race? && group.winner.None? {
        forall i | 0 <= i < |group.Children()| ensures Unreported(s', group, g, i) {
          assert Unreported(s, group, g, i);
        }
      } else if group.Race? {
        forall j | 0 <= j < |group.Children()| && j != group.winner.value.0
          ensures NoEarlier(s', group, j, group.winner.value.1.at)
        {
          assert NoEarlier(s, group, j, group.winner.value.1.at);
        }
      }
    }
  }
}
