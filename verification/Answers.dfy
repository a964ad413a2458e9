/** What a `co_await` of a combinator yields, over whole runs. */
module Answers {
  import opened Wrappers
  import opened Programs
  import opened Meaning
  import opened Timers
  import opened Runtime
  import opened Safety
  import opened SafetyGroups
  import opened Execution
  import opened Scheduling
  import opened WholeRuns
  import opened History

  /** The outcome that a decided combinator has for its parent. */
  ghost function Answer(group: Group): Option<Outcome> {
    match group
    case Join(_, _, _, _, slots) => if Engaged(slots) then Some(JoinOutcome(Outcomes(Completions(slots)))) else None
    case Race(_, _, _, winner) => if winner.Some? then Some(WonBy(winner.value.0, winner.value.1.o)) else None
  }

  /** What the winner of a race hands over: its index with its value, or its exception. */
  ghost function WonBy(i: nat, o: Outcome): Outcome {
    if o.Value? then Value(Won(i, o.v)) else Raised(o.e)
  }

  /** The parent of `g` still waits, or its `co_await` has yielded the answer: what it knew when it forked is followed
      by that. */
  ghost predicate Answered(s: Store, g: nat)
    requires g < |s.groups|
  {
    var group := s.groups[g];
    ParentWaits(s, g)
    || (group.parent < |s.frames| && Answer(group).Some?
        && group.origin.env + [Answer(group).value] <= s.frames[group.parent].env)
  }

  /** A task whose body is a race has yet to begin, or has forked that race with the locals it was created with. */
  ghost predicate Begun(s: Store, h: Handle)
    requires h < |s.frames|
  {
    Races(s.frames[h]) ==> Fresh(s.frames[h]) || exists g :: RaceOf(s, h, g)
  }

  ghost predicate Races(f: Frame) {
    f.origin.Some? && f.origin.value.body.Any? && f.origin.value.body.children != []
  }

  ghost predicate Fresh(f: Frame) {
    f.origin.Some? && f.code == Start(f.origin.value.body) && f.env == f.origin.value.env
  }

  ghost predicate RaceOf(s: Store, h: Handle, g: nat) {
    && h < |s.frames| && g < |s.groups| && s.groups[g].Race? && s.groups[g].parent == h && s.frames[h].origin.Some?
    && s.groups[g].origin.body == s.frames[h].origin.value.body
       && s.groups[g].origin.env == s.frames[h].origin.value.env
  }

  ghost predicate AllAnswered(s: Store) {
    && (forall g {:trigger Answered(s, g)} :: 0 <= g < |s.groups| ==> Answered(s, g))
    && (forall h {:trigger Begun(s, h)} :: 0 <= h < |s.frames| ==> Begun(s, h))
  }

  // ---- Steps ----

  lemma {:induction false} AnswerStays(a: Group, b: Group)
    requires Settles(a, b) && Answer(a).Some?
    ensures Answer(b) == Answer(a)
  {
    if a.Join? {
      assert a.slots == b.slots;
    }
  }

  /** A parent waits until it is resumed itself. */
  lemma {:induction false} StillWaits(s: Store, h: Handle, now: int, later: int, g: nat)
    requires h < |s.frames| && ParentWaits(s, g) && s.groups[g].parent != h
    ensures ParentWaits(Step(s, h, now, later).store, g)
  {
    hide Step;
    StepSettles(s, h, now, later);
    assert Settles(s.groups[g], Step(s, h, now, later).store.groups[g]);
    OthersStay(s, h, now, later, s.groups[g].parent);
  }

  lemma {:induction false} ParentResumes(s: Store, h: Handle, now: int, later: int, g: nat, ready: multiset<Handle>,
                                         timers: multiset<Timer>)
    requires Inv(s, Some(h), ready, timers) && ParentWaits(s, g) && s.groups[g].parent == h
    ensures var s' := Step(s, h, now, later).store;
      g < |s'.groups| && s'.groups[g] == s.groups[g] && Answer(s.groups[g]).Some? && h < |s'.frames|
      && s'.frames[h].env == s.groups[g].origin.env + [Answer(s.groups[g]).value]
  {
    assert FrameOk(s, Some(h), h) && GroupOk(s, g);
    if s.groups[g].Join? {
      MissingNone(s.groups[g].slots);
    }
    GroupDoneStore(s, h, g, s.frames[h].code.b);
  }

  lemma {:induction false} StepAnswers(s: Store, h: Handle, now: int, later: int, g: nat, ready: multiset<Handle>,
                                       timers: multiset<Timer>)
    requires Inv(s, Some(h), ready, timers) && g < |s.groups| && Answered(s, g)
    ensures var s' := Step(s, h, now, later).store; g < |s'.groups| && Answered(s', g)
  {
    hide Step, FramesOk, GroupsOk, ReadyOk, TimersOk;
    var s' := Step(s, h, now, later).store;
    StepRemembers(s, h, now, later);
    assert Settles(s.groups[g], s'.groups[g]);
    if ParentWaits(s, g) {
      if s.groups[g].parent == h {
        ParentResumes(s, h, now, later, g, ready, timers);
      } else {
        StillWaits(s, h, now, later, g);
      }
    } else {
      AnswerStays(s.groups[g], s'.groups[g]);
      assert Outlives(s.frames[s.groups[g].parent], s'.frames[s.groups[g].parent]);
    }
  }

  /** A fork leaves its parent waiting. */
  lemma {:induction false} ForkAnswers(s: Store, h: Handle, now: int, later: int, g: nat)
    requires h < |s.frames| && FrameOk(s, Some(h), h)
    requires |s.groups| <= g < |Step(s, h, now, later).store.groups|
    ensures Answered(Step(s, h, now, later).store, g)
  {
    match s.frames[h].code
    case Start(b) => BodyAnswers(s, h, b, now, later, g);
    case _ =>
  }

  lemma {:induction false} BodyAnswers(s: Store, h: Handle, b: Body, now: int, later: int, g: nat)
    requires h < |s.frames| && s.frames[h].code == Start(b)
    requires |s.groups| <= g < |StepBody(s, h, b, now, later).store.groups|
    ensures Answered(StepBody(s, h, b, now, later).store, g)
  {
    hide Fork;
    if b.All? || b.Any? {
      ForkStore(s, h, b, now);
    }
  }

  lemma {:induction false} StepBegun(s: Store, h: Handle, now: int, later: int, k: Handle)
    requires FramesOk(s, Some(h)) && RunOk(s, Some(h)) && h < |s.frames|
    requires k < |s.frames| && Begun(s, k)
    ensures var s' := Step(s, h, now, later).store; k < |s'.frames| && Begun(s', k)
  {
    hide FramesOk, Step;
    var s' := Step(s, h, now, later).store;
    StepRemembers(s, h, now, later);
    assert Outlives(s.frames[k], s'.frames[k]);
    if Races(s.frames[k]) {
      if g: nat :| RaceOf(s, k, g) {
        assert Settles(s.groups[g], s'.groups[g]);
        assert RaceOf(s', k, g);
      } else if k == h {
        RaceForks(s, h, now, later);
      } else {
        OthersStay(s, h, now, later, k);
      }
    }
  }

  /** The frames that a statement creates have yet to begin. */
  lemma {:induction false} BodyCreatesFresh(s: Store, h: Handle, b: Body, now: int, later: int, k: Handle)
    requires h < |s.frames| && |s.frames| <= k < |StepBody(s, h, b, now, later).store.frames|
    ensures var f := StepBody(s, h, b, now, later).store.frames[k]; Races(f) ==> Fresh(f)
  {
    hide Fork;
    if b.All? || b.Any? {
      ForkStore(s, h, b, now);
    }
  }

  lemma {:induction false} RaceForks(s: Store, h: Handle, now: int, later: int)
    requires h < |s.frames| && Races(s.frames[h]) && Fresh(s.frames[h])
    ensures RaceOf(Step(s, h, now, later).store, h, |s.groups|)
  {
    ForkStore(s, h, s.frames[h].origin.value.body, now);
  }

  /** Frames that a step creates have yet to begin. */
  lemma {:induction false} NewBegun(s: Store, h: Handle, now: int, later: int, k: Handle)
    requires h < |s.frames| && |s.frames| <= k < |Step(s, h, now, later).store.frames|
    ensures Begun(Step(s, h, now, later).store, k)
  {
    match s.frames[h].code
    case Start(b) => BodyCreatesFresh(s, h, b, now, later, k);
    case _ =>
  }

  lemma {:induction false} StepAllAnswered(s: Store, h: Handle, now: int, later: int, ready: multiset<Handle>,
                                           timers: multiset<Timer>)
    requires Inv(s, Some(h), ready, timers) && AllAnswered(s)
    ensures AllAnswered(Step(s, h, now, later).store)
  {
    hide Step, GroupsOk, ReadyOk, TimersOk;
    var s' := Step(s, h, now, later).store;
    assert FrameOk(s, Some(h), h);
    forall g | 0 <= g < |s'.groups| ensures Answered(s', g) {
      if g < |s.groups| {
        assert Answered(s, g);
        StepAnswers(s, h, now, later, g, ready, timers);
      } else {
        ForkAnswers(s, h, now, later, g);
      }
    }
    forall k | 0 <= k < |s'.frames| ensures Begun(s', k) {
      if k < |s.frames| {
        assert Begun(s, k);
        StepBegun(s, h, now, later, k);
      } else {
        NewBegun(s, h, now, later, k);
      }
    }
  }

  // ---- What a race yields ----

  /** A parent that has left a race won by `(i, d)` was handed `Won(i, value)`, or the winner's exception. */
  ghost predicate HandsWon(s: Store, g: nat)
    requires g < |s.groups|
  {
    var group := s.groups[g];
    group.Race? && !ParentWaits(s, g) ==>
      && group.winner.Some? && group.parent < |s.frames|
      && var (i, d) := group.winner.value;
         (d.o.Value? ==> group.origin.env + [Value(Won(i, d.o.v))] <= s.frames[group.parent].env)
         && (d.o.Raised? ==> group.origin.env + [Raised(d.o.e)] <= s.frames[group.parent].env)
  }

  lemma {:induction false} AnsweredHandsWon(s: Store, g: nat)
    requires AllAnswered(s) && g < |s.groups|
    ensures HandsWon(s, g)
  {
    assert Answered(s, g);
  }

  /** In every state of an advance. */
  lemma {:induction false} AdvanceHandsWon(x: bool, sys: Sys<Store>, target: int, n: nat, end: Sys<Store>, g: nat)
    requires Good(x, sys) && AllAnswered(sys.state) && AdvancesTo(Resume, sys, target, n, end)
    requires g < |end.state.groups|
    ensures HandsWon(end.state, g)
  {
    AdvanceAnswers(x, sys, target, n, end);
    AnsweredHandsWon(end.state, g);
  }

  /** And in every state of `Run`, under any clock. */
  lemma {:induction false} RunForHandsWon(sys: Sys<Store>, turns: seq<Turn>, g: nat)
    requires Good(false, sys) && AllAnswered(sys.state)
    requires ClockOk(ResumeLate, sys, turns) && RunFor(ResumeLate, sys, turns).Some?
    requires g < |RunFor(ResumeLate, sys, turns).value.state.groups|
    ensures HandsWon(RunFor(ResumeLate, sys, turns).value.state, g)
  {
    RunForAnswers(sys, turns);
    AnsweredHandsWon(RunFor(ResumeLate, sys, turns).value.state, g);
  }

  // ---- Whole runs ----

  lemma {:induction false} ExecAnswers(s: Store, run: Option<Handle>, now: int, pace: Pace, fuel: nat,
                                       ready: multiset<Handle>, timers: multiset<Timer>)
    requires Inv(s, run, ready, timers) && Mass(s.frames) <= fuel && AllAnswered(s)
    ensures AllAnswered(Exec(s, run, now, pace, fuel).reaction.state)
    decreases fuel
  {
    hide Step, Inv, AllAnswered;
    if run.Some? {
      var h, t, t' := run.value, Begins(now, pace), Passes(now, pace);
      var m := Step(s, h, t, t');
      StepMass(s, h, t, t', ready, timers);
      StepSafe(s, h, t, t', ready, timers);
      StepAllAnswered(s, h, t, t', ready, timers);
      if !Escapes(s, h) {
        ExecAnswers(m.store, m.run, t', Onward(pace), fuel - 1, ready + multiset(m.posts), timers + multiset(m.sleeps));
      }
    }
  }

  lemma {:induction false} FrontAnswers(x: bool, sys: Sys<Store>, pace: Pace)
    requires Good(x, sys) && AllAnswered(sys.state) && sys.ready != []
    ensures AllAnswered(ResumeLate(sys.state, sys.ready[0], sys.now, pace).reaction.state)
  {
    hide Exec, AllAnswered, Inv;
    if !sys.state.aborted {
      TakeFront(sys.ready);
      TakeReady(sys.state, sys.ready[0], multiset(sys.ready), multiset(sys.timers));
      ExecAnswers(sys.state, Some(sys.ready[0]), sys.now, pace, Mass(sys.state.frames), multiset(sys.ready[1..]),
                  multiset(sys.timers));
    }
  }

  lemma {:induction false} FireAnswers(x: bool, sys: Sys<Store>, now: int)
    requires Good(x, sys) && AllAnswered(sys.state) && sys.timers != []
    ensures AllAnswered(ResumeLate(sys.state, sys.timers[0].handle, now, STILL).reaction.state)
  {
    hide Exec, AllAnswered, Inv;
    if !sys.state.aborted {
      TakeFront(sys.timers);
      TakeTimer(sys.state, sys.timers[0], multiset(sys.ready), multiset(sys.timers));
      ExecAnswers(sys.state, Some(sys.timers[0].handle), now, STILL, Mass(sys.state.frames), multiset(sys.ready),
                  multiset(sys.timers[1..]));
    }
  }

  /** In every state that an advance reaches, each parent that has left its combinator was given that combinator's
      answer. */
  lemma {:induction false} AdvanceAnswers(x: bool, sys: Sys<Store>, target: int, n: nat, end: Sys<Store>)
    requires Good(x, sys) && AllAnswered(sys.state) && AdvancesTo(Resume, sys, target, n, end)
    ensures AllAnswered(end.state)
    decreases n
  {
    hide Good, ResumeLate, AllAnswered;
    if n > 0 {
      var next := ManualNext(Resume, sys, target).value;
      ManualGood(x, sys, target);
      if sys.ready != [] {
        FrontAnswers(x, sys, STILL);
      } else {
        FireAnswers(x, sys, next.now);
      }
      AdvanceAnswers(x, next, target, n - 1, end);
    }
  }

  /** And in every state of `Run`, under any clock. */
  lemma {:induction false} RunForAnswers(sys: Sys<Store>, turns: seq<Turn>)
    requires Good(false, sys) && AllAnswered(sys.state)
    requires ClockOk(ResumeLate, sys, turns) && RunFor(ResumeLate, sys, turns).Some?
    ensures AllAnswered(RunFor(ResumeLate, sys, turns).value.state)
    decreases |turns|
  {
    hide Good, ResumeLate, AllAnswered;
    if turns != [] {
      var s := DrainExpired(sys.(now := turns[0].now));
      RunTurnGood(false, sys, turns[0]);
      TickGood(false, sys, turns[0].now);
      DrainGood(false, sys.(now := turns[0].now));
      if s.ready != [] {
        FrontAnswers(false, s, turns[0].pace);
      }
      RunForAnswers(RunTurn(ResumeLate, sys, turns[0]).value, turns[1..]);
    }
  }

  lemma {:induction false} LaunchAnswers(x: bool, sys: Sys<Store>, b: Body, env: Env, detached: bool)
    requires Good(x, sys) && !sys.state.aborted && AllAnswered(sys.state)
    ensures AllAnswered(Launched(sys, b, env, detached).state)
  {
    var s, s' := sys.state, Launched(sys, b, env, detached).state;
    forall g | 0 <= g < |s'.groups| ensures Answered(s', g) {
      assert Answered(s, g);
    }
    forall h | 0 <= h < |s'.frames| ensures Begun(s', h) {
      if h < |s.frames| {
        assert Begun(s, h);
        if g: nat :| RaceOf(s, h, g) {
          assert RaceOf(s', h, g);
        }
      }
    }
  }

  lemma {:induction false} IdleAnswered(now: int)
    ensures AllAnswered(Idle(now).state)
  {
  }
}
