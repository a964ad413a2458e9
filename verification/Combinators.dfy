/** `WhenAll` and `WhenAny`: any order of completions, and any run. */
module Combinators {
  import opened Wrappers
  import opened Programs
  import opened Meaning
  import opened Timers
  import opened Runtime
  import opened Safety
  import opened SafetyGroups
  import opened Execution
  import opened Scheduling
  import opened WholeRuns
  import opened History
  import opened Answers

  // ---- Completions in any order ----

  ghost predicate Distinct(order: seq<nat>) {
    forall i, j :: 0 <= i < j < |order| ==> order[i] != order[j]
  }

  /** Distinct indices of `n` children. */
  ghost predicate CompletionOrder(order: seq<nat>, n: nat) {
    Distinct(order) && forall k :: 0 <= k < |order| ==> order[k] < n
  }

  /** The state after children `order[0]`, `order[1]`, ... have completed, child `i` as `ds[i]`. */
  function AfterReports(group: Group, order: seq<nat>, ds: seq<Done>): Group
    requires forall k :: 0 <= k < |order| ==> order[k] < |ds|
  {
    if order == [] then group
    else
      var n := |order| - 1;
      OnChildDone(AfterReports(group, order[..n], ds), order[n], ds[order[n]]).0
  }

  /** Whether completion number `k` posts the parent. */
  predicate PostsAt(group: Group, order: seq<nat>, ds: seq<Done>, k: nat)
    requires k < |order| && forall k :: 0 <= k < |order| ==> order[k] < |ds|
  {
    OnChildDone(AfterReports(group, order[..k], ds), order[k], ds[order[k]]).1
  }

  ghost predicate FreshJoin(group: Group, n: nat) {
    group.Join? && group.remaining == n && group.slots == seq(n, i => None)
  }

  /** The counter counts the children that have not completed, and each slot holds its own child's completion. */
  ghost predicate Tallies(g: Group, order: seq<nat>, ds: seq<Done>) {
    && g.Join? && g.remaining == |ds| - |order| == Missing(g.slots) && |g.slots| == |ds|
    && forall i :: 0 <= i < |ds| ==> g.slots[i] == if i in order then Some(ds[i]) else None
  }

  lemma {:induction false} OneMoreReport(g: Group, order: seq<nat>, i: nat, ds: seq<Done>)
    requires Tallies(g, order, ds) && i < |ds| && i !in order
    ensures g.remaining > 0 && Tallies(OnChildDone(g, i, ds[i]).0, order + [i], ds)
    ensures OnChildDone(g, i, ds[i]).0.parent == g.parent
    ensures OnChildDone(g, i, ds[i]).1 <==> |order| + 1 == |ds|
  {
    MissingUpdate(g.slots, i, ds[i]);
  }

  lemma {:induction false} NoneReported(group: Group, ds: seq<Done>)
    requires FreshJoin(group, |ds|)
    ensures Tallies(group, [], ds)
  {
    MissingFresh(|ds|);
  }

  lemma {:induction false} Tallied(group: Group, order: seq<nat>, ds: seq<Done>)
    requires FreshJoin(group, |ds|) && CompletionOrder(order, |ds|)
    ensures Tallies(AfterReports(group, order, ds), order, ds)
    ensures AfterReports(group, order, ds).parent == group.parent
  {
    hide Tallies, OnChildDone, Missing;
    if order == [] {
      NoneReported(group, ds);
    } else {
      var n := |order| - 1;
      Tallied(group, order[..n], ds);
      OneMoreReport(AfterReports(group, order[..n], ds), order[..n], order[n], ds);
      assert order == order[..n] + [order[n]];
    }
  }

  /** Through any sequence of completions the counter never underflows, and the parent is posted by the last
      completion and no other. */
  lemma {:induction false} JoinCounts(group: Group, order: seq<nat>, ds: seq<Done>, k: nat)
    requires FreshJoin(group, |ds|) && CompletionOrder(order, |ds|) && k < |order|
    ensures |order| <= |ds| && Tallies(AfterReports(group, order[..k], ds), order[..k], ds)
    ensures AfterReports(group, order[..k], ds).remaining > 0
    ensures PostsAt(group, order, ds, k) <==> k + 1 == |ds|
  {
    Tallied(group, order, ds);
    Tallied(group, order[..k], ds);
    OneMoreReport(AfterReports(group, order[..k], ds), order[..k], order[k], ds);
  }

  /** Once all children have completed, in whatever order, the slots hold the completions in argument order, so that
      the outcome does not depend on the schedule. */
  lemma {:induction false} JoinIgnoresOrder(group: Group, order: seq<nat>, ds: seq<Done>)
    requires FreshJoin(group, |ds|) && CompletionOrder(order, |ds|) && |order| == |ds| > 0
    ensures var g := AfterReports(group, order, ds);
      && g.Join? && g.remaining == 0 && Engaged(g.slots) && Completions(g.slots) == ds
      && PostsAt(group, order, ds, |ds| - 1)
  {
    Tallied(group, order, ds);
    JoinCounts(group, order, ds, |ds| - 1);
    MissingNone(AfterReports(group, order, ds).slots);
  }

  /** A join with an exception rethrows that of its lowest-indexed failed child. */
  lemma {:induction false} JoinRethrowsFirst(os: seq<Outcome>, i: nat)
    requires i < |os| && os[i].Raised? && forall j :: 0 <= j < i ==> os[j].Value?
    ensures JoinOutcome(os) == os[i]
  {
    RethrowsFirst(os, i);
  }

  lemma {:induction false} RethrowsFirst(os: seq<Outcome>, i: nat)
    requires i < |os| && os[i].Raised? && forall j :: 0 <= j < i ==> os[j].Value?
    ensures RethrowFirst(os) == os[i]
  {
    if i > 0 {
      RethrowsFirst(os[1..], i - 1);
    }
  }

  ghost predicate YieldsNonVoid(o: Outcome) {
    o.Value? && o.v != Unit
  }

  ghost function NonVoid(os: seq<Outcome>): nat {
    if os == [] then 0 else (if YieldsNonVoid(os[0]) then 1 else 0) + NonVoid(os[1..])
  }

  /** A join without one yields the values of its non-void children, all of them, in argument order. */
  lemma {:induction false} JoinYieldsValues(os: seq<Outcome>)
    requires forall i :: 0 <= i < |os| ==> os[i].Value?
    ensures JoinOutcome(os) == Value(Tuple(Collect(os))) && |Collect(os)| == NonVoid(os)
    ensures forall i :: 0 <= i < |os| && YieldsNonVoid(os[i]) ==>
      NonVoid(os[..i]) < NonVoid(os) && Collect(os)[NonVoid(os[..i])] == os[i].v
  {
    Collects(os);
    forall i | 0 <= i < |os| && YieldsNonVoid(os[i])
      ensures NonVoid(os[..i]) < NonVoid(os) && Collect(os)[NonVoid(os[..i])] == os[i].v
    {
      CollectsAt(os, i);
    }
  }

  lemma {:induction false} Collects(os: seq<Outcome>)
    ensures |Collect(os)| == NonVoid(os)
  {
    if os != [] {
      Collects(os[1..]);
    }
  }

  lemma {:induction false} CollectsAt(os: seq<Outcome>, i: nat)
    requires i < |os| && YieldsNonVoid(os[i])
    ensures NonVoid(os[..i]) < |Collect(os)| && Collect(os)[NonVoid(os[..i])] == os[i].v
  {
    if i > 0 {
      CollectsAt(os[1..], i - 1);
      assert os[..i][1..] == os[1..][..i - 1];
    }
  }

  /** The first completion of a race decides it and posts the parent; later ones, in whatever order and however
      often, change nothing and post nothing. */
  lemma {:induction false} RaceKeepsFirst(group: Group, order: seq<nat>, ds: seq<Done>)
    requires group.Race? && group.winner.None? && order != []
    requires forall k :: 0 <= k < |order| ==> order[k] < |ds|
    ensures AfterReports(group, order, ds) == group.(winner := Some((order[0], ds[order[0]])))
    ensures forall k :: 0 <= k < |order| ==> (PostsAt(group, order, ds, k) <==> k == 0)
  {
    var n := |order| - 1;
    if n > 0 {
      RaceKeepsFirst(group, order[..n], ds);
      forall k | 0 <= k < n ensures PostsAt(group, order, ds, k) <==> k == 0 {
        assert order[..n][..k] == order[..k];
        assert PostsAt(group, order[..n], ds, k) <==> PostsAt(group, order, ds, k);
      }
    }
  }

  // ---- Whole runs ----

  /** A wrapper that reports posts the parent if its report is what resolves the group, and nothing otherwise. */
  lemma {:induction false} PostedOnResolution(s: Store, h: Handle, now: int, later: int, ready: multiset<Handle>,
                                              timers: multiset<Timer>)
    requires Inv(s, Some(h), ready, timers) && s.frames[h].code.WrapAwaiting?
    ensures var g, m := s.frames[h].code.group, Step(s, h, now, later);
      && g < |s.groups| && g < |m.store.groups| && Settles(s.groups[g], m.store.groups[g])
      && m.posts == (if !Resolved(s.groups[g]) && Resolved(m.store.groups[g]) then [s.groups[g].parent] else [])
      && (s.groups[g].Join? ==> !Resolved(s.groups[g]))
      && |m.store.groups| == |s.groups|
         && (forall g' :: 0 <= g' < |s.groups| && g' != g ==> m.store.groups[g'] == s.groups[g'])
  {
    var WrapAwaiting(c, g, i) := s.frames[h].code;
    assert FrameOk(s, Some(h), h);
    assert FrameOk(s, Some(h), c) && GroupOk(s, g);
    WrapperDoneStore(s, h, c, g, i, now);
    StepSettles(s, h, now, later);
    assert Settles(s.groups[g], Step(s, h, now, later).store.groups[g]);
  }

  /** Group `g` exists and its parent may go on. */
  ghost predicate Decided(s: Store, g: nat) {
    g < |s.groups| && Resolved(s.groups[g])
  }

  /** Frame `h` reports to group `g` and posts its parent. */
  ghost predicate PostsParent(s: Store, h: Handle, now: int, later: int, g: nat) {
    h < |s.frames| && s.frames[h].code.WrapAwaiting? && s.frames[h].code.group == g
      && Step(s, h, now, later).posts != []
  }

  /** How often the parent of `g` is posted by a report during a resumption. */
  ghost function PostsInExec(s: Store, run: Option<Handle>, now: int, pace: Pace, fuel: nat, g: nat): nat
    decreases fuel
  {
    match run
    case None => 0
    case Some(h) =>
      if fuel == 0 then 0
      else
        var t, t' := Begins(now, pace), Passes(now, pace);
        var m := Step(s, h, t, t');
        OneIf(PostsParent(s, h, t, t', g)) + PostsInExec(m.store, m.run, t', Onward(pace), fuel - 1, g)
  }

  ghost function PostsInResume(s: Store, h: Handle, now: int, pace: Pace, g: nat): nat {
    if s.aborted then 0 else PostsInExec(s, Some(h), now, pace, Mass(s.frames), g)
  }

  /** The same along the first `n` resumptions of an advance. */
  ghost function PostsInAdvance(sys: Sys<Store>, target: int, n: nat, g: nat): nat
    decreases n
  {
    match ManualNext(Resume, sys, target)
    case None => 0
    case Some(next) =>
      if n == 0 then 0
      else
        var h := if sys.ready != [] then sys.ready[0] else sys.timers[0].handle;
        PostsInResume(sys.state, h, next.now, STILL, g) + PostsInAdvance(next, target, n - 1, g)
  }

  /** The same along a stretch of `Run`. */
  ghost function PostsInRun(sys: Sys<Store>, turns: seq<Turn>, g: nat): nat
    decreases |turns|
  {
    if turns == [] then 0
    else
      match RunTurn(ResumeLate, sys, turns[0])
      case None => 0
      case Some(next) =>
        var s := DrainExpired(sys.(now := turns[0].now));
        (if s.ready == [] then 0 else PostsInResume(s.state, s.ready[0], s.now, turns[0].pace, g))
        + PostsInRun(next, turns[1..], g)
  }

  lemma {:induction false} StaysDecided(s: Store, s': Store, g: nat)
    requires Remembers(s, s') && Decided(s, g)
    ensures Decided(s', g)
  {
    assert Settles(s.groups[g], s'.groups[g]);
  }

  /** A step posts the parent by a report exactly when it decides the group. */
  lemma {:induction false} StepPosts(s: Store, h: Handle, now: int, later: int, ready: multiset<Handle>,
                                     timers: multiset<Timer>, g: nat)
    requires Inv(s, Some(h), ready, timers)
    ensures OneIf(PostsParent(s, h, now, later, g)) == OneIf(!Decided(s, g) && Decided(Step(s, h, now, later).store, g))
  {
    if s.frames[h].code.WrapAwaiting? {
      PostedOnResolution(s, h, now, later, ready, timers);
    } else {
      assert FrameOk(s, Some(h), h);
      OthersDecideNothing(s, h, now, later, g);
    }
  }

  lemma {:induction false} OthersDecideNothing(s: Store, h: Handle, now: int, later: int, g: nat)
    requires h < |s.frames| && FrameOk(s, Some(h), h) && !s.frames[h].code.WrapAwaiting?
    ensures Decided(Step(s, h, now, later).store, g) <==> Decided(s, g)
  {
    match s.frames[h].code
    case Start(b) => BodyDecidesNothing(s, h, b, now, later, g);
    case _ =>
  }

  lemma {:induction false} BodyDecidesNothing(s: Store, h: Handle, b: Body, now: int, later: int, g: nat)
    requires h < |s.frames| && s.frames[h].code == Start(b)
    ensures Decided(StepBody(s, h, b, now, later).store, g) <==> Decided(s, g)
  {
    hide Fork;
    if b.All? || b.Any? {
      ForkStore(s, h, b, now);
    }
  }

  lemma {:induction false} ExecPosts(s: Store, run: Option<Handle>, now: int, pace: Pace, fuel: nat,
                                     ready: multiset<Handle>, timers: multiset<Timer>, g: nat)
    requires Inv(s, run, ready, timers) && Mass(s.frames) <= fuel
    ensures var end := Exec(s, run, now, pace, fuel).reaction.state;
      PostsInExec(s, run, now, pace, fuel, g) == OneIf(!Decided(s, g) && Decided(end, g))
        && (Decided(s, g) ==> Decided(end, g))
    decreases fuel
  {
    hide Step, Inv, Decided, PostsParent, Remembers;
    if run.Some? {
      var h, t, t' := run.value, Begins(now, pace), Passes(now, pace);
      var m := Step(s, h, t, t');
      StepMass(s, h, t, t', ready, timers);
      StepSafe(s, h, t, t', ready, timers);
      StepPosts(s, h, t, t', ready, timers, g);
      StepRemembers(s, h, t, t');
      if Decided(s, g) {
        StaysDecided(s, m.store, g);
      }
      if !Escapes(s, h) {
        ExecPosts(m.store, m.run, t', Onward(pace), fuel - 1, ready + multiset(m.posts),
                  timers + multiset(m.sleeps), g);
      }
    }
  }

  lemma {:induction false} FrontPosts(x: bool, sys: Sys<Store>, pace: Pace, g: nat)
    requires Good(x, sys) && sys.ready != []
    ensures var end := ResumeLate(sys.state, sys.ready[0], sys.now, pace).reaction.state;
      PostsInResume(sys.state, sys.ready[0], sys.now, pace, g) == OneIf(!Decided(sys.state, g) && Decided(end, g))
      && (Decided(sys.state, g) ==> Decided(end, g))
  {
    hide Exec, PostsInExec, Decided, Inv;
    if !sys.state.aborted {
      TakeFront(sys.ready);
      TakeReady(sys.state, sys.ready[0], multiset(sys.ready), multiset(sys.timers));
      ExecPosts(sys.state, Some(sys.ready[0]), sys.now, pace, Mass(sys.state.frames), multiset(sys.ready[1..]),
                multiset(sys.timers), g);
    }
  }

  lemma {:induction false} FirePosts(x: bool, sys: Sys<Store>, now: int, g: nat)
    requires Good(x, sys) && sys.timers != []
    ensures var end := ResumeLate(sys.state, sys.timers[0].handle, now, STILL).reaction.state;
      PostsInResume(sys.state, sys.timers[0].handle, now, STILL, g) == OneIf(!Decided(sys.state, g) && Decided(end, g))
      && (Decided(sys.state, g) ==> Decided(end, g))
  {
    hide Exec, PostsInExec, Decided, Inv;
    if !sys.state.aborted {
      TakeFront(sys.timers);
      TakeTimer(sys.state, sys.timers[0], multiset(sys.ready), multiset(sys.timers));
      ExecPosts(sys.state, Some(sys.timers[0].handle), now, STILL, Mass(sys.state.frames), multiset(sys.ready),
                multiset(sys.timers[1..]), g);
    }
  }

  /** Over any advance the parent of a combinator is posted by its children once if the combinator is decided on the
      way, and not at all otherwise. */
  lemma {:induction false} PostedOnceInAdvance(x: bool, sys: Sys<Store>, target: int, n: nat, end: Sys<Store>, g: nat)
    requires Good(x, sys) && AdvancesTo(Resume, sys, target, n, end)
    ensures PostsInAdvance(sys, target, n, g) == OneIf(!Decided(sys.state, g) && Decided(end.state, g))
    ensures Decided(sys.state, g) ==> Decided(end.state, g)
    decreases n
  {
    hide Good, ResumeLate, PostsInResume, Decided;
    if n > 0 {
      var next := ManualNext(Resume, sys, target).value;
      ManualGood(x, sys, target);
      if sys.ready != [] {
        FrontPosts(x, sys, STILL, g);
      } else {
        FirePosts(x, sys, next.now, g);
      }
      PostedOnceInAdvance(x, next, target, n - 1, end, g);
    }
  }

  /** The same over any stretch of `Run`, under any clock. */
  lemma {:induction false} PostedOnceInRun(sys: Sys<Store>, turns: seq<Turn>, g: nat)
    requires Good(false, sys) && ClockOk(ResumeLate, sys, turns) && RunFor(ResumeLate, sys, turns).Some?
    ensures var end := RunFor(ResumeLate, sys, turns).value;
      PostsInRun(sys, turns, g) == OneIf(!Decided(sys.state, g) && Decided(end.state, g))
      && (Decided(sys.state, g) ==> Decided(end.state, g))
    decreases |turns|
  {
    hide Good, ResumeLate, PostsInResume, Decided;
    if turns != [] {
      var s := DrainExpired(sys.(now := turns[0].now));
      RunTurnGood(false, sys, turns[0]);
      TickGood(false, sys, turns[0].now);
      DrainGood(false, sys.(now := turns[0].now));
      if s.ready != [] {
        FrontPosts(false, s, turns[0].pace, g);
      }
      PostedOnceInRun(RunTurn(ResumeLate, sys, turns[0]).value, turns[1..], g);
    }
  }

  // ---- What a join yields ----

  /** After `before`, a frame was handed what a join of children with outcomes `os` yields: the exception of the first
      that has one, or all non-void values, in that order. */
  ghost predicate HandsOver(before: Env, after: Env, os: seq<Outcome>) {
    && |before| < |after| && before <= after
    && var o := after[|before|];
       && (forall i :: 0 <= i < |os| && os[i].Raised? && (forall j :: 0 <= j < i ==> os[j].Value?) ==> o == os[i])
       && ((forall i :: 0 <= i < |os| ==> os[i].Value?) ==>
             && o.Value? && o.v.Tuple? && |o.v.vs| == NonVoid(os)
             && forall i :: 0 <= i < |os| && YieldsNonVoid(os[i]) ==>
                  NonVoid(os[..i]) < |o.v.vs| && o.v.vs[NonVoid(os[..i])] == os[i].v)
  }

  lemma {:induction false} JoinHandsOver(before: Env, after: Env, os: seq<Outcome>)
    requires before + [JoinOutcome(os)] <= after
    ensures HandsOver(before, after, os)
  {
    assert after[|before|] == (before + [JoinOutcome(os)])[|before|];
    forall i | 0 <= i < |os| && os[i].Raised? && (forall j :: 0 <= j < i ==> os[j].Value?)
      ensures JoinOutcome(os) == os[i]
    {
      JoinRethrowsFirst(os, i);
    }
    if forall i :: 0 <= i < |os| ==> os[i].Value? {
      JoinYieldsValues(os);
    }
  }

  /** In direct style: children that end as `rs` hand over that at the time of the last. */
  lemma {:induction false} JoinedHandsOver(env: Env, rs: seq<Done>, os: seq<Outcome>)
    requires |os| == |rs| > 0 && forall i :: 0 <= i < |os| ==> os[i] == rs[i].o
    ensures HandsOver(env, env + [Joined(rs).o], os)
    ensures forall i :: 0 <= i < |rs| ==> rs[i].at <= Joined(rs).at
    ensures exists i :: 0 <= i < |rs| && rs[i].at == Joined(rs).at
  {
    assert Outcomes(rs) == os;
    JoinHandsOver(env, env + [Joined(rs).o], os);
  }

  /** The slots of a join hold the outcomes `os`. */
  ghost predicate Holds(group: Group, os: seq<Outcome>) {
    && group.Join? && |group.slots| == |os|
    && forall i :: 0 <= i < |os| ==> group.slots[i].Some? && group.slots[i].value.o == os[i]
  }

  /** A parent that has left a join was handed what its children's recorded outcomes make. */
  ghost predicate HandsJoined(s: Store, g: nat)
    requires g < |s.groups|
  {
    var group := s.groups[g];
    group.Join? && !ParentWaits(s, g) ==>
      && group.parent < |s.frames|
      && exists os :: Holds(group, os) && HandsOver(group.origin.env, s.frames[group.parent].env, os)
  }

  lemma {:induction false} AnsweredHandsJoined(s: Store, g: nat)
    requires AllAnswered(s) && g < |s.groups|
    ensures HandsJoined(s, g)
  {
    assert Answered(s, g);
    var group := s.groups[g];
    if group.Join? && !ParentWaits(s, g) {
      var os := Outcomes(Completions(group.slots));
      JoinHandsOver(group.origin.env, s.frames[group.parent].env, os);
      assert Holds(group, os);
    }
  }

  /** In every state of an advance. */
  lemma {:induction false} AdvanceHandsJoined(x: bool, sys: Sys<Store>, target: int, n: nat, end: Sys<Store>, g: nat)
    requires Good(x, sys) && AllAnswered(sys.state) && AdvancesTo(Resume, sys, target, n, end)
    requires g < |end.state.groups|
    ensures HandsJoined(end.state, g)
  {
    AdvanceAnswers(x, sys, target, n, end);
    AnsweredHandsJoined(end.state, g);
  }

  /** And in every state of `Run`, under any clock. */
  lemma {:induction false} RunForHandsJoined(sys: Sys<Store>, turns: seq<Turn>, g: nat)
    requires Good(false, sys) && AllAnswered(sys.state)
    requires ClockOk(ResumeLate, sys, turns) && RunFor(ResumeLate, sys, turns).Some?
    requires g < |RunFor(ResumeLate, sys, turns).value.state.groups|
    ensures HandsJoined(RunFor(ResumeLate, sys, turns).value.state, g)
  {
    RunForAnswers(sys, turns);
    AnsweredHandsJoined(RunFor(ResumeLate, sys, turns).value.state, g);
  }
}
