/** What no step, resumption or run undoes. */
module History {
  import opened Wrappers
  import opened Programs
  import opened Timers
  import opened Runtime
  import opened SafetyGroups
  import opened Execution
  import opened Scheduling

  /** `b` is what frame `a` may have become: of the same origin, with every delivered outcome kept; an end is final,
      and a destroyed frame is not touched again, let alone destroyed again. */
  ghost predicate Outlives(a: Frame, b: Frame) {
    && b.origin == a.origin && a.env <= b.env
    && (a.code.Finished? ==>
          (b.code == a.code || b.code == Destroyed(a.code.o)) && b.since == a.since && b.env == a.env)
    && (a.code.Destroyed? ==> b == a)
  }

  /** `b` is what group `a` may have become: the same fork, no more outstanding, with every recorded completion kept. */
  ghost predicate Settles(a: Group, b: Group) {
    && b.parent == a.parent && b.first == a.first && b.origin == a.origin
    && match a
       case Join(_, _, _, remaining, slots) =>
         && b.Join? && b.remaining <= remaining && |b.slots| == |slots| && (remaining == 0 ==> b == a)
         && forall i :: 0 <= i < |slots| && slots[i].Some? ==> b.slots[i] == slots[i]
       case Race(_, _, _, winner) => b.Race? && (winner.Some? ==> b == a)
  }

  ghost predicate FramesOutlive(s: Store, s': Store) {
    |s.frames| <= |s'.frames|
      && forall k {:trigger s'.frames[k]} :: 0 <= k < |s.frames| ==> Outlives(s.frames[k], s'.frames[k])
  }

  ghost predicate GroupsSettle(s: Store, s': Store) {
    |s.groups| <= |s'.groups|
      && forall g {:trigger s'.groups[g]} :: 0 <= g < |s.groups| ==> Settles(s.groups[g], s'.groups[g])
  }

  ghost predicate Remembers(s: Store, s': Store) {
    FramesOutlive(s, s') && GroupsSettle(s, s')
  }

  lemma {:induction false} RemembersItself(s: Store)
    ensures Remembers(s, s) && Remembers(s, s.(fault := true))
  {
  }

  lemma {:induction false} RemembersOn(s: Store, s': Store, s'': Store)
    requires Remembers(s, s') && Remembers(s', s'')
    ensures Remembers(s, s'')
  {
    forall k {:trigger s''.frames[k]} | 0 <= k < |s.frames| ensures Outlives(s.frames[k], s''.frames[k]) {
      assert Outlives(s.frames[k], s'.frames[k]) && Outlives(s'.frames[k], s''.frames[k]);
    }
    forall g {:trigger s''.groups[g]} | 0 <= g < |s.groups| ensures Settles(s.groups[g], s''.groups[g]) {
      assert Settles(s.groups[g], s'.groups[g]) && Settles(s'.groups[g], s''.groups[g]);
    }
  }

  // ---- Steps, in any state ----

  lemma {:induction false} StepRemembers(s: Store, h: Handle, now: int, later: int)
    ensures Remembers(s, Step(s, h, now, later).store)
  {
    StepSettles(s, h, now, later);
    StepOutlives(s, h, now, later);
  }

  lemma {:induction false} StepSettles(s: Store, h: Handle, now: int, later: int)
    ensures GroupsSettle(s, Step(s, h, now, later).store)
  {
    if h < |s.frames| {
      match s.frames[h].code
      case Start(b) => StepBodySettles(s, h, b, now, later);
      case WrapAwaiting(c, g, i) => WrapperSettles(s, h, c, g, i, now);
      case _ =>
    }
  }

  lemma {:induction false} StepBodySettles(s: Store, h: Handle, b: Body, now: int, later: int)
    requires h < |s.frames|
    ensures GroupsSettle(s, StepBody(s, h, b, now, later).store)
  {
  }

  lemma {:induction false} WrapperSettles(s: Store, h: Handle, c: Handle, g: nat, i: nat, now: int)
    requires h < |s.frames|
    ensures GroupsSettle(s, WrapperDone(s, h, c, g, i, now).store)
  {
  }

  lemma {:induction false} StepOutlives(s: Store, h: Handle, now: int, later: int)
    ensures FramesOutlive(s, Step(s, h, now, later).store)
  {
    hide StepBody, StartWrapper, TaskDone, WrapperDone, GroupDone;
    if h < |s.frames| {
      match s.frames[h].code
      case Start(b) => StepBodyOutlives(s, h, b, now, later);
      case Wrap(task, g, i) => StartWrapperOutlives(s, h, task, g, i, now);
      case Awaiting(c, b) =>
        if b.Await? {
          TaskDoneOutlives(s, h, c, b);
        }
      case WrapAwaiting(c, g, i) => WrapperOutlives(s, h, c, g, i, now);
      case InGroup(g, b) =>
        if b.All? || b.Any? {
          GroupDoneOutlives(s, h, g, b);
        }
      case _ =>
    }
  }

  lemma {:induction false} StartWrapperOutlives(s: Store, h: Handle, task: Handle, g: nat, i: nat, now: int)
    requires h < |s.frames| && s.frames[h].code == Wrap(task, g, i)
    ensures FramesOutlive(s, StartWrapper(s, h, task, g, i, now).store)
  {
  }

  lemma {:induction false} TaskDoneOutlives(s: Store, h: Handle, c: Handle, b: Body)
    requires h < |s.frames| && s.frames[h].code == Awaiting(c, b) && b.Await?
    ensures FramesOutlive(s, TaskDone(s, h, c, b).store)
  {
  }

  lemma {:induction false} StepBodyOutlives(s: Store, h: Handle, b: Body, now: int, later: int)
    requires h < |s.frames| && s.frames[h].code == Start(b)
    ensures FramesOutlive(s, StepBody(s, h, b, now, later).store)
  {
  }

  lemma {:induction false} WrapperOutlives(s: Store, h: Handle, c: Handle, g: nat, i: nat, now: int)
    requires h < |s.frames| && s.frames[h].code == WrapAwaiting(c, g, i)
    ensures FramesOutlive(s, WrapperDone(s, h, c, g, i, now).store)
  {
  }

  lemma {:induction false} GroupDoneOutlives(s: Store, h: Handle, g: nat, b: Body)
    requires h < |s.frames| && s.frames[h].code == InGroup(g, b) && (b.All? || b.Any?)
    ensures FramesOutlive(s, GroupDone(s, h, g, b).store)
  {
  }

  // ---- What a step leaves to other frames ----

  /** Executing a statement changes no other frame. */
  lemma {:induction false} BodyTouchesItself(s: Store, h: Handle, b: Body, now: int, later: int, k: Handle)
    requires h < |s.frames| && k < |s.frames| && k != h
    ensures var s' := StepBody(s, h, b, now, later).store; k < |s'.frames| && s'.frames[k] == s.frames[k]
  {
    hide Fork;
    if b.All? || b.Any? {
      ForkStore(s, h, b, now);
    }
  }

  /** It changes no group. */
  lemma {:induction false} BodyTouchesNoGroup(s: Store, h: Handle, b: Body, now: int, later: int, g: nat)
    requires h < |s.frames| && g < |s.groups|
    ensures var s' := StepBody(s, h, b, now, later).store; g < |s'.groups| && s'.groups[g] == s.groups[g]
  {
    hide Fork;
    if b.All? || b.Any? {
      ForkStore(s, h, b, now);
    }
  }

  /** A frame that has not finished goes on, or ends, only by executing itself. */
  lemma {:induction false} OthersStay(s: Store, h: Handle, now: int, later: int, k: Handle)
    requires h < |s.frames| && k < |s.frames| && k != h && !s.frames[k].code.Finished?
    ensures var s' := Step(s, h, now, later).store;
      k < |s'.frames| && s'.frames[k].code == s.frames[k].code && s'.frames[k].env == s.frames[k].env
  {
    hide StepBody, WrapperDone, GroupDone;
    match s.frames[h].code
    case Start(b) => BodyTouchesItself(s, h, b, now, later, k);
    case WrapAwaiting(c, g, i) => ReportLeaves(s, h, c, g, i, now, k);
    case InGroup(g, b) =>
      if b.All? || b.Any? {
        HandoverLeaves(s, h, g, b, k);
      }
    case _ =>
  }

  lemma {:induction false} ReportLeaves(s: Store, h: Handle, c: Handle, g: nat, i: nat, now: int, k: Handle)
    requires h < |s.frames| && k < |s.frames| && k != h && !s.frames[k].code.Finished?
    ensures var s' := WrapperDone(s, h, c, g, i, now).store; k < |s'.frames| && s'.frames[k] == s.frames[k]
  {
  }

  lemma {:induction false} HandoverLeaves(s: Store, h: Handle, g: nat, b: Body, k: Handle)
    requires h < |s.frames| && k < |s.frames| && k != h && !s.frames[k].code.Finished? && (b.All? || b.Any?)
    ensures var s' := GroupDone(s, h, g, b).store; k < |s'.frames| && s'.frames[k] == s.frames[k]
  {
  }

  // ---- Resumptions and runs ----

  lemma {:induction false} ExecRemembers(s: Store, run: Option<Handle>, now: int, pace: Pace, fuel: nat)
    ensures Remembers(s, Exec(s, run, now, pace, fuel).reaction.state)
    decreases fuel
  {
    hide Step, Remembers;
    RemembersItself(s);
    if run.Some? && fuel > 0 {
      var t, t' := Begins(now, pace), Passes(now, pace);
      var m := Step(s, run.value, t, t');
      StepRemembers(s, run.value, t, t');
      ExecRemembers(m.store, m.run, t', Onward(pace), fuel - 1);
      RemembersOn(s, m.store, Exec(m.store, m.run, t', Onward(pace), fuel - 1).reaction.state);
    }
  }

  lemma {:induction false} ResumeRemembers(s: Store, h: Handle, now: int, pace: Pace)
    ensures Remembers(s, ResumeLate(s, h, now, pace).reaction.state)
  {
    hide Exec, Remembers;
    RemembersItself(s);
    ExecRemembers(s, Some(h), now, pace, Mass(s.frames));
  }

  /** Over a whole advance. */
  lemma {:induction false} AdvanceRemembers(sys: Sys<Store>, target: int, n: nat, end: Sys<Store>)
    requires AdvancesTo(Resume, sys, target, n, end)
    ensures Remembers(sys.state, end.state)
    decreases n
  {
    hide ResumeLate, Remembers;
    RemembersItself(sys.state);
    if n > 0 {
      var next := ManualNext(Resume, sys, target).value;
      var h := if sys.ready != [] then sys.ready[0] else sys.timers[0].handle;
      ResumeRemembers(sys.state, h, next.now, STILL);
      AdvanceRemembers(next, target, n - 1, end);
      RemembersOn(sys.state, next.state, end.state);
    }
  }

  /** Over any stretch of `Run`, under any clock. */
  lemma {:induction false} RunForRemembers(sys: Sys<Store>, turns: seq<Turn>)
    requires RunFor(ResumeLate, sys, turns).Some?
    ensures Remembers(sys.state, RunFor(ResumeLate, sys, turns).value.state)
    decreases |turns|
  {
    hide ResumeLate, Remembers;
    RemembersItself(sys.state);
    if turns != [] {
      var s, next := DrainExpired(sys.(now := turns[0].now)), RunTurn(ResumeLate, sys, turns[0]).value;
      if s.ready != [] {
        ResumeRemembers(s.state, s.ready[0], s.now, turns[0].pace);
      }
      RunForRemembers(next, turns[1..]);
      RemembersOn(sys.state, next.state, RunFor(ResumeLate, sys, turns).value.state);
    }
  }

  /** Over a complete `Run` under a manual clock. */
  lemma {:induction false} RunRemembers(sys: Sys<Store>, n: nat, end: Sys<Store>)
    requires RunsOut(Resume, sys, n, end)
    ensures Remembers(sys.state, end.state)
    decreases n
  {
    hide ResumeLate, Remembers;
    RemembersItself(sys.state);
    if n > 0 {
      var s, next := DrainExpired(sys), RunNext(Resume, sys).value;
      if s.ready != [] {
        ResumeRemembers(s.state, s.ready[0], s.now, STILL);
      }
      RunRemembers(next, n - 1, end);
      RemembersOn(sys.state, next.state, end.state);
    }
  }
}
