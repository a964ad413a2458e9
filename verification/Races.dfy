/** Who wins a race of plain sleepers under virtual time: the shortest sleep, and the first argument among equals. */
module Races {
  import opened Wrappers
  import opened Programs
  import opened Meaning
  import opened Timers
  import opened Runtime
  import opened Safety
  import opened SafetyGroups
  import opened SafetySteps
  import opened Execution
  import opened Scheduling
  import opened WholeRuns
  import opened Timing
  import opened TimedExecution
  import opened History
  import Answers

  /** A task that sleeps once and then returns or throws. */
  ghost predicate Naps(b: Body) {
    b.Sleep? && (b.next.Return? || b.next.Throw?)
  }

  ghost predicate NapRace(group: Group) {
    group.Race? && forall i {:trigger group.Children()[i]} :: 0 <= i < |group.Children()| ==> Naps(group.Children()[i])
  }

  ghost function Naptime(group: Group, i: nat): int {
    if i < |group.Children()| && Naps(group.Children()[i]) then group.Children()[i].duration(group.origin.env) else 0
  }

  ghost function Verdict(group: Group, i: nat): Outcome {
    if i < |group.Children()| && Naps(group.Children()[i]) then
      match group.Children()[i].next
      case Return(v) => Value(v(group.origin.env))
      case Throw(e) => Raised(e(group.origin.env))
      case _ => Value(Unit)
    else Value(Unit)
  }

  /** Child `i` is the one that minimises (max(duration, 0), index). */
  ghost predicate ShortestFirst(group: Group, i: nat) {
    forall k {:trigger Naptime(group, k)} :: 0 <= k < |group.Children()| ==>
      var a, b := Max(Naptime(group, i), 0), Max(Naptime(group, k), 0);
      a < b || (a == b && i <= k)
  }

  /** How child `i` ends if it wins. */
  ghost function WinOf(group: Group, i: nat): Done {
    Done(Verdict(group, i), group.origin.at + Max(Naptime(group, i), 0))
  }

  ghost predicate WonFairly(group: Group) {
    group.Race? && group.winner.Some? && group.winner.value.0 < |group.Children()|
    && ShortestFirst(group, group.winner.value.0)
    && group.winner.value.1 == WinOf(group, group.winner.value.0)
  }

  // ---- An undecided race ----

  ghost function WrapperAt(group: Group, i: nat): Handle {
    group.first + i
  }

  ghost function TaskAt(group: Group, i: nat): Handle {
    group.first + |group.Children()| + i
  }

  ghost function Alarm(group: Group, i: nat): Timer {
    Timer(group.origin.at + Naptime(group, i), TaskAt(group, i))
  }

  ghost predicate Present(fs: seq<Frame>, group: Group, i: nat) {
    i < |group.Children()| && TaskAt(group, i) < |fs| && fs[TaskAt(group, i)].env == group.origin.env
  }

  /** Wrapper and task are as the fork left them. */
  ghost predicate Unstarted(fs: seq<Frame>, group: Group, g: nat, i: nat) {
    && Present(fs, group, i)
    && fs[WrapperAt(group, i)].code == Wrap(TaskAt(group, i), g, i)
    && fs[TaskAt(group, i)].code == Start(group.Children()[i])
  }

  ghost predicate Begun(fs: seq<Frame>, group: Group, g: nat, i: nat) {
    Present(fs, group, i) && fs[WrapperAt(group, i)].code == WrapAwaiting(TaskAt(group, i), g, i)
  }

  /** The task is about to evaluate its `Sleep`. */
  ghost predicate Drowsy(fs: seq<Frame>, run: Option<Handle>, group: Group, g: nat, i: nat) {
    && Begun(fs, group, g, i) && run == Some(TaskAt(group, i))
    && fs[TaskAt(group, i)].code == Start(group.Children()[i])
  }

  ghost predicate Asleep(fs: seq<Frame>, group: Group, g: nat, i: nat) {
    && Begun(fs, group, g, i) && Naptime(group, i) > 0
    && fs[TaskAt(group, i)].code == Sleeping(group.origin.at + Naptime(group, i), group.Children()[i])
  }

  /** The sleep is over and control is in the sleeper or, once that has finished, back in its wrapper. */
  ghost predicate Roused(fs: seq<Frame>, run: Option<Handle>, group: Group, g: nat, i: nat) {
    && Begun(fs, group, g, i) && Naps(group.Children()[i])
    && ((run == Some(TaskAt(group, i)) && Asleep(fs, group, g, i))
        || (run == Some(TaskAt(group, i)) && fs[TaskAt(group, i)].code == Start(group.Children()[i].next))
        || (run == Some(WrapperAt(group, i)) && fs[TaskAt(group, i)].code == Code.Finished(Verdict(group, i))))
  }

  /** Every entry `a` stands before every entry `b`. */
  ghost predicate Before<T>(q: seq<T>, a: T, b: T) {
    forall i, j :: 0 <= i < |q| && 0 <= j < |q| && q[i] == a && q[j] == b ==> i < j
  }

  /** Where child `i` stands. */
  ghost predicate ChildInLine(fs: seq<Frame>, run: Option<Handle>, timers: seq<Timer>, now: int, group: Group, g: nat,
                              i: nat) {
    && (Unstarted(fs, group, g, i) || Drowsy(fs, run, group, g, i) || Asleep(fs, group, g, i)
       || Roused(fs, run, group, g, i))
    && (Unstarted(fs, group, g, i) || Drowsy(fs, run, group, g, i) ==> now == group.origin.at)
    && (Asleep(fs, group, g, i) && run != Some(TaskAt(group, i)) ==>
          Alarm(group, i) in timers && now <= Alarm(group, i).when)
    && (Roused(fs, run, group, g, i) ==> ShortestFirst(group, i) && now == WinOf(group, i).at)
    && (run == Some(WrapperAt(group, i)) ==> forall k :: 0 <= k < i ==> !Unstarted(fs, group, g, k))
    && (Drowsy(fs, run, group, g, i) ==> forall k :: i < k < |group.Children()| ==> Unstarted(fs, group, g, k))
  }

  /** Children start in argument order, and of two whose alarms coincide the first is woken first. */
  ghost predicate PairInLine(fs: seq<Frame>, ready: seq<Handle>, timers: seq<Timer>, group: Group, g: nat, i: nat,
                             k: nat) {
    && (Unstarted(fs, group, g, i) ==> Unstarted(fs, group, g, k))
    && Before(ready, WrapperAt(group, i), WrapperAt(group, k))
    && (Naptime(group, i) <= Naptime(group, k) ==> Before(timers, Alarm(group, i), Alarm(group, k)))
  }

  ghost predicate InLine(fs: seq<Frame>, run: Option<Handle>, ready: seq<Handle>, timers: seq<Timer>, now: int,
                         group: Group, g: nat) {
    && (forall i {:trigger ChildInLine(fs, run, timers, now, group, g, i)} :: 0 <= i < |group.Children()| ==>
          ChildInLine(fs, run, timers, now, group, g, i))
    && (forall i, k {:trigger PairInLine(fs, ready, timers, group, g, i, k)} :: 0 <= i < k < |group.Children()| ==>
          PairInLine(fs, ready, timers, group, g, i, k))
  }

  ghost predicate FairGroup(s: Store, run: Option<Handle>, ready: seq<Handle>, timers: seq<Timer>, now: int, g: nat)
    requires g < |s.groups|
  {
    NapRace(s.groups[g]) ==>
      if s.groups[g].winner.None? then InLine(s.frames, run, ready, timers, now, s.groups[g], g)
      else WonFairly(s.groups[g]) && s.groups[g].winner.value.1.at <= now
  }

  ghost predicate Fair(s: Store, run: Option<Handle>, ready: seq<Handle>, timers: seq<Timer>, now: int) {
    forall g {:trigger FairGroup(s, run, ready, timers, now, g)} :: 0 <= g < |s.groups| ==>
      FairGroup(s, run, ready, timers, now, g)
  }

  // ---- Queues keep their order ----

  lemma {:induction false} InsertKeepsOrder(ts: seq<Timer>, x: Timer, a: Timer, b: Timer)
    requires Before(ts, a, b) && x != a && (x != b || (a.when <= b.when && b !in ts))
    ensures Before(Insert(ts, x), a, b)
  {
    if ts != [] && ts[|ts| - 1].when > x.when {
      var n := |ts| - 1;
      InsertKeepsOrder(ts[..n], x, a, b);
      InsertedOnly(ts[..n], x);
      LastKeepsOrder(ts, Insert(ts[..n], x), x, a, b);
    }
  }

  lemma {:induction false} InsertedOnly(ts: seq<Timer>, x: Timer)
    ensures forall t :: t in Insert(ts, x) <==> t in ts || t == x
  {
    if ts != [] && ts[|ts| - 1].when > x.when {
      InsertedOnly(ts[..|ts| - 1], x);
      assert ts == ts[..|ts| - 1] + [ts[|ts| - 1]];
    }
  }

  lemma {:induction false} LastKeepsOrder(ts: seq<Timer>, r: seq<Timer>, x: Timer, a: Timer, b: Timer)
    requires ts != [] && Before(ts, a, b) && Before(r, a, b) && x != a && (x != b || a.when <= b.when)
    requires ts[|ts| - 1].when > x.when
    requires forall t :: t in r <==> t in ts[..|ts| - 1] || t == x
    ensures Before(r + [ts[|ts| - 1]], a, b)
  {
    var n := |ts| - 1;
    if ts[n] == a {
      assert b != ts[n];
      assert forall k :: 0 <= k < n ==> ts[..n][k] == ts[k] != b;
      assert b !in r;
    }
  }

  lemma {:induction false} InsertAllKeepsOrder(ts: seq<Timer>, xs: seq<Timer>, a: Timer, b: Timer)
    requires Before(ts, a, b) && a !in xs && b !in xs
    ensures Before(InsertAll(ts, xs), a, b)
  {
    if xs != [] {
      var n := |xs| - 1;
      InsertAllKeepsOrder(ts, xs[..n], a, b);
      InsertKeepsOrder(InsertAll(ts, xs[..n]), xs[n], a, b);
    }
  }

  lemma {:induction false} InsertAllKeeps(ts: seq<Timer>, xs: seq<Timer>, a: Timer)
    ensures a in InsertAll(ts, xs) <==> a in ts || a in xs
  {
    if xs != [] {
      var n := |xs| - 1;
      InsertAllKeeps(ts, xs[..n], a);
      InsertedOnly(InsertAll(ts, xs[..n]), xs[n]);
      assert xs == xs[..n] + [xs[n]];
    }
  }

  // ---- A step of a frame outside the race ----

  ghost predicate Outside(group: Group, h: Handle) {
    h < group.first || group.first + 2 * |group.Children()| <= h
  }

  ghost predicate LeftAlone(s: Store, m: Move, group: Group, i: nat)
    requires i < |group.Children()| && TaskAt(group, i) < |s.frames|
  {
    && |s.frames| <= |m.store.frames|
    && m.store.frames[WrapperAt(group, i)] == s.frames[WrapperAt(group, i)]
    && m.store.frames[TaskAt(group, i)] == s.frames[TaskAt(group, i)]
    && m.run != Some(WrapperAt(group, i)) && m.run != Some(TaskAt(group, i))
  }

  lemma {:induction false} OutsideFrames(s: Store, h: Handle, now: int, group: Group, g: nat, i: nat)
    requires FramesOk(s, Some(h)) && h < |s.frames| && g < |s.groups| && group == s.groups[g] && Outside(group, h)
    requires Unstarted(s.frames, group, g, i) || Asleep(s.frames, group, g, i)
    ensures LeftAlone(s, Step(s, h, now, now), group, i)
  {
    assert FrameOk(s, Some(h), h) && FrameOk(s, Some(h), WrapperAt(group, i));
    match s.frames[h].code
    case Start(b) => OutsideBody(s, h, b, now, group, i);
    case WrapAwaiting(_, _, _) => OutsideReport(s, h, now, group, g, i);
    case InGroup(_, _) => OutsideHandover(s, h, now, group, g, i);
    case _ =>
  }

  lemma {:induction false} OutsideReport(s: Store, h: Handle, now: int, group: Group, g: nat, i: nat)
    requires h < |s.frames| && FrameOk(s, Some(h), h) && s.frames[h].code.WrapAwaiting? && Outside(group, h)
    requires Unstarted(s.frames, group, g, i) || Asleep(s.frames, group, g, i)
    ensures LeftAlone(s, Step(s, h, now, now), group, i)
  {
  }

  lemma {:induction false} OutsideHandover(s: Store, h: Handle, now: int, group: Group, g: nat, i: nat)
    requires h < |s.frames| && FrameOk(s, Some(h), h) && s.frames[h].code.InGroup? && Outside(group, h)
    requires Unstarted(s.frames, group, g, i) || Asleep(s.frames, group, g, i)
    ensures LeftAlone(s, Step(s, h, now, now), group, i)
  {
  }

  lemma {:induction false} OutsideBody(s: Store, h: Handle, b: Body, now: int, group: Group, i: nat)
    requires h < |s.frames| && FrameOk(s, Some(h), h) && s.frames[h].code == Start(b) && Outside(group, h)
    requires i < |group.Children()| && TaskAt(group, i) < |s.frames|
    requires !Awaits(s.frames[WrapperAt(group, i)].code, h) && !Awaits(s.frames[TaskAt(group, i)].code, h)
    ensures LeftAlone(s, StepBody(s, h, b, now, now), group, i)
  {
    hide StepBody;
    BodyTouchesItself(s, h, b, now, now, WrapperAt(group, i));
    BodyTouchesItself(s, h, b, now, now, TaskAt(group, i));
    BodyRuns(s, h, b, now);
  }

  /** A statement hands control to nobody, to its own frame, to a new one, or to the continuation. */
  lemma {:induction false} BodyRuns(s: Store, h: Handle, b: Body, now: int)
    requires h < |s.frames|
    ensures var m := StepBody(s, h, b, now, now);
      && |s.frames| <= |m.store.frames|
      && (m.run == None || m.run == Some(h) || m.run == Some(|s.frames|) || m.run == s.frames[h].continuation)
  {
    hide Fork;
    if b.All? || b.Any? {
      ForkStore(s, h, b, now);
    }
  }

  lemma {:induction false} OutsideGroup(s: Store, h: Handle, now: int, g: nat)
    requires FramesOk(s, Some(h)) && h < |s.frames| && g < |s.groups| && Outside(s.groups[g], h)
    ensures g < |Step(s, h, now, now).store.groups| && Step(s, h, now, now).store.groups[g] == s.groups[g]
  {
    assert FrameOk(s, Some(h), h);
    match s.frames[h].code
    case Start(b) => BodyTouchesNoGroup(s, h, b, now, now, g);
    case _ =>
  }

  /** What is posted and scheduled elsewhere is neither a wrapper nor an alarm of the race. */
  lemma {:induction false} OutsideQueues(s: Store, m: Move, h: Handle, ready: multiset<Handle>,
                                         timers: multiset<Timer>, group: Group, g: nat, i: nat)
    requires Inv(s, Some(h), ready, timers) && Safe(m, ready, timers) && Outside(group, h)
    requires Unstarted(s.frames, group, g, i) || Asleep(s.frames, group, g, i)
    requires Asleep(s.frames, group, g, i) ==> timers[Alarm(group, i)] > 0
    requires LeftAlone(s, m, group, i)
    ensures WrapperAt(group, i) !in m.posts && Alarm(group, i) !in m.sleeps
  {
    var w, t := WrapperAt(group, i), Alarm(group, i);
    assert ready[w] == Wanted(s, Some(h), timers, w);
    assert (ready + multiset(m.posts))[w] == Wanted(m.store, m.run, timers + multiset(m.sleeps), w);
    assert multiset(m.posts)[w] == 0;
    assert (timers + multiset(m.sleeps))[t] <= 1;
    assert multiset(m.sleeps)[t] == 0;
  }

  lemma {:induction false} OutsideChild(s: Store, m: Move, h: Handle, timers: seq<Timer>, now: int, group: Group,
                                        g: nat, i: nat)
    requires ChildInLine(s.frames, Some(h), timers, now, group, g, i) && Outside(group, h) && i < |group.Children()|
    ensures Unstarted(s.frames, group, g, i) || (Asleep(s.frames, group, g, i) && Alarm(group, i) in timers)
    ensures LeftAlone(s, m, group, i) ==>
            ChildInLine(m.store.frames, m.run, InsertAll(timers, m.sleeps), now, group, g, i)
  {
    InsertAllKeeps(timers, m.sleeps, Alarm(group, i));
  }

  lemma {:induction false} OutsidePair(s: Store, m: Move, ready: seq<Handle>, timers: seq<Timer>, group: Group,
                                       g: nat, i: nat, k: nat)
    requires i < k < |group.Children()| && TaskAt(group, k) < |s.frames|
    requires PairInLine(s.frames, ready, timers, group, g, i, k)
    requires LeftAlone(s, m, group, i) && LeftAlone(s, m, group, k)
    requires WrapperAt(group, i) !in m.posts && WrapperAt(group, k) !in m.posts
    requires Alarm(group, i) !in m.sleeps && Alarm(group, k) !in m.sleeps
    ensures PairInLine(m.store.frames, ready + m.posts, InsertAll(timers, m.sleeps), group, g, i, k)
  {
    if Naptime(group, i) <= Naptime(group, k) {
      InsertAllKeepsOrder(timers, m.sleeps, Alarm(group, i), Alarm(group, k));
    }
    var q := ready + m.posts;
    assert forall p :: |ready| <= p < |q| ==> q[p] in m.posts;
  }

  lemma {:induction false} OutsideStays(s: Store, h: Handle, now: int, ready: seq<Handle>, timers: seq<Timer>,
                                        group: Group, g: nat, i: nat)
    requires Inv(s, Some(h), multiset(ready), multiset(timers)) && !Escapes(s, h)
    requires g < |s.groups| && group == s.groups[g] && Outside(group, h) && i < |group.Children()|
    requires ChildInLine(s.frames, Some(h), timers, now, group, g, i)
    ensures var m := Step(s, h, now, now);
      && TaskAt(group, i) < |s.frames| && LeftAlone(s, m, group, i)
      && WrapperAt(group, i) !in m.posts && Alarm(group, i) !in m.sleeps
      && ChildInLine(m.store.frames, m.run, InsertAll(timers, m.sleeps), now, group, g, i)
  {
    hide Step, FramesOk, GroupsOk, ReadyOk, TimersOk, ChildInLine, LeftAlone;
    var m := Step(s, h, now, now);
    StepSafe(s, h, now, now, multiset(ready), multiset(timers));
    OutsideChild(s, m, h, timers, now, group, g, i);
    OutsideFrames(s, h, now, group, g, i);
    OutsideQueues(s, m, h, multiset(ready), multiset(timers), group, g, i);
  }

  lemma {:induction false} OutsideInLine(s: Store, h: Handle, now: int, ready: seq<Handle>, timers: seq<Timer>,
                                         group: Group, g: nat)
    requires Inv(s, Some(h), multiset(ready), multiset(timers)) && !Escapes(s, h)
    requires g < |s.groups| && group == s.groups[g] && Outside(group, h)
    requires InLine(s.frames, Some(h), ready, timers, now, group, g)
    ensures var m := Step(s, h, now, now);
      InLine(m.store.frames, m.run, ready + m.posts, InsertAll(timers, m.sleeps), now, group, g)
  {
    hide Step, Inv, ChildInLine, PairInLine, LeftAlone, Outside, Escapes;
    var m := Step(s, h, now, now);
    forall i | 0 <= i < |group.Children()|
      ensures ChildInLine(m.store.frames, m.run, InsertAll(timers, m.sleeps), now, group, g, i)
    {
      assert ChildInLine(s.frames, Some(h), timers, now, group, g, i);
      OutsideStays(s, h, now, ready, timers, group, g, i);
    }
    forall i, k | 0 <= i < k < |group.Children()|
      ensures PairInLine(m.store.frames, ready + m.posts, InsertAll(timers, m.sleeps), group, g, i, k)
    {
      assert PairInLine(s.frames, ready, timers, group, g, i, k);
      assert ChildInLine(s.frames, Some(h), timers, now, group, g, i);
      assert ChildInLine(s.frames, Some(h), timers, now, group, g, k);
      OutsideStays(s, h, now, ready, timers, group, g, i);
      OutsideStays(s, h, now, ready, timers, group, g, k);
      OutsidePair(s, m, ready, timers, group, g, i, k);
    }
  }

  // ---- A step of a racer ----

  /** Only child `j` has moved, and it has started. */
  ghost predicate Moved(fs: seq<Frame>, fs': seq<Frame>, run: Option<Handle>, group: Group, g: nat, j: nat) {
    && j < |group.Children()| && |fs| <= |fs'| && !Unstarted(fs', group, g, j)
    && (run == None || run == Some(WrapperAt(group, j)) || run == Some(TaskAt(group, j)))
    && forall k {:trigger fs'[k]} ::
         0 <= k < |fs| && k != WrapperAt(group, j) && k != TaskAt(group, j) ==> fs'[k] == fs[k]
  }

  lemma {:induction false} MovedChild(fs: seq<Frame>, run: Option<Handle>, timers: seq<Timer>, fs': seq<Frame>,
                                      run': Option<Handle>, timers': seq<Timer>, now: int, group: Group, g: nat,
                                      j: nat, i: nat)
    requires Moved(fs, fs', run', group, g, j) && i < |group.Children()| && i != j
    requires ChildInLine(fs, run, timers, now, group, g, i)
    requires run == Some(WrapperAt(group, j)) || run == Some(TaskAt(group, j))
    requires Alarm(group, i) in timers ==> Alarm(group, i) in timers'
    ensures ChildInLine(fs', run', timers', now, group, g, i)
            && (Unstarted(fs', group, g, i) <==> Unstarted(fs, group, g, i))
  {
  }

  lemma {:induction false} MovedInLine(fs: seq<Frame>, run: Option<Handle>, timers: seq<Timer>, fs': seq<Frame>,
                                       run': Option<Handle>, timers': seq<Timer>, ready: seq<Handle>, now: int,
                                       group: Group, g: nat, j: nat)
    requires InLine(fs, run, ready, timers, now, group, g) && Moved(fs, fs', run', group, g, j)
    requires run == Some(WrapperAt(group, j)) || run == Some(TaskAt(group, j))
    requires timers' == timers
          || (timers' == Insert(timers, Alarm(group, j))
            && forall k :: j <= k < |group.Children()| ==> Alarm(group, k) !in timers)
    requires forall k :: 0 <= k < j ==> !Unstarted(fs, group, g, k)
    requires ChildInLine(fs', run', timers', now, group, g, j)
    ensures InLine(fs', run', ready, timers', now, group, g)
  {
    hide ChildInLine, Unstarted, Moved;
    InsertedOnly(timers, Alarm(group, j));
    forall i | 0 <= i < |group.Children()| ensures ChildInLine(fs', run', timers', now, group, g, i) {
      if i != j {
        assert ChildInLine(fs, run, timers, now, group, g, i);
        MovedChild(fs, run, timers, fs', run', timers', now, group, g, j, i);
      }
    }
    forall i, k | 0 <= i < k < |group.Children()| ensures PairInLine(fs', ready, timers', group, g, i, k) {
      assert PairInLine(fs, ready, timers, group, g, i, k);
      assert ChildInLine(fs, run, timers, now, group, g, i);
      assert ChildInLine(fs, run, timers, now, group, g, k);
      MovedPair(fs, run, timers, fs', run', timers', ready, now, group, g, j, i, k);
    }
  }

  lemma {:induction false} MovedPair(fs: seq<Frame>, run: Option<Handle>, timers: seq<Timer>, fs': seq<Frame>,
                                     run': Option<Handle>, timers': seq<Timer>, ready: seq<Handle>, now: int,
                                     group: Group, g: nat, j: nat, i: nat, k: nat)
    requires i < k < |group.Children()| && PairInLine(fs, ready, timers, group, g, i, k)
             && Moved(fs, fs', run', group, g, j)
    requires ChildInLine(fs, run, timers, now, group, g, i) && ChildInLine(fs, run, timers, now, group, g, k)
    requires run == Some(WrapperAt(group, j)) || run == Some(TaskAt(group, j))
    requires timers' == timers
          || (timers' == Insert(timers, Alarm(group, j))
            && forall k :: j <= k < |group.Children()| ==> Alarm(group, k) !in timers)
    requires forall k :: 0 <= k < j ==> !Unstarted(fs, group, g, k)
    ensures PairInLine(fs', ready, timers', group, g, i, k)
  {
    hide ChildInLine, Moved, Before;
    AbsentBefore(timers', Alarm(group, i), Alarm(group, k));
    if Naptime(group, i) <= Naptime(group, k) && timers' != timers && i != j {
      InsertKeepsOrder(timers, Alarm(group, j), Alarm(group, i), Alarm(group, k));
    }
    InsertedOnly(timers, Alarm(group, j));
    StartedStays(fs, fs', run', group, g, j);
    if i != j {
      MovedChild(fs, run, timers, fs', run', timers', now, group, g, j, i);
    }
    if k != j {
      MovedChild(fs, run, timers, fs', run', timers', now, group, g, j, k);
    }
  }

  lemma {:induction false} AbsentBefore<T>(q: seq<T>, a: T, b: T)
    ensures b !in q ==> Before(q, a, b)
  {
  }

  lemma {:induction false} StartedStays(fs: seq<Frame>, fs': seq<Frame>, run: Option<Handle>, group: Group, g: nat,
                                        j: nat)
    requires Moved(fs, fs', run, group, g, j)
    ensures !Unstarted(fs', group, g, j)
  {
  }

  /** `h` runs on behalf of child `j`. */
  ghost predicate Racing(s: Store, h: Handle, ready: seq<Handle>, timers: seq<Timer>, now: int, group: Group, g: nat,
                         j: nat) {
    && Inv(s, Some(h), multiset(ready), multiset(timers)) && g < |s.groups| && s.groups[g] == group
    && NapRace(group) && group.winner.None? && InLine(s.frames, Some(h), ready, timers, now, group, g)
    && j < |group.Children()|
       && (h == WrapperAt(group, j) || (h == TaskAt(group, j) && !Unstarted(s.frames, group, g, j)))
  }

  /** A task that waits to be stolen by its wrapper is not run by anybody else. */
  lemma {:induction false} TaskNotRunFirst(s: Store, h: Handle, group: Group, g: nat, j: nat)
    requires RunOk(s, Some(h)) && FramesOk(s, Some(h))
    ensures h == TaskAt(group, j) ==> !Unstarted(s.frames, group, g, j)
  {
    if WrapperAt(group, j) < |s.frames| {
      assert FrameOk(s, Some(h), WrapperAt(group, j));
    }
  }

  /** A step that only moves child `j` on. */
  ghost predicate MovesOn(s: Store, m: Move, timers: seq<Timer>, now: int, group: Group, g: nat, j: nat) {
    && m.store.groups == s.groups && m.posts == [] && Moved(s.frames, m.store.frames, m.run, group, g, j)
    && (m.sleeps == [] || m.sleeps == [Alarm(group, j)])
    && ChildInLine(m.store.frames, m.run, InsertAll(timers, m.sleeps), now, group, g, j)
  }

  lemma {:induction false} EarlierOnesSleep(fs: seq<Frame>, h: Handle, ready: seq<Handle>, timers: seq<Timer>,
                                            now: int, group: Group, g: nat, j: nat, k: nat)
    requires InLine(fs, Some(h), ready, timers, now, group, g) && k < |group.Children()| && j < |group.Children()|
             && k != j
    requires h == WrapperAt(group, j) || (h == TaskAt(group, j) && !Unstarted(fs, group, g, j))
    ensures k < j ==> Asleep(fs, group, g, k)
    ensures j < k && (Unstarted(fs, group, g, j) || Drowsy(fs, Some(h), group, g, j)) ==> Unstarted(fs, group, g, k)
  {
    assert ChildInLine(fs, Some(h), timers, now, group, g, k) && ChildInLine(fs, Some(h), timers, now, group, g, j);
    if k < j {
      assert PairInLine(fs, ready, timers, group, g, k, j);
    } else {
      assert PairInLine(fs, ready, timers, group, g, j, k);
    }
  }

  lemma {:induction false} StartsNap(s: Store, h: Handle, ready: seq<Handle>, timers: seq<Timer>, now: int,
                                     group: Group, g: nat, j: nat)
    requires Racing(s, h, ready, timers, now, group, g, j) && Unstarted(s.frames, group, g, j)
    ensures MovesOn(s, Step(s, h, now, now), timers, now, group, g, j) && Step(s, h, now, now).sleeps == []
  {
    hide Before;
    assert ChildInLine(s.frames, Some(h), timers, now, group, g, j);
    assert FrameOk(s, Some(h), WrapperAt(group, j)) && FrameOk(s, Some(h), h);
    var m := Step(s, h, now, now);
    assert InsertAll(timers, []) == timers;
    forall k | j < k < |group.Children()| ensures Unstarted(m.store.frames, group, g, k) {
      EarlierOnesSleep(s.frames, h, ready, timers, now, group, g, j, k);
    }
  }

  lemma {:induction false} GoesToSleep(s: Store, h: Handle, ready: seq<Handle>, timers: seq<Timer>, now: int,
                                       group: Group, g: nat, j: nat)
    requires Racing(s, h, ready, timers, now, group, g, j) && Drowsy(s.frames, Some(h), group, g, j)
    ensures MovesOn(s, Step(s, h, now, now), timers, now, group, g, j)
  {
    assert ChildInLine(s.frames, Some(h), timers, now, group, g, j);
    var m := Step(s, h, now, now);
    InsertedOnly(timers, Alarm(group, j));
    assert InsertAll(timers, []) == timers;
    assert [Alarm(group, j)][..0] == [];
    assert Naps(group.Children()[j]);
    if Naptime(group, j) <= 0 {
      forall k | 0 <= k < |group.Children()| ensures k < j ==> Naptime(group, k) > 0 {
        if k != j {
          EarlierOnesSleep(s.frames, h, ready, timers, now, group, g, j, k);
        }
      }
    }
  }

  lemma {:induction false} Wakes(s: Store, h: Handle, ready: seq<Handle>, timers: seq<Timer>, now: int, group: Group,
                                 g: nat, j: nat)
    requires Racing(s, h, ready, timers, now, group, g, j) && h == TaskAt(group, j)
    requires Asleep(s.frames, group, g, j) || (Begun(s.frames, group, g, j)
               && s.frames[h].code == Start(group.Children()[j].next))
    ensures MovesOn(s, Step(s, h, now, now), timers, now, group, g, j) && Step(s, h, now, now).sleeps == []
  {
    hide Before;
    assert ChildInLine(s.frames, Some(h), timers, now, group, g, j);
    assert FrameOk(s, Some(h), WrapperAt(group, j)) && FrameOk(s, Some(h), h);
    assert Naps(group.Children()[j]);
    assert InsertAll(timers, []) == timers;
    var fs := Step(s, h, now, now).store.frames;
    forall k | 0 <= k < j ensures !Unstarted(fs, group, g, k) {
      EarlierOnesSleep(s.frames, h, ready, timers, now, group, g, j, k);
      assert fs[WrapperAt(group, k)] == s.frames[WrapperAt(group, k)];
    }
  }

  lemma {:induction false} ReportsNap(s: Store, h: Handle, ready: seq<Handle>, timers: seq<Timer>, now: int,
                                      group: Group, g: nat, j: nat)
    requires Racing(s, h, ready, timers, now, group, g, j) && h == WrapperAt(group, j) && Begun(s.frames, group, g, j)
    ensures var m := Step(s, h, now, now);
      && |m.store.groups| == |s.groups| && m.store.groups[g] == group.(winner := Some((j, WinOf(group, j))))
      && WonFairly(m.store.groups[g]) && WinOf(group, j).at == now
  {
    assert ChildInLine(s.frames, Some(h), timers, now, group, g, j);
    assert FrameOk(s, Some(h), h) && FrameOk(s, Some(h), TaskAt(group, j)) && GroupOk(s, g);
    assert Naps(group.Children()[j]);
    WrapperDoneStore(s, h, TaskAt(group, j), g, j, now);
    StillFirst(group, j);
  }

  lemma {:induction false} StillFirst(group: Group, j: nat)
    requires group.Race? && ShortestFirst(group, j) && j < |group.Children()|
    ensures WonFairly(group.(winner := Some((j, WinOf(group, j)))))
  {
    var group' := group.(winner := Some((j, WinOf(group, j))));
    assert group'.Children() == group.Children();
    forall k | 0 <= k < |group.Children()| ensures Naptime(group', k) == Naptime(group, k) {
    }
  }

  lemma {:induction false} RacerSteps(s: Store, h: Handle, ready: seq<Handle>, timers: seq<Timer>, now: int,
                                      group: Group, g: nat, j: nat)
    requires Racing(s, h, ready, timers, now, group, g, j)
    ensures var m := Step(s, h, now, now);
      g < |m.store.groups| && FairGroup(m.store, m.run, ready + m.posts, InsertAll(timers, m.sleeps), now, g)
  {
    hide Step, Inv, Moved;
    var m := Step(s, h, now, now);
    assert ChildInLine(s.frames, Some(h), timers, now, group, g, j);
    if h == WrapperAt(group, j) && Begun(s.frames, group, g, j) {
      ReportsNap(s, h, ready, timers, now, group, g, j);
    } else {
      if Unstarted(s.frames, group, g, j) {
        StartsNap(s, h, ready, timers, now, group, g, j);
      } else if Drowsy(s.frames, Some(h), group, g, j) {
        GoesToSleep(s, h, ready, timers, now, group, g, j);
      } else {
        Wakes(s, h, ready, timers, now, group, g, j);
      }
      KeepsInLine(s, m, h, ready, timers, now, group, g, j);
    }
  }

  lemma {:induction false} KeepsInLine(s: Store, m: Move, h: Handle, ready: seq<Handle>, timers: seq<Timer>, now: int,
                                       group: Group, g: nat, j: nat)
    requires Racing(s, h, ready, timers, now, group, g, j) && MovesOn(s, m, timers, now, group, g, j)
    requires m.sleeps != [] ==> Drowsy(s.frames, Some(h), group, g, j)
    ensures g < |m.store.groups| && FairGroup(m.store, m.run, ready + m.posts, InsertAll(timers, m.sleeps), now, g)
  {
    hide Moved, ChildInLine, PairInLine;
    assert ready + [] == ready;
    assert InsertAll(timers, []) == timers;
    assert [Alarm(group, j)][..0] == [];
    forall k | 0 <= k < j ensures !Unstarted(s.frames, group, g, k) {
      EarlierOnesSleep(s.frames, h, ready, timers, now, group, g, j, k);
    }
    if m.sleeps != [] {
      forall k | j <= k < |group.Children()| ensures Alarm(group, k) !in timers {
        if k != j {
          EarlierOnesSleep(s.frames, h, ready, timers, now, group, g, j, k);
        }
        assert multiset(timers)[Alarm(group, k)] == 0;
      }
    }
    MovedInLine(s.frames, Some(h), timers, m.store.frames, m.run, InsertAll(timers, m.sleeps), ready, now, group, g, j);
  }

  // ---- Any step ----

  lemma {:induction false} StaysWon(a: Group, b: Group)
    requires NapRace(a) && WonFairly(a) && Settles(a, b)
    ensures WonFairly(b) && b.winner == a.winner
  {
    assert a == b;
  }

  lemma {:induction false} SettledNaps(a: Group, b: Group)
    requires Settles(a, b)
    ensures NapRace(a) <==> NapRace(b)
  {
    assert a.Children() == b.Children();
  }

  lemma {:induction false} OldGroupFair(s: Store, h: Handle, now: int, ready: seq<Handle>, timers: seq<Timer>, g: nat)
    requires Inv(s, Some(h), multiset(ready), multiset(timers)) && !Escapes(s, h)
    requires g < |s.groups| && FairGroup(s, Some(h), ready, timers, now, g)
    ensures var m := Step(s, h, now, now);
      g < |m.store.groups| && FairGroup(m.store, m.run, ready + m.posts, InsertAll(timers, m.sleeps), now, g)
  {
    hide Step, FramesOk, GroupsOk, ReadyOk, TimersOk, InLine, ShortestFirst;
    var m, group := Step(s, h, now, now), s.groups[g];
    StepSettles(s, h, now, now);
    assert Settles(group, m.store.groups[g]);
    SettledNaps(group, m.store.groups[g]);
    if NapRace(group) {
      if group.winner.Some? {
        StaysWon(group, m.store.groups[g]);
      } else if Outside(group, h) {
        OutsideGroup(s, h, now, g);
        OutsideInLine(s, h, now, ready, timers, group, g);
      } else {
        var n := |group.Children()|;
        var j := if h < group.first + n then h - group.first else h - group.first - n;
        TaskNotRunFirst(s, h, group, g, j);
        RacerSteps(s, h, ready, timers, now, group, g, j);
      }
    }
  }

  lemma {:induction false} FreshChild(s: Store, s': Store, h: Handle, b: Body, now: int, timers: seq<Timer>, g: nat,
                                      i: nat)
    requires Forks(s, h, b) && Forked(s, s', h, b, now) && b.Any? && g == |s.groups| && i < |b.children|
    ensures ChildInLine(s'.frames, None, timers, now, s'.groups[g], g, i) && Unstarted(s'.frames, s'.groups[g], g, i)
  {
    var group := s'.groups[g];
    assert group.Children() == b.children;
    assert s'.frames[WrapperAt(group, i)].code == Wrap(TaskAt(group, i), g, i);
    assert s'.frames[TaskAt(group, i)]
      == TaskFrame(b.children[i], s.frames[h].env, None, Argument(WrapperAt(group, i)), now);
  }

  lemma {:induction false} FreshPair(ready: seq<Handle>, first: Handle, n: nat, a: Handle, b: Handle)
    requires first <= a < b < first + n && a !in ready && b !in ready
    ensures Before(ready + Handles(first, n), a, b)
  {
    var q := ready + Handles(first, n);
    assert forall p :: 0 <= p < |ready| ==> q[p] == ready[p];
    assert forall p :: |ready| <= p < |q| ==> q[p] == first + (p - |ready|);
  }

  lemma {:induction false} FreshRace(s: Store, s': Store, h: Handle, b: Body, now: int, ready: seq<Handle>,
                                     timers: seq<Timer>)
    requires Inv(s, Some(h), multiset(ready), multiset(timers)) && Forks(s, h, b) && Forked(s, s', h, b, now)
    ensures FairGroup(s', None, ready + Handles(|s.frames|, |b.children|), timers, now, |s.groups|)
  {
    hide ChildInLine, Forks, Forked, Before, FramesOk, GroupsOk;
    var g := |s.groups|;
    ForkedGroup(s, s', h, b, now);
    var group := s'.groups[g];
    if group.Race? {
      var q := ready + Handles(|s.frames|, |b.children|);
      forall i | 0 <= i < |b.children| ensures ChildInLine(s'.frames, None, timers, now, group, g, i) {
        FreshChild(s, s', h, b, now, timers, g, i);
      }
      forall i, k | 0 <= i < k < |b.children| ensures PairInLine(s'.frames, q, timers, group, g, i, k) {
        FreshChild(s, s', h, b, now, timers, g, i);
        FreshChild(s, s', h, b, now, timers, g, k);
        NotQueued(s, h, ready, timers, group, i);
        NotQueued(s, h, ready, timers, group, k);
        FreshPair(ready, |s.frames|, |b.children|, WrapperAt(group, i), WrapperAt(group, k));
        AbsentBefore(timers, Alarm(group, i), Alarm(group, k));
      }
    }
  }

  lemma {:induction false} NotQueued(s: Store, h: Handle, ready: seq<Handle>, timers: seq<Timer>, group: Group, i: nat)
    requires Inv(s, Some(h), multiset(ready), multiset(timers)) && |s.frames| <= group.first
    ensures group.first + i !in ready && Alarm(group, i) !in timers
  {
    assert multiset(ready)[group.first + i] == Wanted(s, Some(h), multiset(timers), group.first + i);
    assert multiset(timers)[Alarm(group, i)] == 0;
  }

  lemma {:induction false} ForkedGroup(s: Store, s': Store, h: Handle, b: Body, now: int)
    requires Forks(s, h, b) && Forked(s, s', h, b, now)
    ensures |s'.groups| == |s.groups| + 1
    ensures var group := s'.groups[|s.groups|];
      group.Children() == b.children && group.first == |s.frames|
      && (group.Race? ==> b.Any? && group.winner.None?)
  {
  }

  /** Only a fork adds a group. */
  lemma {:induction false} OnlyForksAddGroups(s: Store, h: Handle, now: int)
    requires h < |s.frames| && FrameOk(s, Some(h), h) && RunOk(s, Some(h))
    ensures var m := Step(s, h, now, now);
      |m.store.groups| != |s.groups| ==>
        s.frames[h].code.Start? && Forks(s, h, s.frames[h].code.b) && m == Fork(s, h, s.frames[h].code.b, now)
  {
  }

  lemma {:induction false} StepFair(s: Store, h: Handle, now: int, ready: seq<Handle>, timers: seq<Timer>)
    requires Inv(s, Some(h), multiset(ready), multiset(timers)) && !Escapes(s, h)
             && Fair(s, Some(h), ready, timers, now)
    ensures var m := Step(s, h, now, now); Fair(m.store, m.run, ready + m.posts, InsertAll(timers, m.sleeps), now)
  {
    hide Step, GroupsOk, ReadyOk, TimersOk, FairGroup, Fork;
    var m := Step(s, h, now, now);
    assert FrameOk(s, Some(h), h);
    OnlyForksAddGroups(s, h, now);
    forall g | 0 <= g < |m.store.groups|
      ensures FairGroup(m.store, m.run, ready + m.posts, InsertAll(timers, m.sleeps), now, g)
    {
      if g < |s.groups| {
        assert FairGroup(s, Some(h), ready, timers, now, g);
        OldGroupFair(s, h, now, ready, timers, g);
      } else {
        ForkFair(s, h, s.frames[h].code.b, now, ready, timers, g);
      }
    }
  }

  lemma {:induction false} ForkFair(s: Store, h: Handle, b: Body, now: int, ready: seq<Handle>, timers: seq<Timer>,
                                    g: nat)
    requires Inv(s, Some(h), multiset(ready), multiset(timers)) && Forks(s, h, b)
    requires var m := Fork(s, h, b, now); |s.groups| <= g < |m.store.groups|
    ensures var m := Fork(s, h, b, now); FairGroup(m.store, m.run, ready + m.posts, InsertAll(timers, m.sleeps), now, g)
  {
    hide FairGroup, Inv;
    var m := Fork(s, h, b, now);
    ForkStore(s, h, b, now);
    ForkedGroup(s, m.store, h, b, now);
    assert InsertAll(timers, []) == timers;
    FreshRace(s, m.store, h, b, now, ready, timers);
  }

  lemma {:induction false} ExecFair(s: Store, run: Option<Handle>, now: int, pace: Pace, fuel: nat,
                                    ready: seq<Handle>, timers: seq<Timer>)
    requires Inv(s, run, multiset(ready), multiset(timers)) && Mass(s.frames) <= fuel && Sorted(timers)
    requires Fair(s, run, ready, timers, now) && Standing(pace)
    ensures var r := Exec(s, run, now, pace, fuel).reaction;
      r.state.aborted || Fair(r.state, None, ready + r.posts, InsertAll(timers, r.sleeps), now)
    decreases fuel
  {
    hide Step, Inv, Fair, Mass, Escapes, Standing, Begins, Passes, Onward;
    match run {
      case None =>
        assert ready + [] == ready;
        assert InsertAll(timers, []) == timers;
      case Some(h) =>
        var m := Step(s, h, now, now);
        StandsStill(now, pace);
        StepMass(s, h, now, now, multiset(ready), multiset(timers));
        StepSafe(s, h, now, now, multiset(ready), multiset(timers));
        if !Escapes(s, h) {
          StepFair(s, h, now, ready, timers);
          InsertAllLaws(timers, m.sleeps);
          assert multiset(ready + m.posts) == multiset(ready) + multiset(m.posts);
          ExecFair(m.store, m.run, now, Onward(pace), fuel - 1, ready + m.posts, InsertAll(timers, m.sleeps));
          var r := Exec(m.store, m.run, now, Onward(pace), fuel - 1).reaction;
          assert (ready + m.posts) + r.posts == ready + (m.posts + r.posts);
          InsertAllAppend(timers, m.sleeps, r.sleeps);
        }
    }
  }

  // ---- Runs of the manual scheduler ----

  ghost predicate FairSys(sys: Sys<Store>) {
    sys.state.aborted || Fair(sys.state, None, sys.ready, sys.timers, sys.now)
  }

  /** The undecided races of a state in which control is at the scheduler. */
  ghost predicate Undecided(sys: Sys<Store>, group: Group, g: nat) {
    && Inv(sys.state, None, multiset(sys.ready), multiset(sys.timers)) && g < |sys.state.groups|
       && group == sys.state.groups[g]
    && NapRace(group) && group.winner.None? && InLine(sys.state.frames, None, sys.ready, sys.timers, sys.now, group, g)
  }

  /** Every child is waiting for its first turn or for its alarm. */
  lemma {:induction false} AtRest(sys: Sys<Store>, group: Group, g: nat, i: nat)
    requires Undecided(sys, group, g) && i < |group.Children()|
    ensures var w, c := WrapperAt(group, i), TaskAt(group, i);
      if Unstarted(sys.state.frames, group, g, i)
      then w in sys.ready && c !in sys.ready && sys.now == group.origin.at
           && forall t: Timer :: t in sys.timers ==> t.handle != w && t.handle != c
      else Asleep(sys.state.frames, group, g, i) && w !in sys.ready && c !in sys.ready
           && sys.now <= Alarm(group, i).when && Alarm(group, i) in sys.timers
           && forall t: Timer :: t in sys.timers ==> t.handle != w && (t.handle == c ==> t == Alarm(group, i))
  {
    var s, w, c := sys.state, WrapperAt(group, i), TaskAt(group, i);
    assert ChildInLine(s.frames, None, sys.timers, sys.now, group, g, i);
    assert FrameOk(s, None, w) && FrameOk(s, None, c);
    assert multiset(sys.ready)[w] == Wanted(s, None, multiset(sys.timers), w);
    assert multiset(sys.ready)[c] == Wanted(s, None, multiset(sys.timers), c);
    forall t: Timer | t in sys.timers ensures SleepsUntil(s, t) {
      assert multiset(sys.timers)[t] > 0;
    }
  }

  lemma {:induction false} ServedChild(sys: Sys<Store>, group: Group, g: nat, i: nat)
    requires Undecided(sys, group, g) && i < |group.Children()| && sys.ready != []
    ensures ChildInLine(sys.state.frames, Some(sys.ready[0]), sys.timers, sys.now, group, g, i)
  {
    AtRest(sys, group, g, i);
    var fs := sys.state.frames;
    forall k | 0 <= k < i && sys.ready[0] == WrapperAt(group, i) ensures !Unstarted(fs, group, g, k) {
      AtRest(sys, group, g, k);
      assert PairInLine(fs, sys.ready, sys.timers, group, g, k, i);
    }
  }

  lemma {:induction false} TailKeepsOrder<T>(q: seq<T>, a: T, b: T)
    requires q != [] && Before(q, a, b)
    ensures Before(q[1..], a, b)
  {
  }

  lemma {:induction false} ServedInLine(sys: Sys<Store>, group: Group, g: nat)
    requires Undecided(sys, group, g) && sys.ready != []
    ensures InLine(sys.state.frames, Some(sys.ready[0]), sys.ready[1..], sys.timers, sys.now, group, g)
  {
    hide ChildInLine, Before, Inv;
    forall i | 0 <= i < |group.Children()|
      ensures ChildInLine(sys.state.frames, Some(sys.ready[0]), sys.timers, sys.now, group, g, i)
    {
      ServedChild(sys, group, g, i);
    }
    forall i, k | 0 <= i < k < |group.Children()|
      ensures PairInLine(sys.state.frames, sys.ready[1..], sys.timers, group, g, i, k)
    {
      assert PairInLine(sys.state.frames, sys.ready, sys.timers, group, g, i, k);
      TailKeepsOrder(sys.ready, WrapperAt(group, i), WrapperAt(group, k));
    }
  }

  /** The alarm at the front of the timer queue is that of the shortest sleep, and the first argument's among equals. */
  lemma {:induction false} FrontIsFirst(sys: Sys<Store>, group: Group, g: nat, i: nat)
    requires Undecided(sys, group, g) && i < |group.Children()| && Sorted(sys.timers)
    requires sys.ready == [] && sys.timers != [] && sys.timers[0] == Alarm(group, i)
    ensures ShortestFirst(group, i)
  {
    AtRest(sys, group, g, i);
    forall k | 0 <= k < |group.Children()|
      ensures 0 < Naptime(group, i) <= Naptime(group, k) && (Naptime(group, i) == Naptime(group, k) ==> i <= k)
    {
      AtRest(sys, group, g, k);
      var p :| 0 <= p < |sys.timers| && sys.timers[p] == Alarm(group, k);
      assert sys.timers[0].when <= sys.timers[p].when;
      if k < i {
        assert PairInLine(sys.state.frames, sys.ready, sys.timers, group, g, k, i);
      }
    }
  }

  lemma {:induction false} FiredChild(sys: Sys<Store>, group: Group, g: nat, i: nat)
    requires Undecided(sys, group, g) && i < |group.Children()| && Sorted(sys.timers) && sys.ready == []
             && sys.timers != []
    ensures ChildInLine(sys.state.frames, Some(sys.timers[0].handle), sys.timers[1..], Max(sys.now, sys.timers[0].when),
                        group, g, i)
  {
    AtRest(sys, group, g, i);
    var t := sys.timers[0];
    assert t in sys.timers;
    var p :| 0 <= p < |sys.timers| && sys.timers[p] == Alarm(group, i);
    assert t.when <= sys.timers[p].when;
    if t.handle == TaskAt(group, i) {
      FrontIsFirst(sys, group, g, i);
    } else {
      assert sys.timers[1..][p - 1] == Alarm(group, i);
    }
  }

  lemma {:induction false} FiredInLine(sys: Sys<Store>, group: Group, g: nat)
    requires Undecided(sys, group, g) && Sorted(sys.timers) && sys.ready == [] && sys.timers != []
    ensures InLine(sys.state.frames, Some(sys.timers[0].handle), [], sys.timers[1..], Max(sys.now, sys.timers[0].when),
                   group, g)
  {
    hide ChildInLine, Before, Inv;
    var t := sys.timers[0];
    forall i | 0 <= i < |group.Children()|
      ensures ChildInLine(sys.state.frames, Some(t.handle), sys.timers[1..], Max(sys.now, t.when), group, g, i)
    {
      FiredChild(sys, group, g, i);
    }
    forall i, k | 0 <= i < k < |group.Children()|
      ensures PairInLine(sys.state.frames, [], sys.timers[1..], group, g, i, k)
    {
      assert PairInLine(sys.state.frames, sys.ready, sys.timers, group, g, i, k);
      if Naptime(group, i) <= Naptime(group, k) {
        TailKeepsOrder(sys.timers, Alarm(group, i), Alarm(group, k));
      }
    }
  }

  lemma {:induction false} ServeFair(sys: Sys<Store>)
    requires Good(true, sys) && FairSys(sys) && sys.ready != []
    ensures FairSys(ServeFront(Resume, sys))
  {
    hide Inv, Timed, Due, Exec, InLine, Mass;
    var s, h, rest := sys.state, sys.ready[0], sys.ready[1..];
    if !s.aborted {
      TakeFront(sys.ready);
      TakeReady(s, h, multiset(sys.ready), multiset(sys.timers));
      forall g | 0 <= g < |s.groups| ensures FairGroup(s, Some(h), rest, sys.timers, sys.now, g) {
        assert FairGroup(s, None, sys.ready, sys.timers, sys.now, g);
        if NapRace(s.groups[g]) && s.groups[g].winner.None? {
          ServedInLine(sys, s.groups[g], g);
        }
      }
      ExecFair(s, Some(h), sys.now, STILL, Mass(s.frames), rest, sys.timers);
    }
  }

  lemma {:induction false} FireFair(sys: Sys<Store>)
    requires Good(true, sys) && FairSys(sys) && sys.ready == [] && sys.timers != []
    ensures FairSys(FireFront(Resume, sys))
  {
    hide Inv, Timed, Due, Exec, InLine, Mass;
    var s, t, rest := sys.state, sys.timers[0], sys.timers[1..];
    var now := Max(sys.now, t.when);
    if !s.aborted {
      TakeFront(sys.timers);
      TakeTimer(s, t, multiset(sys.ready), multiset(sys.timers));
      forall g | 0 <= g < |s.groups| ensures FairGroup(s, Some(t.handle), [], rest, now, g) {
        assert FairGroup(s, None, sys.ready, sys.timers, sys.now, g);
        if NapRace(s.groups[g]) && s.groups[g].winner.None? {
          FiredInLine(sys, s.groups[g], g);
        }
      }
      ExecFair(s, Some(t.handle), now, STILL, Mass(s.frames), [], rest);
    }
  }

  lemma {:induction false} RestInLine(sys: Sys<Store>, now: int, group: Group, g: nat)
    requires Undecided(sys, group, g) && Sorted(sys.timers) && sys.ready == [] && sys.now <= now
    requires sys.timers != [] ==> now < sys.timers[0].when
    ensures InLine(sys.state.frames, None, [], sys.timers, now, group, g)
    ensures forall i :: 0 <= i < |group.Children()| ==> now < WinOf(group, i).at
  {
    var fs := sys.state.frames;
    forall i | 0 <= i < |group.Children()|
      ensures ChildInLine(fs, None, sys.timers, now, group, g, i) && now < WinOf(group, i).at
    {
      AtRest(sys, group, g, i);
      var p :| 0 <= p < |sys.timers| && sys.timers[p] == Alarm(group, i);
      assert sys.timers[0].when <= sys.timers[p].when;
    }
    forall i, k | 0 <= i < k < |group.Children()| ensures PairInLine(fs, [], sys.timers, group, g, i, k) {
      assert PairInLine(fs, sys.ready, sys.timers, group, g, i, k);
    }
  }

  lemma {:induction false} TickFair(sys: Sys<Store>, now: int)
    requires Good(true, sys) && FairSys(sys) && sys.ready == [] && sys.now <= now
    requires sys.timers != [] ==> now < sys.timers[0].when
    ensures FairSys(sys.(now := now))
  {
    hide Inv, Timed, Due, InLine;
    var s := sys.state;
    if !s.aborted {
      forall g | 0 <= g < |s.groups| ensures FairGroup(s, None, sys.ready, sys.timers, now, g) {
        assert FairGroup(s, None, sys.ready, sys.timers, sys.now, g);
        if NapRace(s.groups[g]) && s.groups[g].winner.None? {
          RestInLine(sys, now, s.groups[g], g);
        }
      }
    }
  }

  lemma {:induction false} AdvanceFair(sys: Sys<Store>, target: int, n: nat, end: Sys<Store>)
    requires Good(true, sys) && FairSys(sys) && AdvancesTo(Resume, sys, target, n, end)
    ensures FairSys(end)
    decreases n
  {
    hide Good, FairSys, Resume;
    match ManualNext(Resume, sys, target) {
      case None =>
        if sys.now < target {
          TickFair(sys, target);
        }
      case Some(next) =>
        ManualGood(true, sys, target);
        if sys.ready != [] {
          ServeFair(sys);
        } else {
          FireFair(sys);
        }
        AdvanceFair(next, target, n - 1, end);
    }
  }

  /** Launching another task, or waiting, or nothing at all: the races stay fair. */
  lemma {:induction false} LaunchFair(sys: Sys<Store>, b: Body, env: Env, detached: bool)
    requires Good(true, sys) && FairSys(sys)
    ensures FairSys(Launched(sys, b, env, detached))
  {
    hide FramesOk, GroupsOk, TimersOk, Timed, Due;
    var s, sys' := sys.state, Launched(sys, b, env, detached);
    if !s.aborted {
      forall g | 0 <= g < |s.groups| ensures FairGroup(sys'.state, None, sys'.ready, sys.timers, sys.now, g) {
        assert FairGroup(s, None, sys.ready, sys.timers, sys.now, g);
        if NapRace(s.groups[g]) && s.groups[g].winner.None? {
          LaunchedInLine(sys, sys'.state.frames, s.groups[g], g);
        }
      }
    }
  }

  lemma {:induction false} LaunchedInLine(sys: Sys<Store>, fs: seq<Frame>, group: Group, g: nat)
    requires InLine(sys.state.frames, None, sys.ready, sys.timers, sys.now, group, g)
    requires |fs| == |sys.state.frames| + 1 && fs[..|fs| - 1] == sys.state.frames
    ensures InLine(fs, None, sys.ready + [|fs| - 1], sys.timers, sys.now, group, g)
  {
    var ready := sys.ready + [|fs| - 1];
    hide Naptime, ShortestFirst, Before;
    forall i | 0 <= i < |group.Children()| ensures ChildInLine(fs, None, sys.timers, sys.now, group, g, i) {
      assert ChildInLine(sys.state.frames, None, sys.timers, sys.now, group, g, i);
    }
    forall i, k | 0 <= i < k < |group.Children()|
      ensures PairInLine(fs, ready, sys.timers, group, g, i, k)
    {
      assert ChildInLine(sys.state.frames, None, sys.timers, sys.now, group, g, i);
      assert ChildInLine(sys.state.frames, None, sys.timers, sys.now, group, g, k);
      assert PairInLine(sys.state.frames, sys.ready, sys.timers, group, g, i, k);
      OneMoreKeepsOrder(sys.ready, |fs| - 1, WrapperAt(group, i), WrapperAt(group, k));
    }
  }

  lemma {:induction false} OneMoreKeepsOrder(q: seq<Handle>, x: Handle, a: Handle, b: Handle)
    requires Before(q, a, b) && x != a && x != b
    ensures Before(q + [x], a, b)
  {
  }

  lemma {:induction false} IdleFair(now: int)
    ensures FairSys(Idle(now))
  {
  }

  /** Whatever else shares the scheduler, an advance that reaches the end of the shortest of the racing sleeps finds
      the race won by it, by the first argument among equals, with that child's own result or exception at exactly
      that time; an advance that stops earlier finds the race open. */
  lemma {:induction false} ShortestSleepWins(sys: Sys<Store>, target: int, n: nat, end: Sys<Store>, g: nat)
    requires Good(true, sys) && FairSys(sys) && sys.now <= target
    requires AdvancesTo(Resume, sys, target, n, end) && !end.state.aborted
    requires g < |end.state.groups| && NapRace(end.state.groups[g])
    ensures var group := end.state.groups[g];
      if exists i :: 0 <= i < |group.Children()| && WinOf(group, i).at <= target then WonFairly(group)
      else group.winner.None?
  {
    hide Inv, InLine, Timed, Due;
    AdvanceGood(true, sys, target, n, end);
    AdvanceLands(Resume, sys, target, n, end);
    AdvanceFair(sys, target, n, end);
    var group := end.state.groups[g];
    assert FairGroup(end.state, None, end.ready, end.timers, end.now, g);
    if group.winner.None? {
      RestInLine(end, target, group, g);
    }
  }

  /** With nothing ready, a decided combinator has been collected. */
  lemma {:induction false} DecidedIsCollected(sys: Sys<Store>, g: nat)
    requires Inv(sys.state, None, multiset(sys.ready), multiset(sys.timers)) && sys.ready == []
    requires g < |sys.state.groups| && Resolved(sys.state.groups[g])
    ensures !ParentWaits(sys.state, g)
  {
    if g < |sys.state.groups| && sys.state.groups[g].parent < |sys.state.frames| {
      var p := sys.state.groups[g].parent;
      assert FrameOk(sys.state, None, p);
      assert multiset(sys.ready)[p] == Wanted(sys.state, None, multiset(sys.timers), p);
    }
  }

  /** What child `i`, a `Sleep` and then a `Return` or `Throw`, brings its parent when it wins. */
  ghost function Yield(group: Group, i: nat): Outcome
    requires i < |group.Children()|
  {
    match group.Children()[i]
    case Sleep(_, Return(v)) => Value(Won(i, v(group.origin.env)))
    case Sleep(_, Throw(e)) => Raised(e(group.origin.env))
    case _ => Value(Unit)
  }

  lemma {:induction false} YieldIsAnswer(group: Group, i: nat)
    requires i < |group.Children()| && Naps(group.Children()[i])
    ensures Yield(group, i) == Answers.WonBy(i, Verdict(group, i))
  {
  }

  /** What a race of sleepers hands to its parent: index and value, or exception, of the shortest sleep. */
  lemma {:induction false} AwaitYieldsShortest(sys: Sys<Store>, target: int, n: nat, end: Sys<Store>, g: nat, i: nat)
    requires Good(true, sys) && FairSys(sys) && Answers.AllAnswered(sys.state) && sys.now <= target
    requires AdvancesTo(Resume, sys, target, n, end) && !end.state.aborted
    requires g < |end.state.groups| && NapRace(end.state.groups[g])
    requires i < |end.state.groups[g].Children()| && ShortestFirst(end.state.groups[g], i)
    ensures var group := end.state.groups[g];
      WinOf(group, i).at <= target ==>
        && group.parent < |end.state.frames|
        && group.origin.env + [Yield(group, i)] <= end.state.frames[group.parent].env
  {
    hide Inv, InLine, Timed, Due;
    var group := end.state.groups[g];
    ShortestSleepWins(sys, target, n, end, g);
    Answers.AdvanceAnswers(true, sys, target, n, end);
    AdvanceGood(true, sys, target, n, end);
    AdvanceLands(Resume, sys, target, n, end);
    if WinOf(group, i).at <= target {
      OneShortest(group, i, group.winner.value.0);
      YieldIsAnswer(group, i);
      DecidedIsCollected(end, g);
      assert Answers.Answered(end.state, g);
    }
  }

  lemma {:induction false} OneShortest(group: Group, i: nat, j: nat)
    requires i < |group.Children()| && j < |group.Children()| && ShortestFirst(group, i) && ShortestFirst(group, j)
    ensures i == j
  {
    var a, b := Max(Naptime(group, i), 0), Max(Naptime(group, j), 0);
    assert a < b || (a == b && i <= j);
    assert b < a || (a == b && j <= i);
  }

  /** End to end: a task whose body is a race of sleepers, however it goes on, has been handed `Won(i, value)` of the
      shortest sleep, or its exception, by the time it ends. */
  lemma {:induction false} RaceTaskGetsShortest(sys: Sys<Store>, target: int, n: nat, end: Sys<Store>, h: Handle)
    returns (group: Group, i: nat)
    requires Good(true, sys) && FairSys(sys) && Answers.AllAnswered(sys.state) && sys.now <= target
    requires AdvancesTo(Resume, sys, target, n, end) && !end.state.aborted
    requires h < |end.state.frames| && Answers.Races(end.state.frames[h])
    requires forall c :: c in end.state.frames[h].origin.value.body.children ==> Naps(c)
    requires end.state.frames[h].code.Finished? || end.state.frames[h].code.Destroyed?
    ensures group.origin.body == end.state.frames[h].origin.value.body
            && group.origin.env == end.state.frames[h].origin.value.env
    ensures i < |group.Children()| && ShortestFirst(group, i)
    ensures group.origin.env + [Yield(group, i)] <= end.state.frames[h].env
  {
    hide Inv, InLine, Timed, Due;
    Answers.AdvanceAnswers(true, sys, target, n, end);
    AdvanceFair(sys, target, n, end);
    assert Answers.Begun(end.state, h);
    var g: nat :| Answers.RaceOf(end.state, h, g);
    group := end.state.groups[g];
    assert Answers.Answered(end.state, g) && FairGroup(end.state, None, end.ready, end.timers, end.now, g);
    assert forall k :: 0 <= k < |group.Children()| ==>
      group.Children()[k] in end.state.frames[h].origin.value.body.children;
    i := group.winner.value.0;
    YieldIsAnswer(group, i);
  }
}
