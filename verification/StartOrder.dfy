/** The order in which what is posted together is resumed: the children of a combinator start in argument order. */
module StartOrder {
  import opened Wrappers
  import opened Programs
  import opened Timers
  import opened Runtime
  import opened SafetyGroups
  import opened Execution
  import opened Scheduling
  import opened WholeRuns
  import opened History

  // ---- Lines ----

  /** Wherever `b` stands in `q`, an `a` stands before it. */
  ghost predicate Behind(q: seq<Handle>, a: Handle, b: Handle) {
    forall j {:trigger q[j]} :: 0 <= j < |q| && q[j] == b ==> a in q[..j]
  }

  /** Frames whose handle is posted as soon as they are made: combinator wrappers, detached tasks, roots. */
  ghost predicate PostedWhenMade(f: Frame) {
    f.origin.None? || f.owner.Driver? || f.owner.Itself?
  }

  ghost predicate Made(frames: seq<Frame>, k: Handle) {
    k < |frames| && PostedWhenMade(frames[k])
  }

  /** All handles ever posted or woken, in order: those frames came into line in the order in which they were made. */
  ghost predicate Lined(frames: seq<Frame>, q: seq<Handle>) {
    && (forall j :: 0 <= j < |q| ==> q[j] < |frames|)
    && (forall k {:trigger Made(frames, k)} :: Made(frames, k) ==> k in q)
    && (forall a, b {:trigger Made(frames, a), Made(frames, b)} ::
          Made(frames, a) && Made(frames, b) && a < b ==> Behind(q, a, b))
  }

  lemma {:induction false} BehindOneMore(q: seq<Handle>, x: Handle, a: Handle, b: Handle)
    requires Behind(q, a, b) && (x == b ==> a in q)
    ensures Behind(q + [x], a, b)
  {
    forall j | 0 <= j < |q + [x]| && (q + [x])[j] == b ensures a in (q + [x])[..j] {
      if j < |q| {
        assert q[j] == b && (q + [x])[..j] == q[..j];
      } else {
        assert (q + [x])[..j] == q;
      }
    }
  }

  /** A frame that has been made is resumed or posted once more. */
  lemma {:induction false} LinedAgain(frames: seq<Frame>, q: seq<Handle>, x: Handle)
    requires Lined(frames, q) && x < |frames|
    ensures Lined(frames, q + [x])
  {
    forall a: Handle, b: Handle | Made(frames, a) && Made(frames, b) && a < b ensures Behind(q + [x], a, b) {
      BehindOneMore(q, x, a, b);
    }
  }

  lemma {:induction false} LinedAgainAll(frames: seq<Frame>, q: seq<Handle>, xs: seq<Handle>)
    requires Lined(frames, q) && forall j :: 0 <= j < |xs| ==> xs[j] < |frames|
    ensures Lined(frames, q + xs)
    decreases xs
  {
    hide Lined;
    if xs == [] {
      assert q + xs == q;
    } else {
      var n := |xs| - 1;
      LinedAgainAll(frames, q, xs[..n]);
      LinedAgain(frames, q + xs[..n], xs[n]);
      assert q + xs == q + xs[..n] + [xs[n]];
    }
  }

  /** One more frame is made and posted. */
  lemma {:induction false} LinedNew(frames: seq<Frame>, q: seq<Handle>, f: Frame)
    requires Lined(frames, q)
    ensures Lined(frames + [f], q + [|frames|])
  {
    var n: Handle := |frames|;
    var frames', q' := frames + [f], q + [n];
    forall k: Handle | Made(frames', k) ensures k in q' {
      assert k < n ==> Made(frames, k);
    }
    forall a: Handle, b: Handle | Made(frames', a) && Made(frames', b) && a < b ensures Behind(q', a, b) {
      assert Made(frames, a);
      if b < n {
        assert Made(frames, b);
      }
      BehindOneMore(q, n, a, b);
    }
  }

  /** The frames `fs` are made and posted in that order. */
  lemma {:induction false} LinedNewAll(frames: seq<Frame>, q: seq<Handle>, fs: seq<Frame>)
    requires Lined(frames, q)
    ensures Lined(frames + fs, q + seq(|fs|, i => |frames| + i))
    decreases fs
  {
    hide Lined;
    var hs: seq<Handle> := seq(|fs|, i => |frames| + i);
    if fs == [] {
      assert frames + fs == frames && q + hs == q;
    } else {
      var n := |fs| - 1;
      assert hs[..n] == seq(n, i => |frames| + i);
      LinedNewAll(frames, q, fs[..n]);
      LinedNew(frames + fs[..n], q + hs[..n], fs[n]);
      assert frames + fs == frames + fs[..n] + [fs[n]] && q + hs == q + hs[..n] + [hs[n]];
    }
  }

  /** Other frames are made, and none begins to be one that is posted when made. */
  lemma {:induction false} LinedOn(frames: seq<Frame>, frames': seq<Frame>, q: seq<Handle>)
    requires Lined(frames, q) && |frames| <= |frames'|
    requires forall k {:trigger Made(frames', k)} :: Made(frames', k) ==> Made(frames, k)
    ensures Lined(frames', q)
  {
  }

  // ---- Steps, in any state ----

  ghost predicate NamesFrames(ts: seq<Timer>, n: nat) {
    forall j :: 0 <= j < |ts| ==> ts[j].handle < n
  }

  /** The step keeps the line, with what it posts at its end. */
  ghost predicate KeepsLine(m: Move, q: seq<Handle>) {
    Lined(m.store.frames, q + m.posts) && NamesFrames(m.sleeps, |m.store.frames|)
  }

  lemma {:induction false} KeptAlone(s: Store, m: Move, q: seq<Handle>)
    requires Lined(s.frames, q) && |s.frames| <= |m.store.frames|
    requires forall k {:trigger Made(m.store.frames, k)} :: Made(m.store.frames, k) ==> Made(s.frames, k)
    requires forall j :: 0 <= j < |m.posts| ==> m.posts[j] < |s.frames|
    requires NamesFrames(m.sleeps, |m.store.frames|)
    ensures KeepsLine(m, q)
  {
    LinedAgainAll(s.frames, q, m.posts);
    LinedOn(s.frames, m.store.frames, q + m.posts);
  }

  lemma {:induction false} SpawnLined(s: Store, h: Handle, b: Body, now: int, q: seq<Handle>)
    requires h < |s.frames| && s.frames[h].code == Start(b) && b.Spawn? && Lined(s.frames, q)
    ensures KeepsLine(SpawnTask(s, h, b, now), q)
  {
    var task := TaskFrame(b.task, s.frames[h].env, None, Itself, now);
    LinedNew(s.frames, q, task);
    LinedOn(s.frames + [task], SpawnTask(s, h, b, now).store.frames, q + [|s.frames|]);
  }

  lemma {:induction false} ForkLined(s: Store, h: Handle, b: Body, now: int, q: seq<Handle>)
    requires h < |s.frames| && s.frames[h].code == Start(b) && (b.All? || b.Any?) && Lined(s.frames, q)
    ensures KeepsLine(Fork(s, h, b, now), q)
  {
    var first, n, g := |s.frames|, |b.children|, |s.groups|;
    var ws, m := WrapperFrames(b.children, first, g, b.All?, now), Fork(s, h, b, now);
    LinedNewAll(s.frames, q, ws);
    assert m.posts == seq(|ws|, i => first + i);
    forall k: Handle | Made(m.store.frames, k) ensures Made(s.frames + ws, k) {
      if k < first {
        assert m.store.frames[k].owner == s.frames[k].owner && m.store.frames[k].origin == s.frames[k].origin;
      }
    }
    LinedOn(s.frames + ws, m.store.frames, q + m.posts);
  }

  lemma {:induction false} BodyLined(s: Store, h: Handle, b: Body, now: int, later: int, q: seq<Handle>)
    requires h < |s.frames| && s.frames[h].code == Start(b) && Lined(s.frames, q)
    ensures KeepsLine(StepBody(s, h, b, now, later), q)
  {
    hide Lined, Fork, KeepsLine;
    if b.Spawn? {
      SpawnLined(s, h, b, now, q);
    } else if (b.All? || b.Any?) && b.children != [] {
      ForkLined(s, h, b, now, q);
    } else {
      KeptAlone(s, StepBody(s, h, b, now, later), q);
    }
  }

  /** A suspended frame that is resumed makes no frame, and posts one that there is, if any. */
  ghost predicate MakesNone(s: Store, m: Move) {
    && |m.store.frames| == |s.frames| && m.sleeps == [] && (forall j :: 0 <= j < |m.posts| ==> m.posts[j] < |s.frames|)
    && forall k {:trigger Made(m.store.frames, k)} :: Made(m.store.frames, k) ==> Made(s.frames, k)
  }

  lemma {:induction false} StartWrapperMakesNone(s: Store, h: Handle, task: Handle, g: nat, i: nat, now: int)
    requires h < |s.frames|
    ensures MakesNone(s, StartWrapper(s, h, task, g, i, now))
  {
  }

  lemma {:induction false} TaskDoneMakesNone(s: Store, h: Handle, c: Handle, b: Body)
    requires h < |s.frames| && b.Await?
    ensures MakesNone(s, TaskDone(s, h, c, b))
  {
  }

  lemma {:induction false} WrapperDoneMakesNone(s: Store, h: Handle, c: Handle, g: nat, i: nat, now: int)
    requires h < |s.frames|
    ensures MakesNone(s, WrapperDone(s, h, c, g, i, now))
  {
  }

  lemma {:induction false} GroupDoneMakesNone(s: Store, h: Handle, g: nat, b: Body)
    requires h < |s.frames| && (b.All? || b.Any?)
    ensures MakesNone(s, GroupDone(s, h, g, b))
  {
  }

  lemma {:induction false} SuspendedMakesNone(s: Store, h: Handle, now: int, later: int)
    requires h < |s.frames| ==> !s.frames[h].code.Start?
    ensures MakesNone(s, Step(s, h, now, later))
  {
    hide StartWrapper, TaskDone, WrapperDone, GroupDone;
    if h < |s.frames| {
      match s.frames[h].code
      case Wrap(task, g, i) => StartWrapperMakesNone(s, h, task, g, i, now);
      case Awaiting(c, b) =>
        if b.Await? {
          TaskDoneMakesNone(s, h, c, b);
        }
      case WrapAwaiting(c, g, i) => WrapperDoneMakesNone(s, h, c, g, i, now);
      case InGroup(g, b) =>
        if b.All? || b.Any? {
          GroupDoneMakesNone(s, h, g, b);
        }
      case _ =>
    }
  }

  lemma {:induction false} StepLined(s: Store, h: Handle, now: int, later: int, q: seq<Handle>)
    requires Lined(s.frames, q)
    ensures KeepsLine(Step(s, h, now, later), q)
  {
    hide Lined, KeepsLine, StepBody;
    if h < |s.frames| && s.frames[h].code.Start? {
      BodyLined(s, h, s.frames[h].code.b, now, later, q);
    } else {
      SuspendedMakesNone(s, h, now, later);
      hide Step;
      KeptAlone(s, Step(s, h, now, later), q);
    }
  }

  // ---- The fork ----

  /** When a body comes to a `co_await` of a combinator over `n` children, control returns to the scheduler, and the
      last things posted are `n` new wrappers, that of child `i` the `i`-th; child `i` stands at its start behind it,
      with the locals of the body that forked. */
  lemma {:induction false} JustForked(s: Store, h: Handle, now: int, later: int, i: nat)
    requires h < |s.frames| && s.frames[h].code.Start?
    requires
      match s.frames[h].code.b
      case All(children, _, _) => i < |children|
      case Any(children, _, _) => i < |children|
      case _ => false
    ensures var b, m, g := s.frames[h].code.b, Step(s, h, now, later), |s.groups|;
      && m.run == None && |m.posts| == |b.children| && |m.store.groups| == g + 1
      && |s.frames| <= m.posts[i] == m.store.groups[g].first + i
      && Wraps(m.store, m.posts[i], g, i, Origin(b.children[i], s.frames[h].env, now))
  {
    var b := s.frames[h].code.b;
    ForkStore(s, h, b, now);
    assert Step(s, h, now, later) == Fork(s, h, b, now);
    assert Fork(s, h, b, now).posts == Handles(|s.frames|, |b.children|);
    hide Fork, Step;
  }

  /** Frame `w` is the unstarted wrapper `i` of group `g`, with an unstarted task that came to be as `origin` says. */
  ghost predicate Wraps(s: Store, w: Handle, g: nat, i: nat, origin: Origin) {
    && w < |s.frames| && s.frames[w].code.Wrap? && s.frames[w].code.group == g && s.frames[w].code.index == i
    && var c := s.frames[w].code.task;
       c < |s.frames| && s.frames[c].origin == Some(origin) && s.frames[c].env == origin.env
       && s.frames[c].code == Start(origin.body)
  }

  // ---- The wrappers of a group ----

  ghost predicate WrapperStands(s: Store, g: nat, i: nat)
    requires g < |s.groups|
  {
    var k := s.groups[g].first + i;
    k < |s.frames| && s.frames[k].origin.None?
  }

  ghost predicate GroupStands(s: Store, g: nat)
    requires g < |s.groups|
  {
    forall i {:trigger WrapperStands(s, g, i)} :: 0 <= i < |s.groups[g].Children()| ==> WrapperStands(s, g, i)
  }

  ghost predicate GroupsStand(s: Store) {
    forall g {:trigger GroupStands(s, g)} :: 0 <= g < |s.groups| ==> GroupStands(s, g)
  }

  lemma {:induction false} GroupStandsOn(s: Store, s': Store, g: nat)
    requires Remembers(s, s') && g < |s.groups| && GroupStands(s, g)
    ensures g < |s'.groups| && GroupStands(s', g)
  {
    assert Settles(s.groups[g], s'.groups[g]);
    forall i: nat | i < |s'.groups[g].Children()| ensures WrapperStands(s', g, i) {
      assert WrapperStands(s, g, i);
      var k := s.groups[g].first + i;
      assert Outlives(s.frames[k], s'.frames[k]);
    }
  }

  lemma {:induction false} NewGroupStands(s: Store, h: Handle, now: int, later: int, g: nat)
    requires |s.groups| <= g < |Step(s, h, now, later).store.groups|
    ensures GroupStands(Step(s, h, now, later).store, g)
  {
    match s.frames[h].code
    case Start(b) => ForkStands(s, h, b, now, later, g);
    case _ =>
  }

  lemma {:induction false} ForkStands(s: Store, h: Handle, b: Body, now: int, later: int, g: nat)
    requires h < |s.frames| && |s.groups| <= g < |StepBody(s, h, b, now, later).store.groups|
    ensures GroupStands(StepBody(s, h, b, now, later).store, g)
  {
    hide Fork;
    if b.All? || b.Any? {
      ForkStore(s, h, b, now);
    }
  }

  lemma {:induction false} StepStands(s: Store, h: Handle, now: int, later: int)
    requires GroupsStand(s)
    ensures GroupsStand(Step(s, h, now, later).store)
  {
    hide Step, GroupStands;
    var s' := Step(s, h, now, later).store;
    StepRemembers(s, h, now, later);
    forall g | 0 <= g < |s'.groups| ensures GroupStands(s', g) {
      if g < |s.groups| {
        assert GroupStands(s, g);
        GroupStandsOn(s, s', g);
      } else {
        NewGroupStands(s, h, now, later, g);
      }
    }
  }

  lemma {:induction false} FaultStands(s: Store)
    requires GroupsStand(s)
    ensures GroupsStand(s.(fault := true))
  {
    hide GroupStands;
    RemembersItself(s);
    forall g | 0 <= g < |s.groups| ensures GroupStands(s.(fault := true), g) {
      assert GroupStands(s, g);
      GroupStandsOn(s, s.(fault := true), g);
    }
  }

  // ---- Whole runs ----

  ghost function Resumptions(trace: seq<Event>): seq<Handle> {
    seq(|trace|, i requires 0 <= i < |trace| => trace[i].handle)
  }

  /** What has been resumed so far, then what is ready, came into line in the order in which it was made. */
  ghost predicate StartsInLine(sys: Sys<Store>) {
    && Lined(sys.state.frames, Resumptions(sys.trace) + sys.ready)
    && NamesFrames(sys.timers, |sys.state.frames|) && GroupsStand(sys.state)
  }

  lemma {:induction false} ExecLined(s: Store, run: Option<Handle>, now: int, pace: Pace, fuel: nat, q: seq<Handle>)
    requires Lined(s.frames, q) && GroupsStand(s)
    ensures var r := Exec(s, run, now, pace, fuel).reaction;
      && Lined(r.state.frames, q + r.posts) && NamesFrames(r.sleeps, |r.state.frames|) && GroupsStand(r.state)
      && |s.frames| <= |r.state.frames|
    decreases fuel
  {
    hide Step, Lined, GroupsStand, Begins, Passes, Onward;
    assert q + [] == q;
    FaultStands(s);
    if run.Some? && fuel > 0 {
      var t, t' := Begins(now, pace), Passes(now, pace);
      var m := Step(s, run.value, t, t');
      StepLined(s, run.value, t, t', q);
      StepStands(s, run.value, t, t');
      StepRemembers(s, run.value, t, t');
      ExecLined(m.store, m.run, t', Onward(pace), fuel - 1, q + m.posts);
      var r := Exec(m.store, m.run, t', Onward(pace), fuel - 1).reaction;
      assert q + m.posts + r.posts == q + (m.posts + r.posts);
    }
  }

  lemma {:induction false} InsertNames(ts: seq<Timer>, x: Timer, n: nat)
    requires NamesFrames(ts, n) && x.handle < n
    ensures NamesFrames(Insert(ts, x), n)
  {
    if ts != [] && ts[|ts| - 1].when > x.when {
      InsertNames(ts[..|ts| - 1], x, n);
    }
  }

  lemma {:induction false} InsertAllNames(ts: seq<Timer>, xs: seq<Timer>, n: nat)
    requires NamesFrames(ts, n) && NamesFrames(xs, n)
    ensures NamesFrames(InsertAll(ts, xs), n)
  {
    if xs != [] {
      InsertAllNames(ts, xs[..|xs| - 1], n);
      InsertNames(InsertAll(ts, xs[..|xs| - 1]), xs[|xs| - 1], n);
    }
  }

  /** A handle, just taken off its queue, is resumed. */
  lemma {:induction false} ResumedLined(sys: Sys<Store>, h: Handle, pace: Pace)
    requires Lined(sys.state.frames, Resumptions(sys.trace) + [h] + sys.ready)
    requires NamesFrames(sys.timers, |sys.state.frames|) && GroupsStand(sys.state)
    ensures StartsInLine(ResumedLate(ResumeLate, sys, h, pace))
  {
    hide Exec, Lined, GroupsStand;
    var q := Resumptions(sys.trace) + [h] + sys.ready;
    ExecLined(sys.state, Some(h), sys.now, pace, Mass(sys.state.frames), q);
    var r := ResumeLate(sys.state, h, sys.now, pace).reaction;
    assert q + [] == q;
    InsertAllNames(sys.timers, r.sleeps, |r.state.frames|);
    assert Resumptions(sys.trace + [Event(h, sys.now)]) == Resumptions(sys.trace) + [h];
    assert q + r.posts == Resumptions(sys.trace + [Event(h, sys.now)]) + (sys.ready + r.posts);
  }

  lemma {:induction false} ServeLined(sys: Sys<Store>, pace: Pace)
    requires StartsInLine(sys) && sys.ready != []
    ensures StartsInLine(ServeLate(ResumeLate, sys, pace))
  {
    hide Lined, GroupsStand, ResumeLate;
    var h := sys.ready[0];
    assert Resumptions(sys.trace) + sys.ready == Resumptions(sys.trace) + [h] + sys.ready[1..];
    ResumedLined(sys.(ready := sys.ready[1..]), h, pace);
  }

  lemma {:induction false} FireLined(sys: Sys<Store>)
    requires StartsInLine(sys) && sys.ready == [] && sys.timers != []
    ensures StartsInLine(FireFront(Resume, sys))
  {
    hide Lined, GroupsStand, Resume, ResumeLate;
    var t := sys.timers[0];
    var sys' := sys.(timers := sys.timers[1..], now := Max(sys.now, t.when), fired := sys.fired + [t]);
    LinedAgain(sys.state.frames, Resumptions(sys.trace) + sys.ready, t.handle);
    assert Resumptions(sys.trace) + sys.ready + [t.handle] == Resumptions(sys.trace) + [t.handle] + sys.ready;
    ResumedLined(sys', t.handle, STILL);
    ResumedStill(sys', t.handle, STILL);
  }

  lemma {:induction false} DrainLined(sys: Sys<Store>)
    requires StartsInLine(sys)
    ensures StartsInLine(DrainExpired(sys))
  {
    hide Lined, GroupsStand;
    var k := DueCount(sys.timers, sys.now);
    var hs := HandlesOf(sys.timers[..k]);
    LinedAgainAll(sys.state.frames, Resumptions(sys.trace) + sys.ready, hs);
    assert Resumptions(sys.trace) + sys.ready + hs == Resumptions(sys.trace) + (sys.ready + hs);
  }

  /** Every state of every advance, from any such state. */
  lemma {:induction false} AdvanceStartsInLine(sys: Sys<Store>, target: int, n: nat, end: Sys<Store>)
    requires StartsInLine(sys) && AdvancesTo(Resume, sys, target, n, end)
    ensures StartsInLine(end)
    decreases n
  {
    hide Resume, ResumeLate;
    match ManualNext(Resume, sys, target) {
      case None =>
      case Some(next) =>
        hide StartsInLine;
        if sys.ready != [] {
          ServeLined(sys, STILL);
          ServedStill(sys, STILL);
        } else {
          FireLined(sys);
        }
        AdvanceStartsInLine(next, target, n - 1, end);
    }
  }

  /** And every state of `Run`, whatever the clock shows. */
  lemma {:induction false} RunForStartsInLine(sys: Sys<Store>, turns: seq<Turn>)
    requires StartsInLine(sys) && RunFor(ResumeLate, sys, turns).Some?
    ensures StartsInLine(RunFor(ResumeLate, sys, turns).value)
    decreases |turns|
  {
    hide ResumeLate;
    if turns != [] {
      var s := DrainExpired(sys.(now := turns[0].now));
      DrainLined(sys.(now := turns[0].now));
      if s.ready != [] {
        ServeLined(s, turns[0].pace);
      }
      RunForStartsInLine(RunTurn(ResumeLate, sys, turns[0]).value, turns[1..]);
    }
  }

  lemma {:induction false} LaunchStartsInLine(sys: Sys<Store>, b: Body, env: Env, detached: bool)
    requires StartsInLine(sys)
    ensures StartsInLine(Launched(sys, b, env, detached))
  {
    var s, sys' := sys.state, Launched(sys, b, env, detached);
    var f := TaskFrame(b, env, None, if detached then Itself else Driver, sys.now);
    LinedNew(s.frames, Resumptions(sys.trace) + sys.ready, f);
    assert Resumptions(sys.trace) + sys.ready + [|s.frames|] == Resumptions(sys'.trace) + sys'.ready;
    hide Lined;
    forall g | 0 <= g < |s.groups| ensures GroupStands(sys'.state, g) {
      assert GroupStands(s, g);
      forall i: nat | i < |s.groups[g].Children()| ensures WrapperStands(sys'.state, g, i) {
        assert WrapperStands(s, g, i);
      }
    }
  }

  lemma {:induction false} IdleStartsInLine(now: int)
    ensures StartsInLine(Idle(now))
  {
  }

  // ---- Argument order ----

  /** Wrapper `i` of group `g` is resumed for the first time before wrapper `k` is; until then it is in the ready queue,
      before it. */
  ghost predicate StartsBefore(sys: Sys<Store>, g: nat, i: nat, k: nat)
    requires g < |sys.state.groups|
  {
    var a, b := sys.state.groups[g].first + i, sys.state.groups[g].first + k;
    && (forall j {:trigger sys.trace[j]} :: 0 <= j < |sys.trace| && sys.trace[j].handle == b ==>
          exists l :: 0 <= l < j && sys.trace[l].handle == a)
    && ((forall l :: 0 <= l < |sys.trace| ==> sys.trace[l].handle != a) ==>
          a in sys.ready && forall j :: 0 <= j < |sys.ready| && sys.ready[j] == b ==> a in sys.ready[..j])
  }

  lemma {:induction false} BehindSplit(past: seq<Handle>, ready: seq<Handle>, a: Handle, b: Handle)
    requires Behind(past + ready, a, b) && a in past + ready
    ensures Behind(past, a, b) && (a in past || (a in ready && Behind(ready, a, b)))
  {
    var q := past + ready;
    forall j | 0 <= j < |past| && past[j] == b ensures a in past[..j] {
      assert q[j] == b && q[..j] == past[..j];
    }
    if a !in past {
      forall j | 0 <= j < |ready| && ready[j] == b ensures a in ready[..j] {
        assert q[|past| + j] == b && q[..|past| + j] == past + ready[..j];
      }
    }
  }

  lemma {:induction false} ChildrenInOrder(sys: Sys<Store>, g: nat, i: nat, k: nat)
    requires StartsInLine(sys) && g < |sys.state.groups| && i < k < |sys.state.groups[g].Children()|
    ensures StartsBefore(sys, g, i, k)
  {
    var s, a, b := sys.state, sys.state.groups[g].first + i, sys.state.groups[g].first + k;
    assert GroupStands(s, g) && WrapperStands(s, g, i) && WrapperStands(s, g, k);
    assert Made(s.frames, a) && Made(s.frames, b);
    var past := Resumptions(sys.trace);
    BehindSplit(past, sys.ready, a, b);
    hide Lined, GroupsStand, Made;
    forall j | 0 <= j < |sys.trace| && sys.trace[j].handle == b
      ensures exists l :: 0 <= l < j && sys.trace[l].handle == a
    {
      assert past[j] == b;
      var l :| 0 <= l < |past[..j]| && past[..j][l] == a;
      assert sys.trace[l].handle == a;
    }
  }

  /** At the end of any advance. */
  lemma {:induction false} AdvanceInArgumentOrder(sys: Sys<Store>, target: int, n: nat, end: Sys<Store>, g: nat, i: nat,
                                                  k: nat)
    requires StartsInLine(sys) && AdvancesTo(Resume, sys, target, n, end)
    requires g < |end.state.groups| && i < k < |end.state.groups[g].Children()|
    ensures StartsBefore(end, g, i, k)
  {
    AdvanceStartsInLine(sys, target, n, end);
    ChildrenInOrder(end, g, i, k);
  }

  /** After any stretch of `Run`, under any clock. */
  lemma {:induction false} RunForInArgumentOrder(sys: Sys<Store>, turns: seq<Turn>, g: nat, i: nat, k: nat)
    requires StartsInLine(sys) && RunFor(ResumeLate, sys, turns).Some?
    requires var end := RunFor(ResumeLate, sys, turns).value;
      g < |end.state.groups| && i < k < |end.state.groups[g].Children()|
    ensures StartsBefore(RunFor(ResumeLate, sys, turns).value, g, i, k)
  {
    RunForStartsInLine(sys, turns);
    ChildrenInOrder(RunFor(ResumeLate, sys, turns).value, g, i, k);
  }
}
