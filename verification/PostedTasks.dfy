/** Which detached tasks a program launches, each with its own body, its locals and its time. */
module PostedTasks {
  import opened Wrappers
  import opened Programs
  import opened Meaning
  import opened Cost
  import opened Timers
  import opened Runtime
  import opened Safety
  import opened SafetyGroups
  import opened Execution
  import opened Timing
  import opened TimedExecution
  import opened Horizon
  import opened Scheduling
  import opened WholeRuns
  import opened Guarantees

  // ---- In direct style ----

  /** No race anywhere, posted tasks included. */
  ghost predicate Calm(b: Body)
    decreases b
  {
    match b
    case Return(_) => true
    case Throw(_) => true
    case Branch(_, yes, no) => Calm(yes) && Calm(no)
    case Await(child, next, caught) => Calm(child) && Calm(next) && Calm(caught)
    case AwaitEmpty(_, next, caught) => Calm(next) && Calm(caught)
    case Sleep(_, next) => Calm(next)
    case All(children, next, caught) =>
      (forall i :: 0 <= i < |children| ==> Calm(children[i])) && Calm(next) && Calm(caught)
    case Any(_, _, _) => false
    case Spawn(task, next) => Calm(task) && Calm(next)
  }

  lemma {:induction false} CalmIsRaceFree(b: Body)
    requires Calm(b)
    ensures RaceFree(b)
    decreases b
  {
    match b
    case Branch(_, yes, no) =>
      CalmIsRaceFree(yes);
      CalmIsRaceFree(no);
    case Await(child, next, caught) =>
      CalmIsRaceFree(child);
      CalmIsRaceFree(next);
      CalmIsRaceFree(caught);
    case AwaitEmpty(_, next, caught) =>
      CalmIsRaceFree(next);
      CalmIsRaceFree(caught);
    case Sleep(_, next) => CalmIsRaceFree(next);
    case All(children, next, caught) =>
      forall i | 0 <= i < |children| ensures RaceFree(children[i]) {
        CalmIsRaceFree(children[i]);
      }
      CalmIsRaceFree(next);
      CalmIsRaceFree(caught);
    case Spawn(_, next) => CalmIsRaceFree(next);
    case _ =>
  }

  /** The tasks that `b`, started at `t` with locals `env`, posts on its way, and those that they post. */
  ghost function Posts(b: Body, env: Env, t: int): multiset<Origin>
    requires Calm(b)
    decreases b, 1
  {
    CalmIsRaceFree(b);
    match b
    case Return(_) => multiset{}
    case Throw(_) => multiset{}
    case Branch(cond, yes, no) => if cond(env) then Posts(yes, env, t) else Posts(no, env, t)
    case Await(child, next, caught) =>
      var r := Eval(child, env, t);
      Posts(child, env, t)
      + if r.o.Value? then Posts(next, env + [r.o], r.at) else Posts(caught, env + [r.o], r.at)
    case AwaitEmpty(isVoid, next, caught) =>
      if isVoid then Posts(next, env + [Value(Unit)], t) else Posts(caught, env + [Raised(LOGIC_ERROR)], t)
    case Sleep(duration, next) => Posts(next, env, t + Max(duration(env), 0))
    case All(children, next, caught) =>
      if children == [] then Posts(next, env + [Value(Tuple([]))], t)
      else
        var r := Joined(EvalAll(children, env, t));
        PostsOfAll(children, env, t)
        + if r.o.Value? then Posts(next, env + [r.o], r.at) else Posts(caught, env + [r.o], r.at)
    case Spawn(task, next) => multiset{Origin(task, env, t)} + Posts(task, env, t) + Posts(next, env, t)
  }

  ghost function PostsOfAll(bs: seq<Body>, env: Env, t: int): multiset<Origin>
    requires forall i :: 0 <= i < |bs| ==> Calm(bs[i])
    decreases bs, 0
  {
    if bs == [] then multiset{}
    else PostsOfAll(bs[..|bs| - 1], env, t) + Posts(bs[|bs| - 1], env, t)
  }

  /** The posts of what follows a `co_await` that delivered `r`. */
  ghost function PostsAfter(next: Body, caught: Body, env: Env, r: Done): multiset<Origin>
    requires Calm(next) && Calm(caught)
  {
    if r.o.Value? then Posts(next, env + [r.o], r.at) else Posts(caught, env + [r.o], r.at)
  }

  // ---- In the machine ----

  ghost predicate CalmCode(code: Code) {
    match code
    case Start(b) => Calm(b)
    case Awaiting(_, b) => b.Await? && Calm(b)
    case Sleeping(_, b) => b.Sleep? && Calm(b)
    case InGroup(_, b) => b.All? && b.children != [] && Calm(b)
    case _ => true
  }

  ghost predicate CalmFrames(frames: seq<Frame>) {
    forall k {:trigger frames[k]} :: 0 <= k < |frames| ==> CalmCode(frames[k].code)
  }

  /** What a frame has still to post: an unstarted or executing body from now on, a suspended one from when it will go
      on, which direct-style evaluation of what it waits for tells. */
  ghost function Owes(f: Frame, now: int): multiset<Origin>
    requires CalmCode(f.code)
  {
    match f.code
    case Start(b) => Posts(b, f.env, now)
    case Awaiting(_, b) =>
      CalmIsRaceFree(b);
      PostsAfter(b.next, b.caught, f.env, Eval(b.child, f.env, f.since))
    case Sleeping(w, b) => Posts(b.next, f.env, w)
    case InGroup(_, b) =>
      CalmIsRaceFree(b);
      PostsAfter(b.next, b.caught, f.env, Joined(EvalAll(b.children, f.env, f.since)))
    case _ => multiset{}
  }

  /** A detached task that there is, or was. */
  ghost function Own(f: Frame): multiset<Origin> {
    if f.origin.Some? && f.owner.Itself? then multiset{f.origin.value} else multiset{}
  }

  ghost function Share(f: Frame, now: int): multiset<Origin>
    requires CalmCode(f.code)
  {
    Own(f) + Owes(f, now)
  }

  /** The detached tasks that have been created. */
  ghost function Detached(frames: seq<Frame>): multiset<Origin> {
    if frames == [] then multiset{} else Detached(frames[..|frames| - 1]) + Own(frames[|frames| - 1])
  }

  /** They and those still to come. */
  ghost function Total(frames: seq<Frame>, now: int): multiset<Origin>
    requires CalmFrames(frames)
  {
    if frames == [] then multiset{} else Total(frames[..|frames| - 1], now) + Share(frames[|frames| - 1], now)
  }

  // ---- Sums ----

  lemma {:induction false} Rearranged(a: multiset<Origin>, x: multiset<Origin>, b: multiset<Origin>,
                                      y: multiset<Origin>, z: multiset<Origin>)
    requires a + x == b + y
    ensures (a + z) + x == (b + z) + y
  {
    forall o ensures ((a + z) + x)[o] == ((b + z) + y)[o] {
      assert (a + x)[o] == (b + y)[o];
    }
  }

  lemma {:induction false} TotalUpdate(frames: seq<Frame>, h: Handle, f: Frame, now: int)
    requires CalmFrames(frames) && h < |frames| && CalmCode(f.code)
    ensures CalmFrames(frames[h := f])
    ensures Total(frames[h := f], now) + Share(frames[h], now) == Total(frames, now) + Share(f, now)
  {
    hide Share, CalmCode;
    var n := |frames| - 1;
    if h < n {
      TotalUpdate(frames[..n], h, f, now);
      assert frames[h := f][..n] == frames[..n][h := f];
      Rearranged(Total(frames[..n][h := f], now), Share(frames[h], now), Total(frames[..n], now), Share(f, now),
                 Share(frames[n], now));
    } else {
      assert frames[h := f][..n] == frames[..n];
    }
  }

  lemma {:induction false} Associates(a: multiset<Origin>, b: multiset<Origin>, c: multiset<Origin>)
    ensures (a + b) + c == a + (b + c)
  {
  }

  lemma {:induction false} TotalAppend(a: seq<Frame>, b: seq<Frame>, now: int)
    requires CalmFrames(a) && CalmFrames(b)
    ensures CalmFrames(a + b) && Total(a + b, now) == Total(a, now) + Total(b, now)
  {
    hide Share, CalmCode;
    if b == [] {
      assert a + b == a;
    } else {
      var n := |b| - 1;
      TotalAppend(a, b[..n], now);
      assert (a + b)[..|a + b| - 1] == a + b[..n];
      Associates(Total(a, now), Total(b[..n], now), Share(b[n], now));
    }
  }

  /** Frames with equal shares have equal totals. */
  lemma {:induction false} TotalSame(a: seq<Frame>, now: int, b: seq<Frame>, later: int)
    requires CalmFrames(a) && CalmFrames(b) && |a| == |b|
    requires forall k {:trigger a[k]} :: 0 <= k < |a| ==> Share(a[k], now) == Share(b[k], later)
    ensures Total(a, now) == Total(b, later)
  {
    if a != [] {
      var n := |a| - 1;
      forall k | 0 <= k < n ensures Share(a[..n][k], now) == Share(b[..n][k], later) {
        assert a[..n][k] == a[k];
      }
      TotalSame(a[..n], now, b[..n], later);
    }
  }

  lemma {:induction false} TotalOfDone(frames: seq<Frame>, now: int)
    requires CalmFrames(frames)
    requires forall k {:trigger frames[k]} :: 0 <= k < |frames| ==> Owes(frames[k], now) == multiset{}
    ensures Total(frames, now) == Detached(frames)
  {
    if frames != [] {
      TotalOfDone(frames[..|frames| - 1], now);
    }
  }

  // ---- Steps ----

  /** When a task posts another, the one new frame stands at the start of that task, detached, with the locals that the
      poster has at that point, and is what is posted; the poster goes on. */
  lemma {:induction false} PostingStands(s: Store, run: Option<Handle>, h: Handle, now: int, later: int,
                                         ready: multiset<Handle>, timers: multiset<Timer>)
    requires Inv(s, run, ready, timers) && h < |s.frames| && s.frames[h].code.Start? && s.frames[h].code.b.Spawn?
    ensures var Spawn(task, next) := s.frames[h].code.b; var env := s.frames[h].env;
      var m, k := Step(s, h, now, later), |s.frames|;
      && |m.store.frames| == k + 1 && m.posts == [k] && m.sleeps == [] && m.run == Some(h)
      && m.store.frames[k] == Frame(Start(task), env, None, Itself, now, Some(Origin(task, env, now)))
      && m.store.frames[h] == s.frames[h].(code := Start(next))
      && forall j :: 0 <= j < k && j != h ==> m.store.frames[j] == s.frames[j]
  {
  }

  /** The executing frame moves on and may have created others. */
  lemma {:induction false} LocalTotal(frames: seq<Frame>, h: Handle, f: Frame, created: seq<Frame>, now: int)
    requires CalmFrames(frames) && h < |frames| && CalmCode(f.code) && CalmFrames(created)
    requires Share(frames[h], now) == Share(f, now) + Total(created, now)
    ensures CalmFrames(frames[h := f] + created)
    ensures Total(frames[h := f] + created, now) == Total(frames, now)
  {
    hide Share, Total, CalmCode;
    TotalUpdate(frames, h, f, now);
    TotalAppend(frames[h := f], created, now);
    Canceled(Total(frames[h := f], now), Total(frames, now), Share(f, now), Total(created, now));
  }

  lemma {:induction false} Canceled(a: multiset<Origin>, b: multiset<Origin>, x: multiset<Origin>, y: multiset<Origin>)
    requires a + (x + y) == b + x
    ensures a + y == b
  {
    forall o ensures (a + y)[o] == b[o] {
      assert (a + (x + y))[o] == (b + x)[o];
    }
  }

  lemma {:induction false} TotalOfOne(f: Frame, now: int)
    requires CalmCode(f.code)
    ensures CalmFrames([f]) && Total([f], now) == Share(f, now)
  {
    assert [f][..0] == [];
  }

  /** Awaiting a task divides what is owed between the two frames. */
  lemma {:induction false} AwaitTotal(s: Store, h: Handle, b: Body, now: int)
    requires h < |s.frames| && CalmFrames(s.frames) && s.frames[h].code == Start(b) && b.Await?
    ensures var s' := AwaitTask(s, h, b, now).store;
      CalmFrames(s'.frames) && Total(s'.frames, now) == Total(s.frames, now)
  {
    var f, c := s.frames[h], |s.frames|;
    var f' := Suspend(f, Awaiting(c, b), now);
    var child := TaskFrame(b.child, f.env, Some(h), Awaiter(h), now);
    assert Calm(b);
    TotalOfOne(child, now);
    LocalTotal(s.frames, h, f', [child], now);
  }

  lemma {:induction false} SpawnTotal(s: Store, h: Handle, b: Body, now: int)
    requires h < |s.frames| && CalmFrames(s.frames) && s.frames[h].code == Start(b) && b.Spawn?
    ensures var s' := SpawnTask(s, h, b, now).store;
      CalmFrames(s'.frames) && Total(s'.frames, now) == Total(s.frames, now)
  {
    var f := s.frames[h];
    var task := TaskFrame(b.task, f.env, None, Itself, now);
    assert Calm(b);
    TotalOfOne(task, now);
    LocalTotal(s.frames, h, f.(code := Start(b.next)), [task], now);
  }

  lemma {:induction false} TaskShare(f: Frame, b: Body, env: Env, now: int)
    requires f.code == Start(b) && Calm(b) && f.env == env && !f.owner.Itself?
    ensures CalmCode(f.code) && Share(f, now) == Posts(b, env, now)
  {
    hide Posts;
  }

  /** The children of a join owe what `PostsOfAll` says, its wrappers nothing. */
  lemma {:induction false} TotalOfTasks(tasks: seq<Frame>, bs: seq<Body>, env: Env, now: int)
    requires |tasks| == |bs| && forall i :: 0 <= i < |bs| ==> Calm(bs[i])
    requires forall i {:trigger tasks[i]} :: 0 <= i < |bs| ==>
      tasks[i].code == Start(bs[i]) && tasks[i].env == env && !tasks[i].owner.Itself?
    ensures CalmFrames(tasks) && Total(tasks, now) == PostsOfAll(bs, env, now)
  {
    hide Share, Posts;
    forall i | 0 <= i < |bs| ensures CalmCode(tasks[i].code) && Share(tasks[i], now) == Posts(bs[i], env, now) {
      TaskShare(tasks[i], bs[i], env, now);
    }
    if bs != [] {
      var n := |bs| - 1;
      forall i | 0 <= i < n
        ensures tasks[..n][i].code == Start(bs[..n][i]) && tasks[..n][i].env == env && !tasks[..n][i].owner.Itself?
      {
        assert tasks[..n][i] == tasks[i];
      }
      TotalOfTasks(tasks[..n], bs[..n], env, now);
    }
  }

  lemma {:induction false} TotalOfWrappers(ws: seq<Frame>, now: int)
    requires forall i {:trigger ws[i]} :: 0 <= i < |ws| ==> ws[i].code.Wrap? && ws[i].origin.None?
    ensures CalmFrames(ws) && Total(ws, now) == multiset{}
  {
    if ws != [] {
      TotalOfWrappers(ws[..|ws| - 1], now);
    }
  }

  /** A fork divides what is owed between the parent and the children. */
  lemma {:induction false} ForkShare(f: Frame, g: nat, b: Body, now: int)
    requires f.code == Start(b) && b.All? && b.children != [] && Calm(b)
    ensures var f' := Suspend(f, InGroup(g, b), now);
      CalmCode(f'.code) && Share(f, now) == Share(f', now) + PostsOfAll(b.children, f.env, now)
  {
    CalmIsRaceFree(b);
    hide PostsOfAll, EvalAll, Joined;
    var f' := Suspend(f, InGroup(g, b), now);
    assert Own(f') == Own(f);
    hide Own;
    var r := Joined(EvalAll(b.children, f.env, now));
    assert Owes(f', now) == PostsAfter(b.next, b.caught, f.env, r);
    assert Owes(f, now) == PostsOfAll(b.children, f.env, now) + PostsAfter(b.next, b.caught, f.env, r);
  }

  lemma {:induction false} ForkTotal(s: Store, h: Handle, b: Body, now: int)
    requires h < |s.frames| && CalmFrames(s.frames) && s.frames[h].code == Start(b) && b.All? && b.children != []
    ensures var s' := Fork(s, h, b, now).store;
      CalmFrames(s'.frames) && Total(s'.frames, now) == Total(s.frames, now)
  {
    hide Share, Total, PostsOfAll;
    var f, first, g := s.frames[h], |s.frames|, |s.groups|;
    var f' := Suspend(f, InGroup(g, b), now);
    var ws, ts := WrapperFrames(b.children, first, g, true, now), TaskFrames(b.children, f.env, first, now);
    assert CalmCode(f.code);
    TotalOfWrappers(ws, now);
    TotalOfTasks(ts, b.children, f.env, now);
    TotalAppend(ws, ts, now);
    ForkShare(f, g, b, now);
    assert multiset{} + PostsOfAll(b.children, f.env, now) == PostsOfAll(b.children, f.env, now);
    hide CalmCode;
    LocalTotal(s.frames, h, f', ws + ts, now);
    assert s.frames[h := f'] + ws + ts == s.frames[h := f'] + (ws + ts);
  }

  /** A step that changes no share. */
  ghost predicate KeepsShares(s: Store, s': Store, now: int)
    requires CalmFrames(s.frames)
  {
    && |s'.frames| == |s.frames| && CalmFrames(s'.frames)
    && forall k {:trigger s.frames[k]} :: 0 <= k < |s.frames| ==> Share(s.frames[k], now) == Share(s'.frames[k], now)
  }

  /** A frame that stands where it stood. */
  lemma {:induction false} SameShare(f: Frame, f': Frame, now: int)
    requires CalmCode(f.code) && f'.code == f.code && f'.env == f.env && f'.since == f.since && f'.origin == f.origin
    requires f'.owner.Itself? <==> f.owner.Itself?
    ensures Share(f', now) == Share(f, now)
  {
    hide Posts, PostsAfter, Eval, EvalAll;
  }

  /** A frame that has nothing to post. */
  lemma {:induction false} BareShare(f: Frame, now: int)
    requires CalmCode(f.code) && !f.code.Start? && !f.code.Awaiting? && !f.code.Sleeping? && !f.code.InGroup?
    ensures Share(f, now) == Own(f)
  {
    hide Posts, PostsAfter, Eval, EvalAll;
  }

  /** What a frame that has just been handed `r` owes. */
  lemma {:induction false} DeliveredShare(f: Frame, next: Body, caught: Body, r: Done, f': Frame)
    requires Calm(next) && Calm(caught)
    requires f' == f.(code := Start(if r.o.Value? then next else caught), env := f.env + [r.o])
    ensures CalmCode(f'.code) && Share(f', r.at) == Own(f) + PostsAfter(next, caught, f.env, r)
  {
    hide Posts, Calm;
  }

  lemma {:induction false} AwaitedShare(f: Frame, c: Handle, b: Body, now: int)
    requires f.code == Awaiting(c, b) && b.Await? && Calm(b)
    ensures RaceFree(b)
    ensures Share(f, now) == Own(f) + PostsAfter(b.next, b.caught, f.env, Eval(b.child, f.env, f.since))
  {
    CalmIsRaceFree(b);
    hide Posts, Eval, PostsAfter;
  }

  /** The awaited task has ended as its evaluation says, now. */
  lemma {:induction false} TaskDoneShares(s: Store, h: Handle, c: Handle, b: Body, now: int)
    requires h < |s.frames| && CalmFrames(s.frames) && s.frames[h].code == Awaiting(c, b) && s.frames[h].origin.Some?
    requires IsFinished(s, c) && c != h && FrameTimed(true, s, now, h) && FrameTimed(true, s, now, c)
    ensures KeepsShares(s, TaskDone(s, h, c, b).store, now)
  {
    hide Share, Posts, PostsAfter;
    var f, r, s' := s.frames[h], Done(s.frames[c].code.o, now), TaskDone(s, h, c, b).store;
    assert CalmCode(f.code);
    AwaitedShare(f, c, b, now);
    EvalIsMeaning(b.child, f.env, f.since, r);
    hide Eval, Ends, Refines, Calm;
    DeliveredShare(f, b.next, b.caught, r, s'.frames[h]);
    BareShare(s.frames[c], now);
    BareShare(s'.frames[c], now);
  }

  lemma {:induction false} WrapperDoneShares(s: Store, h: Handle, c: Handle, g: nat, i: nat, now: int)
    requires Reports(s, h, c, g, i) && CalmFrames(s.frames)
    ensures KeepsShares(s, WrapperDone(s, h, c, g, i, now).store, now)
  {
    WrapperDoneStore(s, h, c, g, i, now);
    var s' := WrapperDone(s, h, c, g, i, now).store;
    hide WrapperDone, Share;
    WrapperDoneWorks(s, h, c, g, i, now);
    BareShare(s.frames[h], now);
    BareShare(s'.frames[h], now);
    BareShare(s.frames[c], now);
    BareShare(s'.frames[c], now);
    hide Reports;
    forall k | 0 <= k < |s.frames|
      ensures CalmCode(s'.frames[k].code) && Share(s.frames[k], now) == Share(s'.frames[k], now)
    {
      if k != h && k != c {
        assert s'.frames[k] == s.frames[k];
      }
    }
  }

  lemma {:induction false} StartWrapperShares(s: Store, h: Handle, task: Handle, g: nat, i: nat, now: int)
    requires h < |s.frames| && CalmFrames(s.frames) && s.frames[h].code == Wrap(task, g, i)
    requires task < |s.frames| && task != h && s.frames[task].owner.Argument?
    ensures KeepsShares(s, StartWrapper(s, h, task, g, i, now).store, now)
  {
    hide Share;
    var s' := StartWrapper(s, h, task, g, i, now).store;
    BareShare(s.frames[h], now);
    if s' != s.(fault := true) {
      BareShare(s'.frames[h], now);
      SameShare(s.frames[task], s'.frames[task], now);
    }
  }

  /** The join has ended as its evaluation says, now. */
  lemma {:induction false} JoinEvaluated(s: Store, h: Handle, g: nat, b: Body, now: int)
    requires FramesOk(s, Some(h)) && Joins(s, h, g, b) && FrameTimed(true, s, now, h) && GroupTimed(true, s, now, g)
    requires b.All? && Calm(b) && s.groups[g].Join?
    ensures Engaged(s.groups[g].slots) && b.children != [] && RaceFree(b)
    ensures var rs := Completions(s.groups[g].slots);
      rs == EvalAll(b.children, s.frames[h].env, s.frames[h].since) && Latest(rs) == now
  {
    var f, group := s.frames[h], s.groups[g];
    WrappersStand(s, h, g, b);
    var rs := Completions(group.slots);
    JoinClosed(true, group, now, rs);
    CalmIsRaceFree(b);
    assert AllEnd(true, b.children, f.env, f.since, rs);
    EvalAllIsMeaning(b.children, f.env, f.since);
  }

  lemma {:induction false} GroupDoneShares(s: Store, h: Handle, g: nat, b: Body, now: int)
    requires FramesOk(s, Some(h)) && Joins(s, h, g, b) && FrameTimed(true, s, now, h) && GroupTimed(true, s, now, g)
    requires CalmFrames(s.frames)
    ensures (b.All? || b.Any?) && KeepsShares(s, GroupDone(s, h, g, b).store, now)
  {
    assert CalmCode(s.frames[h].code);
    GroupDoneStore(s, h, g, b);
    JoinEvaluated(s, h, g, b, now);
    var s' := GroupDone(s, h, g, b).store;
    forall k | 0 <= k < |s.frames| && k != h
      ensures CalmCode(s'.frames[k].code) && Share(s'.frames[k], now) == Share(s.frames[k], now)
    {
      HandedShare(s, s', h, g, b, k, now);
    }
    HandedSelf(s, h, g, b, now);
  }

  lemma {:induction false} HandedShare(s: Store, s': Store, h: Handle, g: nat, b: Body, k: Handle, now: int)
    requires FramesOk(s, Some(h)) && Joins(s, h, g, b) && s' == GroupDone(s, h, g, b).store
    requires b.All? || b.Any?
    requires CalmFrames(s.frames) && k < |s.frames| && k != h
    ensures k < |s'.frames| && CalmCode(s'.frames[k].code) && Share(s'.frames[k], now) == Share(s.frames[k], now)
  {
    GroupDoneStore(s, h, g, b);
    HandedOwn(s, s', h, g, b, k);
    hide GroupDone, Share, Joins, FramesOk;
    if s'.frames[k] != s.frames[k] {
      BareShare(s.frames[k], now);
      BareShare(s'.frames[k], now);
    }
  }

  lemma {:induction false} HandedOwn(s: Store, s': Store, h: Handle, g: nat, b: Body, k: Handle)
    requires FramesOk(s, Some(h)) && Joins(s, h, g, b) && s' == GroupDone(s, h, g, b).store
    requires (b.All? || b.Any?) && k < |s.frames| && k != h
    ensures k < |s'.frames| && Own(s'.frames[k]) == Own(s.frames[k])
  {
    GroupDoneStore(s, h, g, b);
  }

  lemma {:induction false} JoinedShare(f: Frame, g: nat, b: Body, now: int)
    requires f.code == InGroup(g, b) && b.All? && b.children != [] && Calm(b)
    ensures RaceFree(b)
    ensures Share(f, now) == Own(f) + PostsAfter(b.next, b.caught, f.env, Joined(EvalAll(b.children, f.env, f.since)))
  {
    CalmIsRaceFree(b);
    hide Posts, EvalAll, PostsAfter;
  }

  lemma {:induction false} HandedSelf(s: Store, h: Handle, g: nat, b: Body, now: int)
    requires FramesOk(s, Some(h)) && Joins(s, h, g, b) && CalmFrames(s.frames) && s.groups[g].Join? && b.All?
    requires RaceFree(b)
    requires Engaged(s.groups[g].slots) && b.children != []
    requires Completions(s.groups[g].slots) == EvalAll(b.children, s.frames[h].env, s.frames[h].since)
    requires Latest(Completions(s.groups[g].slots)) == now
    ensures var s' := GroupDone(s, h, g, b).store;
      h < |s'.frames| && CalmCode(s'.frames[h].code) && Share(s'.frames[h], now) == Share(s.frames[h], now)
  {
    hide Share, Posts, PostsAfter, Eval;
    WrappersStand(s, h, g, b);
    assert CalmCode(s.frames[h].code);
    var f := s.frames[h];
    JoinedShare(f, g, b, now);
    DeliveredShare(f, b.next, b.caught, Joined(EvalAll(b.children, f.env, f.since)),
                   GroupDone(s, h, g, b).store.frames[h]);
  }

  /** A statement that creates no frame. */
  lemma {:induction false} GoesOnTotal(s: Store, s': Store, h: Handle, f: Frame, now: int)
    requires h < |s.frames| && CalmFrames(s.frames) && s'.frames == s.frames[h := f]
    requires CalmCode(f.code) && Share(s.frames[h], now) == Share(f, now)
    ensures CalmFrames(s'.frames) && Total(s'.frames, now) == Total(s.frames, now)
  {
    hide Share, CalmCode;
    assert s.frames[h := f] + [] == s.frames[h := f];
    assert Share(f, now) + multiset{} == Share(f, now);
    LocalTotal(s.frames, h, f, [], now);
  }

  /** `b` is a statement that starts nothing; execution goes on at `b'` with locals `env'`. */
  ghost predicate Proceeds(b: Body, env: Env, b': Body, env': Env) {
    match b
    case Branch(cond, yes, no) => env' == env && b' == (if cond(env) then yes else no)
    case AwaitEmpty(isVoid, next, caught) =>
      env' == env + [EmptyTaskOutcome(isVoid)] && b' == (if EmptyTaskOutcome(isVoid).Value? then next else caught)
    case Sleep(duration, next) => duration(env) <= 0 && env' == env && b' == next
    case All(children, next, _) => children == [] && env' == env + [Value(Tuple([]))] && b' == next
    case _ => false
  }

  lemma {:induction false} BranchPosts(cond: Env -> bool, yes: Body, no: Body, env: Env, now: int)
    requires Calm(Branch(cond, yes, no))
    ensures var b' := if cond(env) then yes else no;
      Calm(b') && Posts(b', env, now) == Posts(Branch(cond, yes, no), env, now)
  {
    hide Eval, EvalAll, PostsOfAll;
  }

  lemma {:induction false} AwaitEmptyPosts(isVoid: bool, next: Body, caught: Body, env: Env, now: int)
    requires Calm(AwaitEmpty(isVoid, next, caught))
    ensures var o := EmptyTaskOutcome(isVoid); var b' := if o.Value? then next else caught;
      Calm(b') && Posts(b', env + [o], now) == Posts(AwaitEmpty(isVoid, next, caught), env, now)
  {
    hide Eval, EvalAll, PostsOfAll;
  }

  lemma {:induction false} NoChildrenPosts(next: Body, caught: Body, env: Env, now: int)
    requires Calm(All([], next, caught))
    ensures Calm(next) && Posts(next, env + [Value(Tuple([]))], now) == Posts(All([], next, caught), env, now)
  {
    hide Eval, EvalAll, PostsOfAll;
  }

  /** What follows it posts what it does. */
  lemma {:induction false} PassedPosts(b: Body, env: Env, now: int, b': Body, env': Env)
    requires Calm(b) && Proceeds(b, env, b', env')
    ensures Calm(b') && Posts(b', env', now) == Posts(b, env, now)
  {
    hide Posts, Calm;
    match b
    case Branch(cond, yes, no) => BranchPosts(cond, yes, no, env, now);
    case AwaitEmpty(isVoid, next, caught) => AwaitEmptyPosts(isVoid, next, caught, env, now);
    case Sleep(_, _) =>
      LastPosts(b, env, now);
      CalmNext(b);
    case All(_, next, caught) => NoChildrenPosts(next, caught, env, now);
  }

  /** An ending posts nothing more, a sleep what follows it, after it. */
  lemma {:induction false} LastPosts(b: Body, env: Env, now: int)
    requires Calm(b)
    ensures b.Return? || b.Throw? ==> Posts(b, env, now) == multiset{}
    ensures b.Sleep? ==> Posts(b, env, now) == Posts(b.next, env, now + Max(b.duration(env), 0))
  {
    hide Eval, EvalAll, PostsOfAll;
  }

  lemma {:induction false} CalmNext(b: Body)
    requires Calm(b) && b.Sleep?
    ensures Calm(b.next)
  {
  }

  /** The frame `f'` that has executed a statement that creates no frame. */
  ghost predicate Executed(f: Frame, b: Body, f': Frame, now: int) {
    && f'.owner == f.owner && f'.origin == f.origin
    && match f'.code
       case Start(b') => Proceeds(b, f.env, b', f'.env)
       case Sleeping(w, b') =>
         b' == b && b.Sleep? && f'.env == f.env && w == now + Max(b.duration(f.env), 0)
       case Finished(_) => b.Return? || b.Throw?
       case Destroyed(_) => b.Return? || b.Throw?
       case _ => false
  }

  lemma {:induction false} StatementStore(s: Store, h: Handle, b: Body, now: int)
    requires h < |s.frames| && CalmFrames(s.frames) && s.frames[h].code == Start(b)
    requires !b.Await? && !b.Spawn? && (b.All? ==> b.children == [])
    ensures var s' := StepBody(s, h, b, now, now).store;
      && |s'.frames| == |s.frames| && s'.frames == s.frames[h := s'.frames[h]]
      && Executed(s.frames[h], b, s'.frames[h], now)
  {
    assert CalmCode(s.frames[h].code);
  }

  /** What follows the statement is owed as the statement was. */
  lemma {:induction false} StatementShare(f: Frame, b: Body, f': Frame, now: int)
    requires f.code == Start(b) && Calm(b) && Executed(f, b, f', now)
    ensures CalmCode(f'.code) && Share(f, now) == Share(f', now)
  {
    hide Posts, Proceeds, Calm, PostsAfter;
    assert Own(f') == Own(f);
    if f'.code.Start? {
      PassedPosts(b, f.env, now, f'.code.b, f'.env);
    } else {
      LastPosts(b, f.env, now);
      if f'.code.Sleeping? {
        CalmNext(b);
      }
    }
  }

  lemma {:induction false} StatementTotal(s: Store, h: Handle, b: Body, now: int)
    requires h < |s.frames| && CalmFrames(s.frames) && s.frames[h].code == Start(b)
    requires !b.Await? && !b.Spawn? && (b.All? ==> b.children == [])
    ensures var s' := StepBody(s, h, b, now, now).store;
      CalmFrames(s'.frames) && Total(s'.frames, now) == Total(s.frames, now)
  {
    assert CalmCode(s.frames[h].code);
    hide Share, Total, CalmFrames, Executed, Calm;
    StatementStore(s, h, b, now);
    hide StepBody;
    var s' := StepBody(s, h, b, now, now).store;
    StatementShare(s.frames[h], b, s'.frames[h], now);
    GoesOnTotal(s, s', h, s'.frames[h], now);
  }

  lemma {:induction false} CreatingSteps(s: Store, h: Handle, b: Body, now: int)
    requires h < |s.frames|
    ensures b.Await? ==> StepBody(s, h, b, now, now) == AwaitTask(s, h, b, now)
    ensures b.Spawn? ==> StepBody(s, h, b, now, now) == SpawnTask(s, h, b, now)
    ensures b.All? && b.children != [] ==> StepBody(s, h, b, now, now) == Fork(s, h, b, now)
  {
  }

  lemma {:induction false} StepBodyTotal(s: Store, h: Handle, b: Body, now: int)
    requires h < |s.frames| && CalmFrames(s.frames) && s.frames[h].code == Start(b)
    ensures var s' := StepBody(s, h, b, now, now).store;
      CalmFrames(s'.frames) && Total(s'.frames, now) == Total(s.frames, now)
  {
    hide Share, Total, CalmFrames, Fork, AwaitTask, SpawnTask, StepBody;
    CreatingSteps(s, h, b, now);
    if b.Await? {
      AwaitTotal(s, h, b, now);
    } else if b.Spawn? {
      SpawnTotal(s, h, b, now);
    } else if b.All? && b.children != [] {
      ForkTotal(s, h, b, now);
    } else {
      StatementTotal(s, h, b, now);
    }
  }

  /** A sleeper wakes exactly at its deadline. */
  lemma {:induction false} WakeShare(s: Store, h: Handle, w: int, b: Body, now: int)
    requires h < |s.frames| && CalmFrames(s.frames) && s.frames[h].code == Sleeping(w, b) && w == now && b.Sleep?
    ensures var f := s.frames[h].(code := Start(b.next)); CalmCode(f.code) && Share(s.frames[h], now) == Share(f, now)
  {
    assert CalmCode(s.frames[h].code);
    hide Posts;
  }

  lemma {:induction false} KeptTotal(s: Store, s': Store, now: int)
    requires CalmFrames(s.frames) && KeepsShares(s, s', now)
    ensures CalmFrames(s'.frames) && Total(s'.frames, now) == Total(s.frames, now)
  {
    hide Share, CalmCode;
    TotalSame(s.frames, now, s'.frames, now);
  }

  /** No step creates a detached task that was not to come, or forgets one. */
  lemma {:induction false} StepTotal(s: Store, h: Handle, now: int, ready: multiset<Handle>, timers: multiset<Timer>)
    requires Inv(s, Some(h), ready, timers) && Timed(true, s, now) && Awake(s, Some(h), now) && CalmFrames(s.frames)
    ensures var s' := Step(s, h, now, now).store;
      CalmFrames(s'.frames) && Total(s'.frames, now) == Total(s.frames, now)
  {
    hide Share, Total, KeepsShares, CalmFrames;
    assert FrameOk(s, Some(h), h) && FrameTimed(true, s, now, h);
    match s.frames[h].code
    case Start(b) => StepBodyTotal(s, h, b, now);
    case Wrap(task, g, i) =>
      StartWrapperShares(s, h, task, g, i, now);
      KeptTotal(s, StartWrapper(s, h, task, g, i, now).store, now);
    case Awaiting(c, b) =>
      assert FrameTimed(true, s, now, c);
      TaskDoneShares(s, h, c, b, now);
      KeptTotal(s, TaskDone(s, h, c, b).store, now);
    case WrapAwaiting(c, g, i) =>
      assert FrameOk(s, Some(h), c) && GroupOk(s, g);
      WrapperDoneShares(s, h, c, g, i, now);
      KeptTotal(s, WrapperDone(s, h, c, g, i, now).store, now);
    case Sleeping(w, b) =>
      WakeShare(s, h, w, b, now);
      GoesOnTotal(s, Step(s, h, now, now).store, h, s.frames[h].(code := Start(b.next)), now);
    case InGroup(g, b) =>
      assert GroupOk(s, g) && GroupTimed(true, s, now, g);
      GroupDoneShares(s, h, g, b, now);
      KeptTotal(s, GroupDone(s, h, g, b).store, now);
  }

  // ---- Runs in virtual time ----

  lemma {:induction false} ExecTotal(s: Store, run: Option<Handle>, now: int, pace: Pace, fuel: nat,
                                     ready: multiset<Handle>, timers: multiset<Timer>)
    requires Inv(s, run, ready, timers) && Mass(s.frames) <= fuel && Timed(true, s, now) && Due(s, timers, now)
    requires Standing(pace) && CalmFrames(s.frames)
    ensures var s' := Exec(s, run, now, pace, fuel).reaction.state;
      CalmFrames(s'.frames) && Total(s'.frames, now) == Total(s.frames, now)
    decreases fuel
  {
    hide Step, Inv, Timed, Due, Total, CalmFrames, Mass, Standing, Begins, Passes, Onward;
    if run.Some? {
      var h := run.value;
      StandsStill(now, pace);
      StepMass(s, h, now, now, ready, timers);
      StepSafe(s, h, now, now, ready, timers);
      StepPasses(true, s, h, now, now, now, ready, timers);
      DueRuns(s, h, now, ready, timers);
      StepTotal(s, h, now, ready, timers);
      var m := Step(s, h, now, now);
      if !Escapes(s, h) {
        ExecTotal(m.store, m.run, now, Onward(pace), fuel - 1, ready + multiset(m.posts), timers + multiset(m.sleeps));
      }
    }
  }

  /** The law: what has been posted, with what is still to come. */
  ghost predicate Accounts(sys: Sys<Store>, all: multiset<Origin>) {
    CalmFrames(sys.state.frames) && Total(sys.state.frames, sys.now) == all
  }

  lemma {:induction false} ServeTotal(sys: Sys<Store>, all: multiset<Origin>)
    requires Good(true, sys) && !sys.state.aborted && sys.ready != [] && Accounts(sys, all)
    ensures Accounts(ServeFront(Resume, sys), all)
  {
    hide Exec, Inv, Timed, Due, Total, CalmFrames;
    TakeFront(sys.ready);
    TakeReady(sys.state, sys.ready[0], multiset(sys.ready), multiset(sys.timers));
    ExecTotal(sys.state, Some(sys.ready[0]), sys.now, STILL, Mass(sys.state.frames), multiset(sys.ready[1..]),
              multiset(sys.timers));
  }

  /** While time passes nothing executes. */
  lemma {:induction false} TickTotal(sys: Sys<Store>, now: int, all: multiset<Origin>)
    requires Good(true, sys) && !sys.state.aborted && Accounts(sys, all) && sys.now <= now
    requires sys.now < now ==> sys.ready == [] && (sys.timers != [] ==> now <= sys.timers[0].when)
    ensures Accounts(sys.(now := now), all)
  {
    if sys.now < now {
      var s := sys.state;
      QuietUntil(true, sys, now);
      forall k | 0 <= k < |s.frames| ensures Share(s.frames[k], sys.now) == Share(s.frames[k], now) {
        NotStarting(s, k, sys.now, now);
        hide Posts, PostsAfter, Inv, Timed, Due;
      }
      hide Share;
      TotalSame(s.frames, sys.now, s.frames, now);
    }
  }

  lemma {:induction false} NotStarting(s: Store, k: Handle, now: int, bound: int)
    requires FramesOk(s, None) && Quiet(s, None, now, bound) && now < bound && k < |s.frames|
    ensures !s.frames[k].code.Start?
  {
    assert FrameOk(s, None, k) && !Runnable(s, k);
    if s.frames[k].code.Start? {
      assert Runnable(s, s.frames[k].owner.wrapper);
    }
  }

  lemma {:induction false} FireTotal(sys: Sys<Store>, all: multiset<Origin>)
    requires Good(true, sys) && !sys.state.aborted && sys.ready == [] && sys.timers != [] && Accounts(sys, all)
    ensures Accounts(FireFront(Resume, sys), all)
  {
    hide Exec, Inv, Timed, Due, Total, CalmFrames;
    var t := sys.timers[0];
    var now := Max(sys.now, t.when);
    TickGood(true, sys, now);
    TickTotal(sys, now, all);
    TakeFront(sys.timers);
    TakeTimer(sys.state, t, multiset(sys.ready), multiset(sys.timers));
    DueWithout(sys.state, t, multiset(sys.timers), now);
    ExecTotal(sys.state, Some(t.handle), now, STILL, Mass(sys.state.frames), multiset(sys.ready),
              multiset(sys.timers[1..]));
  }

  /** Over an advance. */
  lemma {:induction false} AdvanceAccounts(sys: Sys<Store>, target: int, n: nat, end: Sys<Store>, all: multiset<Origin>)
    requires Good(true, sys) && Accounts(sys, all) && AdvancesTo(Resume, sys, target, n, end) && !end.state.aborted
    ensures Accounts(end, all)
    decreases n
  {
    hide Good, Accounts, Resume;
    AdvanceGood(true, sys, target, n, end);
    match ManualNext(Resume, sys, target) {
      case None => TickTotal(sys, end.now, all);
      case Some(next) =>
        ManualGood(true, sys, target);
        if sys.ready != [] {
          ServeTotal(sys, all);
        } else {
          FireTotal(sys, all);
        }
        AdvanceAccounts(next, target, n - 1, end, all);
    }
  }

  lemma {:induction false} RunNextAccounts(sys: Sys<Store>, all: multiset<Origin>)
    requires Good(true, sys) && !sys.state.aborted && Accounts(sys, all) && RunNext(Resume, sys).Some?
    ensures Accounts(RunNext(Resume, sys).value, all)
  {
    hide Good, Resume;
    DrainGood(true, sys);
    var s := DrainExpired(sys);
    assert Accounts(s, all);
    hide Accounts;
    if s.ready != [] {
      ServeTotal(s, all);
    } else {
      TickTotal(s, Max(s.now, s.timers[0].when), all);
    }
  }

  /** Over a complete `Run`. */
  lemma {:induction false} RunAccounts(sys: Sys<Store>, n: nat, end: Sys<Store>, all: multiset<Origin>)
    requires Good(true, sys) && Accounts(sys, all) && RunsOut(Resume, sys, n, end) && !end.state.aborted
    ensures Accounts(end, all) && !sys.state.aborted
    decreases n
  {
    hide Good, Accounts, Resume, RunNext;
    if n > 0 {
      var next := RunNext(Resume, sys).value;
      RunNextGood(true, sys);
      if sys.state.aborted {
        AbortedStays(next, n - 1, end);
      } else {
        RunNextAccounts(sys, all);
        RunAccounts(next, n - 1, end, all);
      }
    }
  }

  lemma {:induction false} AbortedStays(sys: Sys<Store>, n: nat, end: Sys<Store>)
    requires Good(true, sys) && RunsOut(Resume, sys, n, end) && sys.state.aborted
    ensures end.state.aborted
    decreases n
  {
    hide Good, Resume, RunNext;
    if n > 0 {
      RunNextGood(true, sys);
      AbortedStays(RunNext(Resume, sys).value, n - 1, end);
    }
  }

  /** With nothing left to run, nothing is still to come. */
  lemma {:induction false} DrainedAccounts(end: Sys<Store>, all: multiset<Origin>)
    requires Good(true, end) && !end.state.aborted && end.ready == [] && end.timers == [] && Accounts(end, all)
    ensures Detached(end.state.frames) == all
  {
    forall k {:trigger end.state.frames[k]} | 0 <= k < |end.state.frames|
      ensures Owes(end.state.frames[k], end.now) == multiset{}
    {
      assert multiset(end.ready) == multiset{} && multiset(end.timers) == multiset{};
      DrainedMeansDone(end.state, k);
    }
    TotalOfDone(end.state.frames, end.now);
  }

  /** In every state: no detached task has been created that is not accounted for. */
  lemma {:induction false} PostedSoFar(frames: seq<Frame>, now: int)
    requires CalmFrames(frames)
    ensures Detached(frames) <= Total(frames, now)
    decreases frames
  {
    hide Owes, CalmCode, Own;
    if frames != [] {
      PostedSoFar(frames[..|frames| - 1], now);
    }
  }

  lemma {:induction false} LaunchAccounts(sys: Sys<Store>, b: Body, env: Env, detached: bool, all: multiset<Origin>)
    requires Accounts(sys, all) && Calm(b)
    ensures var own := if detached then multiset{Origin(b, env, sys.now)} else multiset{};
      Accounts(Launched(sys, b, env, detached), all + (own + Posts(b, env, sys.now)))
  {
    var f := TaskFrame(b, env, None, if detached then Itself else Driver, sys.now);
    TotalOfOne(f, sys.now);
    TotalAppend(sys.state.frames, [f], sys.now);
  }

  /** A race-free program, alone on a fresh virtual-time scheduler, run until nothing is left: the detached tasks that
      were created, each with its body, its locals and its time, are those that direct style names.  On the way there
      are never any others. */
  lemma {:induction false} ProgramPosts(t: int, b: Body, env: Env, target: int, n: nat, end: Sys<Store>)
    requires Calm(b) && AdvancesTo(Resume, Launched(Idle(t), b, env, false), target, n, end) && !end.state.aborted
    ensures Detached(end.state.frames) <= Posts(b, env, t)
    ensures end.timers == [] ==> Detached(end.state.frames) == Posts(b, env, t)
  {
    hide Good, Resume, Calm, Posts;
    AloneAccounts(t, b, env);
    var start := Launched(Idle(t), b, env, false);
    AdvanceAccounts(start, target, n, end, Posts(b, env, t));
    AdvanceGood(true, start, target, n, end);
    AdvanceLands(Resume, start, target, n, end);
    PostedSoFar(end.state.frames, end.now);
    if end.timers == [] {
      DrainedAccounts(end, Posts(b, env, t));
    }
  }

  /** The same for `Run` under a manual clock. */
  lemma {:induction false} RunPosts(t: int, b: Body, env: Env, n: nat, end: Sys<Store>)
    requires Calm(b) && RunsOut(Resume, Launched(Idle(t), b, env, false), n, end) && !end.state.aborted
    ensures Detached(end.state.frames) == Posts(b, env, t)
  {
    hide Good, Resume, Calm, Posts;
    AloneAccounts(t, b, env);
    var start := Launched(Idle(t), b, env, false);
    RunAccounts(start, n, end, Posts(b, env, t));
    RunGood(true, start, n, end);
    DrainedAccounts(end, Posts(b, env, t));
  }

  lemma {:induction false} AloneAccounts(t: int, b: Body, env: Env)
    requires Calm(b)
    ensures var start := Launched(Idle(t), b, env, false); Good(true, start) && Accounts(start, Posts(b, env, t))
  {
    hide Posts, Calm;
    IdleGood(true, t);
    LaunchGood(true, Idle(t), b, env, false);
    LaunchAccounts(Idle(t), b, env, false, multiset{});
    assert multiset{} + (multiset{} + Posts(b, env, t)) == Posts(b, env, t);
  }
}
