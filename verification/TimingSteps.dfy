/** The timed invariant across each step. */
module TimingSteps {
  import opened Wrappers
  import opened Programs
  import opened Meaning
  import opened Timers
  import opened Runtime
  import opened Safety
  import opened SafetyGroups
  import opened Timing
  import opened Horizon

  // ---- What a step leaves alone ----

  /** Origins never change; what becomes finished does so now. */
  ghost predicate Extends(s: Store, s': Store, now: int) {
    && |s.frames| <= |s'.frames| && |s.groups| <= |s'.groups|
    && (forall k {:trigger s'.frames[k]} :: 0 <= k < |s.frames| ==>
          s'.frames[k].origin == s.frames[k].origin
          && (s'.frames[k].code.Finished? ==> s'.frames[k] == s.frames[k] || s'.frames[k].since == now))
    && (forall g {:trigger s'.groups[g]} :: 0 <= g < |s.groups| ==> s'.groups[g].origin == s.groups[g].origin)
  }

  lemma {:induction false} FrameStaysTimed(x: bool, s: Store, s': Store, now: int, k: Handle)
    requires Extends(s, s', now) && k < |s.frames| && FrameTimed(x, s, now, k)
    requires s'.frames[k] == s.frames[k]
             || (s'.frames[k].code == s.frames[k].code && s'.frames[k].env == s.frames[k].env
                                             && s'.frames[k].since == s.frames[k].since)
    ensures FrameTimed(x, s', now, k)
  {
  }

  lemma {:induction false} GroupStaysTimed(x: bool, s: Store, s': Store, now: int, g: nat)
    requires g < |s.groups| && g < |s'.groups| && s'.groups[g] == s.groups[g] && GroupTimed(x, s, now, g)
    requires ParentWaits(s', g) ==> ParentWaits(s, g)
    ensures GroupTimed(x, s', now, g)
  {
  }

  /** A freshly created task is its own origin. */
  lemma {:induction false} RefinesItself(x: bool, b: Body, env: Env, t: int)
    ensures Refines(x, b, env, t, Origin(b, env, t))
  {
  }

  // ---- The executing frame ----

  ghost predicate Leads(x: bool, b: Body, env: Env, t: int, b': Body, env': Env, t': int) {
    forall d {:trigger Ends(x, b', env', t', d)} :: Ends(x, b', env', t', d) ==> Ends(x, b, env, t, d)
  }

  /** One statement of the body: what follows it leads only to ends of the statement. */
  lemma {:induction false} StatementLeads(x: bool, b: Body, env: Env, t: int, b': Body, env': Env)
    requires
      match b
      case Branch(cond, yes, no) => env' == env && b' == (if cond(env) then yes else no)
      case AwaitEmpty(isVoid, next, caught) =>
        env' == env + [EmptyTaskOutcome(isVoid)] && b' == (if EmptyTaskOutcome(isVoid).Value? then next else caught)
      case Sleep(duration, next) => duration(env) <= 0 && env' == env && b' == next
      case All(children, next, _) => children == [] && env' == env + [Value(Tuple([]))] && b' == next
      case Any(children, _, caught) => children == [] && env' == env + [Raised(INVALID_ARGUMENT)] && b' == caught
      case Spawn(_, next) => env' == env && b' == next
      case _ => false
    ensures Leads(x, b, env, t, b', env', t)
  {
    forall d | Ends(x, b', env', t, d) ensures Ends(x, b, env, t, d) {
      match b
      case AwaitEmpty(isVoid, next, caught) =>
        assert Resumes(x, next, caught, env, Done(EmptyTaskOutcome(isVoid), t), d);
      case All(_, next, caught) => assert Resumes(x, next, caught, env, Done(Value(Tuple([])), t), d);
      case Any(_, next, caught) => assert Resumes(x, next, caught, env, Done(Raised(INVALID_ARGUMENT), t), d);
      case _ =>
    }
  }

  /** The code after an awaited task that ended with `r` leads only to ends of the `co_await`. */
  lemma {:induction false} AwaitLeads(x: bool, b: Body, env: Env, t: int, r: Done, now: int)
    requires b.Await? && Ends(x, b.child, env, t, r) && Reads(x, r.at, now)
    ensures Leads(x, b, env, t, if r.o.Value? then b.next else b.caught, env + [r.o], now)
  {
    forall d | Ends(x, if r.o.Value? then b.next else b.caught, env + [r.o], now, d) ensures Ends(x, b, env, t, d) {
      assert Resumes(x, b.next, b.caught, env, Done(r.o, now), d);
      if !x {
        ResumesFromEarlier(b.next, b.caught, env, r.o, r.at, now, d);
      }
      assert Resumes(x, b.next, b.caught, env, r, d);
    }
  }

  /** A sleeper woken at `now`: at its deadline, or later under a real clock. */
  lemma {:induction false} SleepLeads(x: bool, b: Body, env: Env, t: int, now: int)
    requires b.Sleep? && Reads(x, t + Max(b.duration(env), 0), now)
    ensures Leads(x, b, env, t, b.next, env, now)
  {
    forall d | Ends(x, b.next, env, now, d) ensures Ends(x, b, env, t, d) {
      if !x {
        EndsFromEarlier(b.next, env, t + Max(b.duration(env), 0), now, d);
      }
    }
  }

  lemma {:induction false} JoinLeads(x: bool, b: Body, env: Env, t: int, rs: seq<Done>, now: int)
    requires b.All? && b.children != [] && |rs| == |b.children| && AllEnd(x, b.children, env, t, rs)
    requires Reads(x, Latest(rs), now)
    ensures var o := JoinOutcome(Outcomes(rs));
      Leads(x, b, env, t, if o.Value? then b.next else b.caught, env + [o], now)
  {
    var o := JoinOutcome(Outcomes(rs));
    forall d | Ends(x, if o.Value? then b.next else b.caught, env + [o], now, d) ensures Ends(x, b, env, t, d) {
      assert Resumes(x, b.next, b.caught, env, Done(o, now), d);
      if !x {
        ResumesFromEarlier(b.next, b.caught, env, o, Latest(rs), now, d);
      }
      assert Resumes(x, b.next, b.caught, env, Joined(rs), d);
    }
  }

  lemma {:induction false} RaceLeads(x: bool, b: Body, env: Env, t: int, i: nat, r: Done, now: int)
    requires b.Any? && i < |b.children| && Wins(x, b.children, env, t, i, r) && Reads(x, r.at, now)
    ensures var o := RaceOutcome(i, r.o);
      Leads(x, b, env, t, if o.Value? then b.next else b.caught, env + [o], now)
  {
    var o := RaceOutcome(i, r.o);
    forall d | Ends(x, if o.Value? then b.next else b.caught, env + [o], now, d) ensures Ends(x, b, env, t, d) {
      assert Resumes(x, b.next, b.caught, env, Done(o, now), d);
      if !x {
        ResumesFromEarlier(b.next, b.caught, env, o, r.at, now, d);
      }
      assert Resumes(x, b.next, b.caught, env, Done(o, r.at), d);
    }
  }

  lemma {:induction false} RefinesAfter(x: bool, b: Body, env: Env, t: int, b': Body, env': Env, t': int,
                                        origin: Origin)
    requires Refines(x, b, env, t, origin) && Leads(x, b, env, t, b', env', t')
    ensures Refines(x, b', env', t', origin)
  {
    forall d | Ends(x, b', env', t', d) ensures OriginEnds(x, origin, d) {
      assert Ends(x, b, env, t, d);
    }
  }

  // ---- Time passes by itself ----

  /** On a real clock time may pass at any moment. */
  lemma {:induction false} PassTimed(x: bool, s: Store, now: int, later: int)
    requires Timed(x, s, now) && Reads(x, now, later)
    ensures Timed(x, s, later)
  {
    if now != later {
      forall k | 0 <= k < |s.frames| ensures FrameTimed(x, s, later, k) {
        assert FrameTimed(x, s, now, k);
        var f := s.frames[k];
        if f.origin.Some? && f.code.Start? {
          forall d | Ends(x, f.code.b, f.env, later, d) ensures OriginEnds(x, f.origin.value, d) {
            EndsFromEarlier(f.code.b, f.env, now, later, d);
          }
        }
      }
      forall g | 0 <= g < |s.groups| ensures GroupTimed(x, s, later, g) {
        assert GroupTimed(x, s, now, g);
      }
    }
  }

  // ---- Every kind of step ----

  lemma {:induction false} ContinueTimed(x: bool, s: Store, now: int, h: Handle, env: Env, b: Body)
    requires Timed(x, s, now) && h < |s.frames| && s.frames[h].origin.Some?
    requires Refines(x, b, env, now, s.frames[h].origin.value)
    ensures Timed(x, Continue(s, h, env, b).store, now)
  {
    var s' := Continue(s, h, env, b).store;
    forall k | 0 <= k < |s'.frames| ensures FrameTimed(x, s', now, k) {
      if k != h {
        FrameStaysTimed(x, s, s', now, k);
      }
    }
    forall g | 0 <= g < |s'.groups| ensures GroupTimed(x, s', now, g) {
      GroupStaysTimed(x, s, s', now, g);
    }
  }

  lemma {:induction false} FinishTimed(x: bool, s: Store, now: int, h: Handle, o: Outcome)
    requires Timed(x, s, now) && h < |s.frames| && s.frames[h].origin.Some?
    requires OriginEnds(x, s.frames[h].origin.value, Done(o, now))
    ensures Timed(x, Finish(s, h, o, now).store, now)
  {
    var s' := Finish(s, h, o, now).store;
    forall k | 0 <= k < |s'.frames| ensures FrameTimed(x, s', now, k) {
      if k != h {
        FrameStaysTimed(x, s, s', now, k);
      }
    }
    forall g | 0 <= g < |s'.groups| ensures GroupTimed(x, s', now, g) {
      GroupStaysTimed(x, s, s', now, g);
    }
  }

  ghost predicate Executes(x: bool, s: Store, now: int, h: Handle, b: Body) {
    && Timed(x, s, now) && h < |s.frames| && s.frames[h].code == Start(b) && FrameTimed(x, s, now, h)
  }

  lemma {:induction false} AwaitTaskTimed(x: bool, s: Store, now: int, h: Handle, b: Body)
    requires Executes(x, s, now, h, b) && b.Await?
    ensures Timed(x, AwaitTask(s, h, b, now).store, now)
  {
    var s' := AwaitTask(s, h, b, now).store;
    RefinesItself(x, b.child, s.frames[h].env, now);
    forall k | 0 <= k < |s'.frames| ensures FrameTimed(x, s', now, k) {
      if k < |s.frames| && k != h {
        FrameStaysTimed(x, s, s', now, k);
      }
    }
    forall g | 0 <= g < |s'.groups| ensures GroupTimed(x, s', now, g) {
      GroupStaysTimed(x, s, s', now, g);
    }
  }

  lemma {:induction false} SleepForTimed(x: bool, s: Store, now: int, later: int, h: Handle, b: Body)
    requires Executes(x, s, now, h, b) && b.Sleep? && Reads(x, now, later)
    ensures Timed(x, SleepFor(s, h, b, now, later).store, later)
  {
    var env := s.frames[h].env;
    PassTimed(x, s, now, later);
    if now + b.duration(env) <= later {
      SleepLeads(x, b, env, now, later);
      RefinesAfter(x, b, env, now, b.next, env, later, s.frames[h].origin.value);
      ContinueTimed(x, s, later, h, env, b.next);
    } else {
      var s' := SleepFor(s, h, b, now, later).store;
      forall k | 0 <= k < |s'.frames| ensures FrameTimed(x, s', later, k) {
        if k != h {
          FrameStaysTimed(x, s, s', later, k);
        }
      }
      forall g | 0 <= g < |s'.groups| ensures GroupTimed(x, s', later, g) {
        GroupStaysTimed(x, s, s', later, g);
      }
    }
  }

  lemma {:induction false} SpawnTaskTimed(x: bool, s: Store, now: int, h: Handle, b: Body)
    requires Executes(x, s, now, h, b) && b.Spawn?
    ensures Timed(x, SpawnTask(s, h, b, now).store, now)
  {
    var s', env := SpawnTask(s, h, b, now).store, s.frames[h].env;
    RefinesItself(x, b.task, env, now);
    StatementLeads(x, b, env, now, b.next, env);
    RefinesAfter(x, b, env, now, b.next, env, now, s.frames[h].origin.value);
    forall k | 0 <= k < |s'.frames| ensures FrameTimed(x, s', now, k) {
      if k < |s.frames| && k != h {
        FrameStaysTimed(x, s, s', now, k);
      }
    }
    forall g | 0 <= g < |s'.groups| ensures GroupTimed(x, s', now, g) {
      GroupStaysTimed(x, s, s', now, g);
    }
  }

  lemma {:induction false} ForkTimed(x: bool, s: Store, now: int, h: Handle, b: Body)
    requires Executes(x, s, now, h, b) && Forks(s, h, b) && GroupsOk(s)
    ensures Timed(x, Fork(s, h, b, now).store, now)
  {
    ForkStore(s, h, b, now);
    var s', g := Fork(s, h, b, now).store, |s.groups|;
    forall k | 0 <= k < |s'.frames| ensures FrameTimed(x, s', now, k) {
      if k < |s.frames| && k != h {
        FrameStaysTimed(x, s, s', now, k);
      } else {
        ForkedTimed(x, s, s', now, h, b, k);
      }
    }
    forall g' | 0 <= g' < |s'.groups| ensures GroupTimed(x, s', now, g') {
      if g' < g {
        GroupStaysTimed(x, s, s', now, g');
      }
    }
  }

  lemma {:induction false} ForkedTimed(x: bool, s: Store, s': Store, now: int, h: Handle, b: Body, k: Handle)
    requires Executes(x, s, now, h, b) && Forks(s, h, b) && Forked(s, s', h, b, now)
    requires k == h || |s.frames| <= k < |s'.frames|
    ensures FrameTimed(x, s', now, k)
  {
    var first, n, g := |s.frames|, |b.children|, |s.groups|;
    assert s'.groups[g].Children() == b.children;
    if k == h {
    } else if k < first + n {
      assert s'.frames[n + k].origin == Some(Origin(b.children[k - first], s.frames[h].env, now));
    } else {
      RefinesItself(x, b.children[k - first - n], s.frames[h].env, now);
    }
  }

  lemma {:induction false} StartWrapperTimed(x: bool, s: Store, now: int, h: Handle, task: Handle, g: nat, i: nat)
    requires Timed(x, s, now) && h < |s.frames| && s.frames[h].code == Wrap(task, g, i) && FrameTimed(x, s, now, h)
    ensures Timed(x, StartWrapper(s, h, task, g, i, now).store, now)
  {
    var s' := StartWrapper(s, h, task, g, i, now).store;
    forall k | 0 <= k < |s'.frames| ensures FrameTimed(x, s', now, k) {
      if k != h {
        FrameStaysTimed(x, s, s', now, k);
      }
    }
    forall g | 0 <= g < |s'.groups| ensures GroupTimed(x, s', now, g) {
      GroupStaysTimed(x, s, s', now, g);
    }
  }

  lemma {:induction false} DestroyTimed(x: bool, s: Store, now: int, c: Handle)
    requires Timed(x, s, now) && IsFinished(s, c)
    ensures Timed(x, Destroy(s, c), now)
  {
    var s' := Destroy(s, c);
    assert FrameTimed(x, s, now, c);
    forall k | 0 <= k < |s'.frames| ensures FrameTimed(x, s', now, k) {
      if k != c {
        FrameStaysTimed(x, s, s', now, k);
      }
    }
    forall g | 0 <= g < |s'.groups| ensures GroupTimed(x, s', now, g) {
      GroupStaysTimed(x, s, s', now, g);
    }
  }

  lemma {:induction false} TaskDoneTimed(x: bool, s: Store, now: int, h: Handle, c: Handle, b: Body)
    requires Timed(x, s, now) && h < |s.frames| && s.frames[h].code == Awaiting(c, b) && FrameTimed(x, s, now, h)
    requires IsFinished(s, c) && c != h && FrameTimed(x, s, now, c)
    ensures b.Await? && Timed(x, TaskDone(s, h, c, b).store, now)
  {
    var f, o := s.frames[h], s.frames[c].code.o;
    AwaitLeads(x, b, f.env, f.since, Done(o, s.frames[c].since), now);
    RefinesAfter(x, b, f.env, f.since, if o.Value? then b.next else b.caught, f.env + [o], now, f.origin.value);
    DestroyTimed(x, s, now, c);
    ContinueTimed(x, Destroy(s, c), now, h, f.env + [o], if o.Value? then b.next else b.caught);
  }

  lemma {:induction false} WakeTimed(x: bool, s: Store, now: int, h: Handle, w: int, b: Body)
    requires Timed(x, s, now) && h < |s.frames| && s.frames[h].code == Sleeping(w, b) && FrameTimed(x, s, now, h)
    requires w <= now
    ensures b.Sleep? && Timed(x, Continue(s, h, s.frames[h].env, b.next).store, now)
  {
    var f := s.frames[h];
    SleepLeads(x, b, f.env, f.since, now);
    RefinesAfter(x, b, f.env, f.since, b.next, f.env, now, f.origin.value);
    ContinueTimed(x, s, now, h, f.env, b.next);
  }

  /** A child that reports now ended as it may, now. */
  lemma {:induction false} ReportIsEnd(x: bool, s: Store, now: int, h: Handle, c: Handle, g: nat, i: nat)
    requires Reports(s, h, c, g, i) && FrameTimed(x, s, now, h) && FrameTimed(x, s, now, c)
    ensures s.frames[h].origin.None? && IsFinished(s, c) && i < |s.groups[g].Children()|
    ensures Ends(x, s.groups[g].Children()[i], s.groups[g].origin.env, s.groups[g].origin.at,
                 Done(s.frames[c].code.o, now))
  {
    WrapperDoneWorks(s, h, c, g, i, now);
    if !x {
      var origin := s.groups[g].origin;
      EndsLater(s.groups[g].Children()[i], origin.env, origin.at, Done(s.frames[c].code.o, s.frames[c].since), now);
    }
  }

  lemma {:induction false} JoinSlotTimed(x: bool, group: Group, now: int, i: nat, d: Done)
    requires group.Join? && SlotsTimed(x, group, now) && i < |group.slots| && group.slots[i].None?
    requires d.at == now && Ends(x, group.Children()[i], group.origin.env, group.origin.at, d)
    ensures SlotsTimed(x, OnChildDone(group, i, d).0, now)
  {
    var group' := OnChildDone(group, i, d).0;
    assert group'.slots[i] == Some(d);
    forall j | 0 <= j < |group'.slots| && group'.slots[j].Some? ensures
      Ends(x, group'.Children()[j], group'.origin.env, group'.origin.at, group'.slots[j].value)
      && group'.slots[j].value.at <= now
    {
      if j != i {
        assert group.slots[j] == group'.slots[j];
      }
    }
  }

  /** The first child of a race to report wins it: every other child is unfinished, so it may end later. */
  lemma {:induction false} FirstReportWins(x: bool, s: Store, now: int, h: Handle, c: Handle, g: nat, i: nat)
    requires Reports(s, h, c, g, i) && FrameTimed(x, s, now, h) && FrameTimed(x, s, now, c)
    requires Ahead(x, s, Some(h), now, now) && s.groups[g].Race? && s.groups[g].winner.None?
    ensures i < |s.groups[g].Children()| && IsFinished(s, c)
    ensures Wins(x, s.groups[g].Children(), s.groups[g].origin.env, s.groups[g].origin.at, i,
            Done(s.frames[c].code.o, now))
  {
    ReportIsEnd(x, s, now, h, c, g, i);
    var group := s.groups[g];
    forall j | 0 <= j < |group.Children()|
      ensures Outlasts(x, group.Children()[j], group.origin.env, group.origin.at, now)
    {
      var q := MemberMayEnd(x, s, Some(h), now, now, g, j);
    }
  }

  lemma {:induction false} ReportTimedGroup(x: bool, s: Store, now: int, h: Handle, c: Handle, g: nat, i: nat)
    requires Reports(s, h, c, g, i) && Ahead(x, s, Some(h), now, now)
    ensures IsFinished(s, c)
    ensures var group := OnChildDone(s.groups[g], i, Done(s.frames[c].code.o, now)).0;
      if group.Join? then SlotsTimed(x, group, now)
      else group.winner.Some? && (s.groups[g].winner.None? || ParentWaits(s, g) ==> WinnerTimed(x, group, now))
  {
    assert FrameTimed(x, s, now, h) && FrameTimed(x, s, now, c) && GroupTimed(x, s, now, g);
    WrapperDoneWorks(s, h, c, g, i, now);
    ReportIsEnd(x, s, now, h, c, g, i);
    if s.groups[g].Join? {
      JoinSlotTimed(x, s.groups[g], now, i, Done(s.frames[c].code.o, now));
    } else if s.groups[g].winner.None? {
      FirstReportWins(x, s, now, h, c, g, i);
    }
  }

  lemma {:induction false} ReportedFrameTimed(x: bool, s: Store, s': Store, now: int, h: Handle, c: Handle, g: nat,
                                              i: nat, d: Done, k: Handle)
    requires Reports(s, h, c, g, i) && Reported(s, s', h, c, g, i, d) && d.at == now
             && s.frames[c].code == Finished(d.o)
    requires s.frames[h].origin.None? && s.frames[c].origin.Some? && FrameTimed(x, s, now, c)
    requires k < |s.frames| && FrameTimed(x, s, now, k)
    ensures FrameTimed(x, s', now, k)
  {
    if k != h && k != c {
      FrameStaysTimed(x, s, s', now, k);
    }
  }

  lemma {:induction false} WrapperDoneTimed(x: bool, s: Store, now: int, h: Handle, c: Handle, g: nat, i: nat)
    requires Reports(s, h, c, g, i) && Ahead(x, s, Some(h), now, now)
    ensures Timed(x, WrapperDone(s, h, c, g, i, now).store, now)
  {
    assert FrameTimed(x, s, now, h) && FrameTimed(x, s, now, c);
    ReportIsEnd(x, s, now, h, c, g, i);
    WrapperDoneStore(s, h, c, g, i, now);
    ReportTimedGroup(x, s, now, h, c, g, i);
    var s' := WrapperDone(s, h, c, g, i, now).store;
    hide WrapperDone;
    forall k | 0 <= k < |s'.frames| ensures FrameTimed(x, s', now, k) {
      ReportedFrameTimed(x, s, s', now, h, c, g, i, Done(s.frames[c].code.o, now), k);
    }
    forall g' | 0 <= g' < |s'.groups| ensures GroupTimed(x, s', now, g') {
      if g' != g {
        GroupStaysTimed(x, s, s', now, g');
      }
    }
  }

  lemma {:induction false} GroupDoneTimed(x: bool, s: Store, now: int, h: Handle, g: nat, b: Body)
    requires FramesOk(s, Some(h)) && Joins(s, h, g, b) && Timed(x, s, now)
    ensures (b.All? || b.Any?) && Timed(x, GroupDone(s, h, g, b).store, now)
  {
    assert FrameTimed(x, s, now, h) && GroupTimed(x, s, now, g);
    GroupDoneStore(s, h, g, b);
    var f, s' := s.frames[h], GroupDone(s, h, g, b).store;
    HandoverRefines(x, s, now, h, g, b);
    forall k | 0 <= k < |s'.frames| ensures FrameTimed(x, s', now, k) {
      assert FrameTimed(x, s, now, k);
      if k != h {
        HandedFrameTimed(x, s, s', now, h, g, b, k);
      }
    }
    forall g' | 0 <= g' < |s'.groups| ensures GroupTimed(x, s', now, g') {
      GroupStaysTimed(x, s, s', now, g');
    }
  }

  lemma {:induction false} HandedFrameTimed(x: bool, s: Store, s': Store, now: int, h: Handle, g: nat, b: Body,
                                            k: Handle)
    requires FramesOk(s, Some(h)) && Joins(s, h, g, b) && s' == GroupDone(s, h, g, b).store
    requires k < |s.frames| && k != h && FrameTimed(x, s, now, k)
    ensures k < |s'.frames| && FrameTimed(x, s', now, k)
  {
    GroupDoneStore(s, h, g, b);
    if s'.frames[k] == s.frames[k] {
      FrameStaysTimed(x, s, s', now, k);
    }
  }

  lemma {:induction false} HandoverRefines(x: bool, s: Store, now: int, h: Handle, g: nat, b: Body)
    requires FramesOk(s, Some(h)) && Joins(s, h, g, b) && FrameTimed(x, s, now, h) && GroupTimed(x, s, now, g)
    ensures (b.All? || b.Any?) && s.frames[h].origin.Some?
    ensures var f' := GroupDone(s, h, g, b).store.frames[h];
      f'.code.Start? && Refines(x, f'.code.b, f'.env, now, s.frames[h].origin.value)
  {
    var f, group := s.frames[h], s.groups[g];
    GroupDoneStore(s, h, g, b);
    if group.Join? {
      JoinRefines(x, s, now, h, g, b);
    } else {
      var (i, r) := group.winner.value;
      RaceLeads(x, b, f.env, f.since, i, r, now);
      var o := RaceOutcome(i, r.o);
      RefinesAfter(x, b, f.env, f.since, if o.Value? then b.next else b.caught, f.env + [o], now, f.origin.value);
    }
  }

  lemma {:induction false} JoinRefines(x: bool, s: Store, now: int, h: Handle, g: nat, b: Body)
    requires FramesOk(s, Some(h)) && Joins(s, h, g, b) && FrameTimed(x, s, now, h) && GroupTimed(x, s, now, g)
    requires s.groups[g].Join? && b.All? && s.frames[h].origin.Some?
    ensures Engaged(s.groups[g].slots)
    ensures var f, o := s.frames[h], JoinOutcome(Outcomes(Completions(s.groups[g].slots)));
      Refines(x, if o.Value? then b.next else b.caught, f.env + [o], now, f.origin.value)
  {
    var f, group := s.frames[h], s.groups[g];
    WrappersStand(s, h, g, b);
    var rs := Completions(group.slots);
    JoinClosed(x, group, now, rs);
    assert AllEnd(x, b.children, f.env, f.since, rs);
    JoinLeads(x, b, f.env, f.since, rs, now);
    var o := JoinOutcome(Outcomes(rs));
    RefinesAfter(x, b, f.env, f.since, if o.Value? then b.next else b.caught, f.env + [o], now, f.origin.value);
  }
}
