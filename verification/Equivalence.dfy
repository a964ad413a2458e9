/** When `EventLoop::Run` under a manual clock and `ManualScheduler::AdvanceTo` run the same trace.

    `Run` moves all due timers to the ready queue at once; `AdvanceTo` fires them one at a time and drains the ready
    queue after each.  The two agree exactly as long as no coroutine woken by a timer posts anything while another
    timer is due. */
module Equivalence {
  import opened Wrappers
  import opened Timers
  import opened Scheduling

  /** The reaction of the coroutine that the earliest timer wakes. */
  function WakeReaction<S>(p: Coroutines<S>, m: Sys<S>): Reaction<S>
    requires m.timers != []
  {
    p(m.state, m.timers[0].handle, Max(m.now, m.timers[0].when))
  }

  /** `AdvanceTo` is about to fire a timer, the woken coroutine posts something, and another timer is due too. */
  ghost predicate Clash<S>(p: Coroutines<S>, m: Sys<S>) {
    && m.ready == [] && |m.timers| >= 2 && m.timers[1].when <= Max(m.now, m.timers[0].when)
    && WakeReaction(p, m).posts != []
  }

  ghost predicate NoClash<S>(p: Coroutines<S>, m: Sys<S>, target: int, n: nat)
    decreases n
  {
    n > 0 && ManualNext(p, m, target).Some? ==>
      !Clash(p, m) && NoClash(p, ManualNext(p, m, target).value, target, n - 1)
  }

  /** No coroutine posts the one whose timer is due next. */
  ghost predicate Honest<S>(p: Coroutines<S>, m: Sys<S>, target: int, n: nat)
    decreases n
  {
    n > 0 && ManualNext(p, m, target).Some? ==>
      && (Clash(p, m) ==> WakeReaction(p, m).posts[0] != m.timers[1].handle)
      && Honest(p, ManualNext(p, m, target).value, target, n - 1)
  }

  /** What holds of `AdvanceTo` between two resumptions: timers are due only when nothing is ready. */
  ghost predicate Paced<S>(m: Sys<S>) {
    Sorted(m.timers) && (DueCount(m.timers, m.now) > 0 ==> m.ready == [])
  }

  lemma {:induction false} DueInFront(front: seq<Timer>, ts: seq<Timer>, now: int)
    requires AllBy(front, now)
    ensures DueCount(front + ts, now) == |front| + DueCount(ts, now)
  {
    if front == [] {
      assert front + ts == ts;
    } else {
      assert (front + ts)[1..] == front[1..] + ts;
      DueInFront(front[1..], ts, now);
    }
  }

  lemma {:induction false} NoneDue(ts: seq<Timer>, now: int)
    requires AllAfter(ts, now)
    ensures DueCount(ts, now) == 0
  {
  }

  lemma {:induction false} InsertAllAfter(ts: seq<Timer>, xs: seq<Timer>, now: int)
    requires Sorted(ts) && AllAfter(ts, now) && AllAfter(xs, now)
    ensures AllAfter(InsertAll(ts, xs), now)
  {
    InsertAllLaws(ts, xs);
    var all := InsertAll(ts, xs);
    forall i | 0 <= i < |all| ensures now < all[i].when {
      assert multiset(all)[all[i]] > 0;
      assert all[i] in ts || all[i] in xs;
    }
  }

  /** The state once the clock shows the earliest deadline. */
  function DueTogether<S>(m: Sys<S>): Sys<S>
    requires m.timers != []
  {
    m.(now := Max(m.now, m.timers[0].when))
  }

  lemma {:induction false} DrainTwice<S>(sys: Sys<S>)
    ensures DrainExpired(DrainExpired(sys)) == DrainExpired(sys)
  {
    var s := DrainExpired(sys);
    assert DueCount(s.timers, s.now) == 0;
    DrainNothing(s);
  }

  lemma {:induction false} DrainNothing<S>(sys: Sys<S>)
    requires DueCount(sys.timers, sys.now) == 0
    ensures DrainExpired(sys) == sys
  {
    assert sys.ready + HandlesOf(sys.timers[..0]) == sys.ready;
    assert sys.fired + sys.timers[..0] == sys.fired;
  }

  lemma {:induction false} DrainEmpty<S>(sys: Sys<S>)
    ensures DrainExpired(sys).ready == [] ==> DrainExpired(sys) == sys
  {
    if DrainExpired(sys).ready == [] {
      assert |HandlesOf(sys.timers[..DueCount(sys.timers, sys.now)])| == DueCount(sys.timers, sys.now);
      DrainNothing(sys);
    }
  }

  /** An iteration of the event loop after its drain. */
  lemma {:induction false} RunNextIs<S>(p: Coroutines<S>, sys: Sys<S>)
    ensures var s := DrainExpired(sys);
      && (s.ready != [] ==> RunNext(p, sys) == Some(ServeFront(p, s)) && RunNext(p, s) == Some(ServeFront(p, s)))
      && (s.ready == [] ==> s == sys)
      && (s.ready == [] && s.timers != [] ==> RunNext(p, sys) == Some(DueTogether(sys)))
      && (s.ready == [] && s.timers == [] ==> RunNext(p, sys) == None)
  {
    hide DrainExpired, ServeFront;
    DrainTwice(sys);
    DrainEmpty(sys);
  }

  /** Both loops serve the ready queue alike. */
  lemma {:induction false} ServeInStep<S(!new)>(p: Coroutines<S>, m: Sys<S>)
    requires OnlySleeps(p) && Paced(m) && m.ready != []
    ensures DrainExpired(m) == m
    ensures Paced(ServeFront(p, m)) && DrainExpired(ServeFront(p, m)) == ServeFront(p, m)
  {
    DrainNothing(m);
    forall i | 0 <= i < |m.timers| ensures m.now < m.timers[i].when {
      assert m.timers[0].when <= m.timers[i].when;
    }
    var r := p(m.state, m.ready[0], m.now);
    var m' := ServeFront(p, m);
    InsertAllAfter(m.timers, r.sleeps, m.now);
    InsertAllLaws(m.timers, r.sleeps);
    NoneDue(m'.timers, m'.now);
    DrainNothing(m');
  }

  /** The timers after the earliest one fired: those due with it, then those that are not due. */
  lemma {:induction false} TimersAfterFire<S(!new)>(p: Coroutines<S>, m: Sys<S>)
    returns (due: seq<Timer>, later: seq<Timer>)
    requires OnlySleeps(p) && Paced(m) && m.ready == [] && m.timers != []
    ensures var m' := FireFront(p, m);
      m'.timers == due + later && DueCount(m'.timers, m'.now) == |due| && Sorted(m'.timers)
    ensures var d := DueTogether(m); var k := DueCount(d.timers, d.now);
      k == |due| + 1 && due == m.timers[1..k] && later == InsertAll(m.timers[k..], WakeReaction(p, m).sleeps)
  {
    var d := DueTogether(m);
    var k := DueCount(d.timers, d.now);
    var r := WakeReaction(p, m);
    due := m.timers[1..k];
    var rest := m.timers[k..];
    later := InsertAll(rest, r.sleeps);
    assert m.timers[1..] == due + rest;
    forall i | 0 <= i < |rest| ensures d.now < rest[i].when {
      assert rest[0].when <= rest[i].when;
    }
    InsertAllBehind(due, rest, r.sleeps, d.now);
    InsertAllAfter(rest, r.sleeps, d.now);
    InsertAllLaws(m.timers[1..], r.sleeps);
    DueInFront(due, later, d.now);
    NoneDue(later, d.now);
  }

  /** A timer fires: the event loop's queue holds the posts behind the other due handles, `AdvanceTo`'s before. */
  lemma {:induction false} FireInStep<S(!new)>(p: Coroutines<S>, m: Sys<S>)
    requires OnlySleeps(p) && Paced(m) && m.ready == [] && m.timers != []
    ensures var e, m' := DrainExpired(DueTogether(m)), FireFront(p, m);
      && e.ready != [] && Sorted(m'.timers)
      && (!Clash(p, m) ==> Paced(m') && ServeFront(p, e) == DrainExpired(m'))
      && (Clash(p, m) ==> |ServeFront(p, e).ready| > 0 && ServeFront(p, e).ready[0] == m.timers[1].handle)
      && ServeFront(p, e).trace == m'.trace
  {
    var due, later := TimersAfterFire(p, m);
    var d := DueTogether(m);
    var k := DueCount(d.timers, d.now);
    var e, m', r := DrainExpired(d), FireFront(p, m), WakeReaction(p, m);
    assert m.timers[..k] == [m.timers[0]] + due;
    assert e.ready == HandlesOf(m.timers[..k]);
    assert e.ready[1..] == HandlesOf(due);
    var e' := ServeFront(p, e);
    assert e'.ready == HandlesOf(due) + r.posts;
    if Clash(p, m) {
      assert due[0] == m.timers[1];
    } else {
      FireAgrees(p, m, due, later);
    }
  }

  lemma {:induction false} FireAgrees<S(!new)>(p: Coroutines<S>, m: Sys<S>, due: seq<Timer>, later: seq<Timer>)
    requires Paced(m) && m.ready == [] && m.timers != [] && !Clash(p, m)
    requires var m' := FireFront(p, m);
      m'.timers == due + later && DueCount(m'.timers, m'.now) == |due| && Sorted(m'.timers)
    requires var d := DueTogether(m); var k := DueCount(d.timers, d.now);
      k == |due| + 1 && due == m.timers[1..k] && later == InsertAll(m.timers[k..], WakeReaction(p, m).sleeps)
    ensures var e, m' := DrainExpired(DueTogether(m)), FireFront(p, m);
      e.ready != [] && Paced(m') && ServeFront(p, e) == DrainExpired(m')
  {
    hide Insert, InsertAll, DueCount, Sorted;
    var d := DueTogether(m);
    var k := DueCount(d.timers, d.now);
    var e, m', r := DrainExpired(d), FireFront(p, m), WakeReaction(p, m);
    assert m.timers[..k] == [m.timers[0]] + due;
    FiredHandles(m.timers[0], due, r.posts);
    assert m.ready + HandlesOf(m.timers[..k]) == HandlesOf(m.timers[..k]);
    if due != [] {
      assert m.timers[1] == due[0];
    }
    assert m'.ready == r.posts;
    assert m'.timers[..|due|] == due && m'.timers[|due|..] == later;
    assert m'.fired + due == m.fired + m.timers[..k];
  }

  lemma {:induction false} FiredHandles(t: Timer, due: seq<Timer>, posts: seq<Handle>)
    ensures HandlesOf([t] + due) != [] && HandlesOf([t] + due)[0] == t.handle
            && HandlesOf([t] + due)[1..] == HandlesOf(due)
    ensures due == [] || posts == [] ==> HandlesOf(due) + posts == posts + HandlesOf(due)
  {
    assert HandlesOf([t] + due) == [t.handle] + HandlesOf(due);
  }

  // ---- Whole runs ----

  /** The event loop reaches the same firing, after waiting for the deadline if nothing is due yet. */
  lemma {:induction false} EventLoopFires<S(!new)>(p: Coroutines<S>, m: Sys<S>)
    requires Paced(m) && m.ready == [] && m.timers != []
    ensures var e, d := DrainExpired(m), DrainExpired(DueTogether(m));
      && d.ready != []
      && (e.ready != [] ==> RunNext(p, e) == Some(ServeFront(p, d)))
      && (e.ready == [] ==>
            RunNext(p, e) == Some(DueTogether(m)) && RunNext(p, DueTogether(m)) == Some(ServeFront(p, d)))
  {
    RunNextIs(p, m);
    RunNextIs(p, DueTogether(m));
    if DueCount(m.timers, m.now) > 0 {
      assert DueTogether(m) == m;
    } else {
      DrainNothing(m);
    }
  }

  lemma {:induction false} NothingLeft<S>(m: Sys<S>)
    requires m.ready == [] && m.timers == []
    ensures DrainExpired(m) == m
  {
    DrainNothing(m);
  }

  lemma {:induction false} ManualStep<S>(p: Coroutines<S>, m: Sys<S>, target: int)
    requires m.now <= target && ManualNext(p, m, target).Some?
    ensures ManualNext(p, m, target).value.now <= target
    ensures m.ready != [] ==> !Clash(p, m)
    ensures m.ready == [] ==> m.timers != [] && m.timers[0].when <= target
  {
  }

  /** Without a clash the event loop runs the same trace to the same end. */
  lemma {:induction false} EventLoopFollows<S(!new)>(p: Coroutines<S>, m: Sys<S>, target: int, n: nat, end: Sys<S>)
    returns (n': nat, end': Sys<S>)
    requires OnlySleeps(p) && Paced(m) && m.now <= target
    requires AdvancesTo(p, m, target, n, end) && end.timers == [] && NoClash(p, m, target, n)
    ensures RunsOut(p, DrainExpired(m), n', end') && end'.(now := end.now) == end
    decreases n
  {
    hide DrainExpired, ServeFront, FireFront, Clash, Paced;
    var e := DrainExpired(m);
    RunNextIs(p, m);
    if n == 0 {
      NothingLeft(m);
      n', end' := 0, e;
    } else {
      var next := ManualNext(p, m, target).value;
      ManualStep(p, m, target);
      if m.ready != [] {
        ServeInStep(p, m);
        n', end' := EventLoopFollows(p, next, target, n - 1, end);
        n' := n' + 1;
      } else {
        FireInStep(p, m);
        n', end' := EventLoopFollows(p, next, target, n - 1, end);
        EventLoopFires(p, m);
        n' := n' + if e.ready != [] then 1 else 2;
      }
    }
  }

  /** An iteration resumes one handle, the front if anything is ready, or waits. */
  lemma {:induction false} TraceOfNext<S>(p: Coroutines<S>, sys: Sys<S>)
    requires RunNext(p, sys).Some?
    ensures var next := RunNext(p, sys).value;
      next.trace == sys.trace || exists e :: next.trace == sys.trace + [e]
    ensures sys.ready != [] ==> RunNext(p, sys).value.trace == sys.trace + [Event(sys.ready[0], sys.now)]
  {
    var s := DrainExpired(sys);
    if s.ready != [] {
      assert RunNext(p, sys).value.trace == sys.trace + [Event(s.ready[0], sys.now)];
    }
  }

  lemma {:induction false} TraceGrows<S>(p: Coroutines<S>, sys: Sys<S>, n: nat, end: Sys<S>)
    requires RunsOut(p, sys, n, end)
    ensures |sys.trace| <= |end.trace| && end.trace[..|sys.trace|] == sys.trace
    ensures sys.ready != [] ==> |sys.trace| < |end.trace| && end.trace[|sys.trace|].handle == sys.ready[0]
    decreases n
  {
    hide RunNext;
    if n > 0 {
      var next := RunNext(p, sys).value;
      TraceOfNext(p, sys);
      TraceGrows(p, next, n - 1, end);
      assert end.trace[..|sys.trace|] == end.trace[..|next.trace|][..|sys.trace|];
    } else {
      NothingNext(p, sys);
    }
  }

  lemma {:induction false} NothingNext<S>(p: Coroutines<S>, sys: Sys<S>)
    ensures RunNext(p, sys) == None ==> sys.ready == []
  {
  }

  lemma {:induction false} ManualTraceGrows<S>(p: Coroutines<S>, sys: Sys<S>, target: int, n: nat, end: Sys<S>)
    requires AdvancesTo(p, sys, target, n, end)
    ensures |sys.trace| <= |end.trace| && end.trace[..|sys.trace|] == sys.trace
    ensures sys.ready != [] ==> |sys.trace| < |end.trace| && end.trace[|sys.trace|].handle == sys.ready[0]
    decreases n
  {
    if n > 0 {
      var next := ManualNext(p, sys, target).value;
      ManualTraceGrows(p, next, target, n - 1, end);
      assert end.trace[..|sys.trace|] == next.trace[..|sys.trace|];
    }
  }

  /** After a clash `AdvanceTo` next resumes what the woken coroutine posted. */
  lemma {:induction false} AdvanceAfterClash<S>(p: Coroutines<S>, m: Sys<S>, target: int, n: nat, end: Sys<S>)
    requires Clash(p, m) && m.timers[0].when <= target && AdvancesTo(p, m, target, n, end)
    ensures var next := FireFront(p, m);
      |next.trace| < |end.trace| && end.trace[|next.trace|].handle == WakeReaction(p, m).posts[0]
  {
    ManualTraceGrows(p, FireFront(p, m), target, n - 1, end);
  }

  /** The event loop fires the same timer, in one iteration or, waiting first, two. */
  lemma {:induction false} RunAfterFire<S(!new)>(p: Coroutines<S>, m: Sys<S>, n: nat, end: Sys<S>) returns (k: nat)
    requires Paced(m) && m.ready == [] && m.timers != [] && RunsOut(p, DrainExpired(m), n, end)
    ensures DrainExpired(DueTogether(m)).ready != [] && RunsOut(p, ServeFront(p, DrainExpired(DueTogether(m))), k, end)
  {
    EventLoopFires(p, m);
    hide DrainExpired, ServeFront, Paced, DueTogether;
    if DrainExpired(m).ready != [] {
      k := n - 1;
    } else {
      assert RunsOut(p, DueTogether(m), n - 1, end);
      k := n - 2;
    }
  }

  /** And next it resumes the coroutine of the other due timer. */
  lemma {:induction false} RunAfterClash<S(!new)>(p: Coroutines<S>, m: Sys<S>, n: nat, end: Sys<S>)
    requires OnlySleeps(p) && Paced(m) && Clash(p, m) && RunsOut(p, DrainExpired(m), n, end)
    ensures var next := FireFront(p, m);
      |next.trace| < |end.trace| && end.trace[|next.trace|].handle == m.timers[1].handle
  {
    FireInStep(p, m);
    var k := RunAfterFire(p, m, n, end);
    hide DrainExpired, ServeFront, FireFront, Paced, RunsOut;
    TraceGrows(p, ServeFront(p, DrainExpired(DueTogether(m))), k, end);
  }

  /** After a clash the two traces differ in the very next event. */
  lemma {:induction false} ClashDiverges<S(!new)>(p: Coroutines<S>, m: Sys<S>, target: int, n: nat, end: Sys<S>,
                                                  n': nat, end': Sys<S>)
    requires OnlySleeps(p) && Paced(m) && Clash(p, m) && WakeReaction(p, m).posts[0] != m.timers[1].handle
    requires m.timers[0].when <= target
    requires AdvancesTo(p, m, target, n, end) && RunsOut(p, DrainExpired(m), n', end')
    ensures end.trace != end'.trace
  {
    AdvanceAfterClash(p, m, target, n, end);
    RunAfterClash(p, m, n', end');
    hide DrainExpired, FireFront, WakeReaction, AdvancesTo, RunsOut, Paced, OnlySleeps;
  }

  /** The exact proviso: from a state with nothing overdue, an advance that exhausts all timers and a complete run of
      the event loop have the same trace if and only if no clash occurs on the way. */
  lemma {:induction false} SameTraceIffNoClash<S(!new)>(p: Coroutines<S>, m: Sys<S>, target: int, n: nat, end: Sys<S>,
                                                        n': nat, end': Sys<S>)
    requires OnlySleeps(p) && Paced(m) && m.now <= target && Honest(p, m, target, n)
    requires AdvancesTo(p, m, target, n, end) && end.timers == []
    requires RunsOut(p, DrainExpired(m), n', end')
    ensures end.trace == end'.trace <==> NoClash(p, m, target, n)
    decreases n
  {
    hide DrainExpired, ServeFront, FireFront, Clash, Paced, WakeReaction;
    var e := DrainExpired(m);
    RunNextIs(p, m);
    if n == 0 {
      NothingLeft(m);
    } else {
      var next := ManualNext(p, m, target).value;
      ManualStep(p, m, target);
      if m.ready != [] {
        ServeInStep(p, m);
        SameTraceIffNoClash(p, next, target, n - 1, end, n' - 1, end');
      } else if Clash(p, m) {
        ClashDiverges(p, m, target, n, end, n', end');
      } else {
        FireInStep(p, m);
        EventLoopFires(p, m);
        SameTraceIffNoClash(p, next, target, n - 1, end, if e.ready != [] then n' - 1 else n' - 2, end');
      }
    }
  }

  // ---- Distinct deadlines ----

  /** No two entries are ever pending with equal deadlines. */
  ghost predicate NoTies<S>(p: Coroutines<S>, m: Sys<S>, target: int, n: nat)
    decreases n
  {
    && (forall i, j :: 0 <= i < j < |m.timers| ==> m.timers[i].when != m.timers[j].when)
    && (n > 0 && ManualNext(p, m, target).Some? ==> NoTies(p, ManualNext(p, m, target).value, target, n - 1))
  }

  lemma {:induction false} FireAllAfter<S(!new)>(p: Coroutines<S>, m: Sys<S>)
    requires OnlySleeps(p) && Sorted(m.timers) && AllAfter(m.timers, m.now) && m.ready == [] && m.timers != []
    requires |m.timers| >= 2 ==> m.timers[0].when != m.timers[1].when
    ensures var next := FireFront(p, m); !Clash(p, m) && Sorted(next.timers) && AllAfter(next.timers, next.now)
  {
    var rest, now := m.timers[1..], Max(m.now, m.timers[0].when);
    forall i | 0 <= i < |rest| ensures now < rest[i].when {
      assert m.timers[1].when <= m.timers[i + 1].when;
    }
    InsertAllAfter(rest, WakeReaction(p, m).sleeps, now);
    InsertAllLaws(rest, WakeReaction(p, m).sleeps);
  }

  lemma {:induction false} NoTiesNoClash<S(!new)>(p: Coroutines<S>, m: Sys<S>, target: int, n: nat, end: Sys<S>)
    requires OnlySleeps(p) && Sorted(m.timers) && AllAfter(m.timers, m.now)
    requires AdvancesTo(p, m, target, n, end) && NoTies(p, m, target, n)
    ensures NoClash(p, m, target, n)
    decreases n
  {
    if n > 0 {
      var next := ManualNext(p, m, target).value;
      if m.ready != [] {
        var r := p(m.state, m.ready[0], m.now);
        InsertAllAfter(m.timers, r.sleeps, m.now);
        InsertAllLaws(m.timers, r.sleeps);
      } else {
        FireAllAfter(p, m);
      }
      NoTiesNoClash(p, next, target, n - 1, end);
    }
  }

  /** With all timers from `Sleep` and no two entries ever pending with equal deadlines, the two schedulers run the
      same trace to the same final state. */
  lemma {:induction false} DistinctDeadlinesAgree<S(!new)>(p: Coroutines<S>, m: Sys<S>, target: int, n: nat,
                                                    end: Sys<S>)
    returns (n': nat, end': Sys<S>)
    requires OnlySleeps(p) && Sorted(m.timers) && AllAfter(m.timers, m.now) && m.now <= target
    requires AdvancesTo(p, m, target, n, end) && end.timers == [] && NoTies(p, m, target, n)
    ensures RunsOut(p, m, n', end') && end'.trace == end.trace && end'.state == end.state && end'.fired == end.fired
  {
    NoTiesNoClash(p, m, target, n, end);
    NoneDue(m.timers, m.now);
    DrainNothing(m);
    n', end' := EventLoopFollows(p, m, target, n, end);
  }

  // ---- Equal deadlines matter ----

  /** Coroutine 0 posts coroutine 2 when it is woken; 1 and 2 do nothing. */
  function WakesAnother(s: (), h: Handle, now: int): Reaction<()> {
    Reaction((), if h == 0 then [2] else [], [])
  }

  /** Coroutines 0 and 1 sleep until the same time. */
  const TIED: Sys<()> := Sys((), [], [Timer(5, 0), Timer(5, 1)], 0, [], [Timer(5, 0), Timer(5, 1)], [])

  lemma {:induction false} TiedManually() returns (end: Sys<()>)
    ensures AdvancesTo(WakesAnother, TIED, 5, 3, end)
    ensures end.timers == [] && end.trace == [Event(0, 5), Event(2, 5), Event(1, 5)]
  {
    var p := WakesAnother;
    var m1 := FireFront(p, TIED);
    var m2 := ServeFront(p, m1);
    end := FireFront(p, m2);
    assert AdvancesTo(p, m1, 5, 2, end);
  }

  lemma {:induction false} TiedInRun() returns (end: Sys<()>)
    ensures RunsOut(WakesAnother, TIED, 4, end)
    ensures end.timers == [] && end.trace == [Event(0, 5), Event(1, 5), Event(2, 5)]
  {
    hide DrainExpired;
    var p := WakesAnother;
    var e1 := DueTogether(TIED);
    DrainNothing(TIED);
    var e1' := DrainedTie();
    var e2 := ServeFront(p, e1');
    var e3 := ServeFront(p, e2);
    end := ServeFront(p, e3);
    DrainNothing(e2);
    DrainNothing(e3);
    DrainNothing(end);
    assert RunsOut(p, e3, 1, end);
    assert RunsOut(p, e2, 2, end);
    assert RunsOut(p, e1, 3, end);
  }

  lemma {:induction false} DrainedTie() returns (e: Sys<()>)
    ensures e == DrainExpired(DueTogether(TIED)) == TIED.(ready := [0, 1], timers := [], now := 5, fired := TIED.timers)
  {
    e := DrainExpired(DueTogether(TIED));
    assert e.ready == [0, 1];
  }

  /** The proviso is needed: here the schedulers differ, `Run` waking both sleepers before it serves the post. */
  lemma {:induction false} TiesMatter() returns (end: Sys<()>, end': Sys<()>)
    ensures OnlySleeps(WakesAnother) && AllAfter(TIED.timers, TIED.now)
    ensures AdvancesTo(WakesAnother, TIED, 5, 3, end) && RunsOut(WakesAnother, TIED, 4, end')
    ensures end.timers == [] && end.trace == [Event(0, 5), Event(2, 5), Event(1, 5)]
    ensures end'.timers == [] && end'.trace == [Event(0, 5), Event(1, 5), Event(2, 5)]
  {
    hide AdvancesTo, RunsOut;
    end := TiedManually();
    end' := TiedInRun();
  }
}
