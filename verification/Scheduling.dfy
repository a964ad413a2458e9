/** The driving loops over arbitrary coroutines: what `handle.resume()` does is a parameter. */
module Scheduling {
  import opened Wrappers
  import opened Timers

  /** What one `handle.resume()` does to the client state and to the scheduler: the handles it posts and the timers
      it schedules, in order. */
  datatype Reaction<S> = Reaction(state: S, posts: seq<Handle>, sleeps: seq<Timer>)

  /** All coroutines together: client state, handle and clock reading to reaction. */
  type Coroutines<!S> = (S, Handle, int) -> Reaction<S>

  /** A resumption and the clock it observed. */
  datatype Event = Event(handle: Handle, clock: int)

  /** A scheduler with its clients.  `trace`, `scheduled` (all timers ever inserted) and `fired` (all timers ever
      popped) are the history of the run. */
  datatype Sys<S> = Sys(state: S, ready: seq<Handle>, timers: seq<Timer>, now: int,
                        trace: seq<Event>, scheduled: seq<Timer>, fired: seq<Timer>)

  // ---- Clocks that move by themselves ----

  /** How time passes during a resumption: before its `k`-th reading of the clock, it moves on by `drift(from + k)`. */
  datatype Pace = Pace(drift: nat -> nat, from: nat)

  function NoDrift(k: nat): nat {
    0
  }

  const STILL := Pace(NoDrift, 0)

  ghost predicate Standing(pace: Pace) {
    forall k :: pace.drift(k) == 0
  }

  /** A resumption during which time passes: what it does, and what the clock shows when control returns. */
  datatype Lapse<S> = Lapse(reaction: Reaction<S>, now: int)

  /** All coroutines together, under a clock that moves by itself. */
  type Clocked<!S> = (S, Handle, int, Pace) -> Lapse<S>

  /** An iteration of `Run`: the reading with which it drains the timers, and how time passes while it resumes. */
  datatype Turn = Turn(now: int, pace: Pace)

  // ---- Steps shared by both loops ----

  /** The scheduler after coroutine `h` has run: its posts and timers go into the queues. */
  function Settled<S>(sys: Sys<S>, h: Handle, r: Reaction<S>): Sys<S> {
    Sys(r.state, sys.ready + r.posts, InsertAll(sys.timers, r.sleeps), sys.now,
        sys.trace + [Event(h, sys.now)], sys.scheduled + r.sleeps, sys.fired)
  }

  function Resumed<S>(p: Coroutines<S>, sys: Sys<S>, h: Handle): Sys<S> {
    Settled(sys, h, p(sys.state, h, sys.now))
  }

  function ResumedLate<S>(q: Clocked<S>, sys: Sys<S>, h: Handle, pace: Pace): Sys<S> {
    var l := q(sys.state, h, sys.now, pace);
    Settled(sys, h, l.reaction).(now := l.now)
  }

  /** Pops the front of the ready queue and resumes it. */
  function ServeFront<S>(p: Coroutines<S>, sys: Sys<S>): Sys<S>
    requires sys.ready != []
  {
    Resumed(p, sys.(ready := sys.ready[1..]), sys.ready[0])
  }

  function ServeLate<S>(q: Clocked<S>, sys: Sys<S>, pace: Pace): Sys<S>
    requires sys.ready != []
  {
    ResumedLate(q, sys.(ready := sys.ready[1..]), sys.ready[0], pace)
  }

  /** Pops the earliest timer, moves virtual time to its deadline (never backwards) and resumes it. */
  function FireFront<S>(p: Coroutines<S>, sys: Sys<S>): Sys<S>
    requires sys.timers != []
  {
    var t := sys.timers[0];
    Resumed(p, sys.(timers := sys.timers[1..], now := Max(sys.now, t.when), fired := sys.fired + [t]), t.handle)
  }

  // ---- ManualScheduler::AdvanceTo ----

  /** One resumption of `AdvanceTo(target)`; `None` when it is done. */
  function ManualNext<S>(p: Coroutines<S>, sys: Sys<S>, target: int): Option<Sys<S>> {
    if sys.ready != [] then Some(ServeFront(p, sys))
    else if sys.timers != [] && sys.timers[0].when <= target then Some(FireFront(p, sys))
    else None
  }

  /** `AdvanceTo(target)` returns after `n` resumptions and leaves `end`. */
  ghost predicate AdvancesTo<S>(p: Coroutines<S>, sys: Sys<S>, target: int, n: nat, end: Sys<S>)
    decreases n
  {
    match ManualNext(p, sys, target)
    case None => n == 0 && end == sys.(now := Max(sys.now, target))
    case Some(next) => n > 0 && AdvancesTo(p, next, target, n - 1, end)
  }

  ghost predicate AdvancesBy<S>(p: Coroutines<S>, sys: Sys<S>, delta: int, n: nat, end: Sys<S>) {
    AdvancesTo(p, sys, sys.now + delta, n, end)
  }

  /** The queue that `DrainReady` leaves after `n` resumptions. */
  ghost predicate DrainsTo<S>(p: Coroutines<S>, sys: Sys<S>, n: nat, end: Sys<S>)
    decreases n
  {
    if sys.ready == [] then n == 0 && end == sys
    else n > 0 && DrainsTo(p, ServeFront(p, sys), n - 1, end)
  }

  // ---- EventLoop::Run ----

  /** `DrainExpiredTimers` at the current reading. */
  function DrainExpired<S>(sys: Sys<S>): Sys<S> {
    var k := DueCount(sys.timers, sys.now);
    sys.(ready := sys.ready + HandlesOf(sys.timers[..k]), timers := sys.timers[k..],
      fired := sys.fired + sys.timers[..k])
  }

  /** One iteration of `Run` at the current reading: drain, then resume the front or wait for the earliest deadline
      (after which the clock shows at least that); `None` when the loop breaks. */
  function RunNext<S>(p: Coroutines<S>, sys: Sys<S>): Option<Sys<S>> {
    var s := DrainExpired(sys);
    if s.ready != [] then Some(ServeFront(p, s))
    else if s.timers != [] then Some(s.(now := Max(s.now, s.timers[0].when)))
    else None
  }

  /** `Run` under a clock that only moves when waited on breaks after `n` iterations in `end`. */
  ghost predicate RunsOut<S>(p: Coroutines<S>, sys: Sys<S>, n: nat, end: Sys<S>)
    decreases n
  {
    match RunNext(p, sys)
    case None => n == 0 && end == sys
    case Some(next) => n > 0 && RunsOut(p, next, n - 1, end)
  }

  /** One iteration under any clock. */
  function RunTurn<S>(q: Clocked<S>, sys: Sys<S>, turn: Turn): Option<Sys<S>> {
    var s := DrainExpired(sys.(now := turn.now));
    if s.ready != [] then Some(ServeLate(q, s, turn.pace))
    else if s.timers != [] then Some(s.(now := Max(s.now, s.timers[0].when)))
    else None
  }

  /** The first `|turns|` iterations of `Run`; `None` if it breaks before. */
  function RunFor<S>(q: Clocked<S>, sys: Sys<S>, turns: seq<Turn>): Option<Sys<S>>
    decreases |turns|
  {
    if turns == [] then Some(sys)
    else
      match RunTurn(q, sys, turns[0])
      case None => None
      case Some(next) => RunFor(q, next, turns[1..])
  }

  /** The readings are those of a monotone clock that honours `WaitUntil`. */
  ghost predicate ClockOk<S>(q: Clocked<S>, sys: Sys<S>, turns: seq<Turn>)
    decreases |turns|
  {
    turns != [] ==>
      && sys.now <= turns[0].now
      && match RunTurn(q, sys, turns[0])
         case None => true
         case Some(next) => ClockOk(q, next, turns[1..])
  }

  /** Time does not move but in waits. */
  ghost predicate Undrifting<S>(q: Clocked<S>, sys: Sys<S>, turns: seq<Turn>)
    decreases |turns|
  {
    turns != [] ==>
      && turns[0].now == sys.now && Standing(turns[0].pace)
      && match RunTurn(q, sys, turns[0])
         case None => true
         case Some(next) => Undrifting(q, next, turns[1..])
  }

  /** Resumes the first `|paces|` handles of the ready queue. */
  function Serve<S>(q: Clocked<S>, sys: Sys<S>, paces: seq<Pace>): Sys<S>
    requires |paces| <= |sys.ready|
    decreases |paces|
  {
    if paces == [] then sys else Serve(q, ServeLate(q, sys, paces[0]), paces[1..])
  }

  // ---- A clock that only moves when waited on ----

  /** `q` does what `p` does while the clock stands still. */
  ghost predicate Virtually<S(!new)>(p: Coroutines<S>, q: Clocked<S>) {
    forall s, h, now, pace {:trigger q(s, h, now, pace)} ::
      Standing(pace) ==> q(s, h, now, pace) == Lapse(p(s, h, now), now)
  }

  lemma {:induction false} StillTurn<S(!new)>(p: Coroutines<S>, q: Clocked<S>, sys: Sys<S>, turn: Turn)
    requires Virtually(p, q) && turn.now == sys.now && Standing(turn.pace)
    ensures RunTurn(q, sys, turn) == RunNext(p, sys)
  {
    assert sys.(now := turn.now) == sys;
  }

  /** Iterations without drift, until the loop breaks, are a run under a manual clock. */
  lemma {:induction false} UndriftingRunsOut<S(!new)>(p: Coroutines<S>, q: Clocked<S>, sys: Sys<S>, turns: seq<Turn>,
                                               end: Sys<S>)
    requires Virtually(p, q) && Undrifting(q, sys, turns)
    requires RunFor(q, sys, turns) == Some(end) && RunNext(p, end) == None
    ensures RunsOut(p, sys, |turns|, end)
    decreases |turns|
  {
    hide RunTurn, RunNext, Virtually;
    if turns != [] {
      StillTurn(p, q, sys, turns[0]);
      UndriftingRunsOut(p, q, RunTurn(q, sys, turns[0]).value, turns[1..], end);
    }
  }

  // ---- Advancing composes ----

  lemma {:induction false} AdvanceLands<S>(p: Coroutines<S>, sys: Sys<S>, target: int, n: nat, end: Sys<S>)
    requires AdvancesTo(p, sys, target, n, end)
    ensures end.now == Max(sys.now, target) && end.ready == []
    ensures end.timers != [] ==> target < end.timers[0].when
    ensures |end.trace| == |sys.trace| + n
    decreases n
  {
    if n > 0 {
      AdvanceLands(p, ManualNext(p, sys, target).value, target, n - 1, end);
    }
  }

  /** Advancing from a point that has nothing left to do before `t` does not depend on whether the clock shows it. */
  lemma {:induction false} AdvanceFrom<S>(p: Coroutines<S>, sys: Sys<S>, t: int, target: int, n: nat, end: Sys<S>)
    requires t <= target && ManualNext(p, sys, t) == None
    ensures AdvancesTo(p, sys.(now := Max(sys.now, t)), target, n, end) <==> AdvancesTo(p, sys, target, n, end)
  {
    if sys.timers != [] && sys.timers[0].when <= target {
      assert FireFront(p, sys.(now := Max(sys.now, t))) == FireFront(p, sys);
    }
  }

  /** `AdvanceTo(t1); AdvanceTo(t2)` is `AdvanceTo(t2)`: same trace, same state, and the counts add up. */
  lemma {:induction false} AdvanceComposes<S>(p: Coroutines<S>, sys: Sys<S>, t1: int, t2: int, n1: nat, mid: Sys<S>,
                                              n2: nat, end: Sys<S>)
    requires t1 <= t2 && AdvancesTo(p, sys, t1, n1, mid) && AdvancesTo(p, mid, t2, n2, end)
    ensures AdvancesTo(p, sys, t2, n1 + n2, end)
    decreases n1
  {
    if n1 == 0 {
      AdvanceFrom(p, sys, t1, t2, n2, end);
    } else {
      AdvanceComposes(p, ManualNext(p, sys, t1).value, t1, t2, n1 - 1, mid, n2, end);
    }
  }

  /** Conversely, an advance can be interrupted anywhere. */
  lemma {:induction false} AdvanceSplits<S>(p: Coroutines<S>, sys: Sys<S>, t1: int, t2: int, n: nat, end: Sys<S>)
    returns (n1: nat, mid: Sys<S>)
    requires t1 <= t2 && AdvancesTo(p, sys, t2, n, end)
    ensures n1 <= n && AdvancesTo(p, sys, t1, n1, mid) && AdvancesTo(p, mid, t2, n - n1, end)
    decreases n
  {
    match ManualNext(p, sys, t1) {
      case None =>
        n1, mid := 0, sys.(now := Max(sys.now, t1));
        AdvanceFrom(p, sys, t1, t2, n, end);
      case Some(next) =>
        n1, mid := AdvanceSplits(p, next, t1, t2, n - 1, end);
        n1 := n1 + 1;
    }
  }

  lemma {:induction false} AdvanceByComposes<S>(p: Coroutines<S>, sys: Sys<S>, a: nat, b: nat, n1: nat, mid: Sys<S>,
                                                n2: nat, end: Sys<S>)
    requires AdvancesBy(p, sys, a, n1, mid) && AdvancesBy(p, mid, b, n2, end)
    ensures AdvancesBy(p, sys, a + b, n1 + n2, end)
  {
    AdvanceLands(p, sys, sys.now + a, n1, mid);
    AdvanceComposes(p, sys, sys.now + a, sys.now + a + b, n1, mid, n2, end);
  }

  // ---- Timers fire in stable deadline order over the whole run ----

  /** Coroutines that schedule timers only through `Sleep`, hence strictly in the future. */
  ghost predicate OnlySleeps<S(!new)>(p: Coroutines<S>) {
    forall s, h, now {:trigger p(s, h, now)} :: AllAfter(p(s, h, now).sleeps, now)
  }

  /** The timers fired so far, then those pending, are the stable sort by deadline of all that were scheduled. */
  ghost predicate InOrder<S>(sys: Sys<S>) {
    sys.fired + sys.timers == InsertAll([], sys.scheduled) && Sorted(sys.timers) && AllBy(sys.fired, sys.now)
  }

  lemma {:induction false} ResumedInOrder<S(!new)>(p: Coroutines<S>, sys: Sys<S>, h: Handle)
    requires OnlySleeps(p) && InOrder(sys)
    ensures InOrder(Resumed(p, sys, h))
  {
    var r := p(sys.state, h, sys.now);
    InsertAllAppend([], sys.scheduled, r.sleeps);
    InsertAllBehind(sys.fired, sys.timers, r.sleeps, sys.now);
    InsertAllLaws(sys.timers, r.sleeps);
  }

  lemma {:induction false} ManualInOrder<S(!new)>(p: Coroutines<S>, sys: Sys<S>, target: int)
    requires OnlySleeps(p) && InOrder(sys) && ManualNext(p, sys, target).Some?
    ensures InOrder(ManualNext(p, sys, target).value)
  {
    if sys.ready != [] {
      ResumedInOrder(p, sys.(ready := sys.ready[1..]), sys.ready[0]);
    } else {
      var t := sys.timers[0];
      var sys' := sys.(timers := sys.timers[1..], now := Max(sys.now, t.when), fired := sys.fired + [t]);
      assert sys'.fired + sys'.timers == sys.fired + sys.timers;
      ResumedInOrder(p, sys', t.handle);
    }
  }

  lemma {:induction false} DrainInOrder<S>(sys: Sys<S>)
    requires InOrder(sys)
    ensures InOrder(DrainExpired(sys))
  {
    var s, k := DrainExpired(sys), DueCount(sys.timers, sys.now);
    assert s.fired + s.timers == sys.fired + sys.timers;
  }

  /** The same under any clock: it does not go back, and what is scheduled lies after the last reading. */
  ghost predicate OnlySleepsLate<S(!new)>(q: Clocked<S>) {
    forall s, h, now, pace {:trigger q(s, h, now, pace)} ::
      now <= q(s, h, now, pace).now && AllAfter(q(s, h, now, pace).reaction.sleeps, q(s, h, now, pace).now)
  }

  lemma {:induction false} LateInOrder<S(!new)>(q: Clocked<S>, sys: Sys<S>, h: Handle, pace: Pace)
    requires OnlySleepsLate(q) && InOrder(sys)
    ensures InOrder(ResumedLate(q, sys, h, pace))
  {
    var r := q(sys.state, h, sys.now, pace).reaction;
    InsertAllAppend([], sys.scheduled, r.sleeps);
    InsertAllBehind(sys.fired, sys.timers, r.sleeps, sys.now);
    InsertAllLaws(sys.timers, r.sleeps);
  }

  lemma {:induction false} TurnInOrder<S(!new)>(q: Clocked<S>, sys: Sys<S>, turn: Turn)
    requires OnlySleepsLate(q) && InOrder(sys) && sys.now <= turn.now && RunTurn(q, sys, turn).Some?
    ensures InOrder(RunTurn(q, sys, turn).value)
  {
    var sys' := sys.(now := turn.now);
    DrainInOrder(sys');
    var s := DrainExpired(sys');
    if s.ready != [] {
      LateInOrder(q, s.(ready := s.ready[1..]), s.ready[0], turn.pace);
    }
  }

  /** Over a whole `AdvanceTo`. */
  lemma {:induction false} AdvanceInOrder<S(!new)>(p: Coroutines<S>, sys: Sys<S>, target: int, n: nat, end: Sys<S>)
    requires OnlySleeps(p) && InOrder(sys) && AdvancesTo(p, sys, target, n, end)
    ensures InOrder(end)
    decreases n
  {
    if n > 0 {
      ManualInOrder(p, sys, target);
      AdvanceInOrder(p, ManualNext(p, sys, target).value, target, n - 1, end);
    }
  }

  /** Over any stretch of `Run`, under any clock. */
  lemma {:induction false} RunForInOrder<S(!new)>(q: Clocked<S>, sys: Sys<S>, turns: seq<Turn>)
    requires OnlySleepsLate(q) && InOrder(sys) && ClockOk(q, sys, turns) && RunFor(q, sys, turns).Some?
    ensures InOrder(RunFor(q, sys, turns).value)
    decreases |turns|
  {
    if turns != [] {
      TurnInOrder(q, sys, turns[0]);
      RunForInOrder(q, RunTurn(q, sys, turns[0]).value, turns[1..]);
    }
  }

  /** Place `k` in the sequence of resumptions, past and queued, belongs to timer `t`: it was resumed there with the
      clock at its deadline or later, or stands there in the ready queue. */
  ghost predicate Takes<S>(sys: Sys<S>, k: nat, t: Timer) {
    && k < |sys.trace| + |sys.ready|
    && if k < |sys.trace| then sys.trace[k].handle == t.handle && t.when <= sys.trace[k].clock
       else sys.ready[k - |sys.trace|] == t.handle
  }

  /** The fired timers take the places `at`, in the order in which they fired. */
  ghost predicate TakeTurns<S>(sys: Sys<S>, at: seq<nat>) {
    && |at| == |sys.fired| && AllBy(sys.fired, sys.now)
    && (forall i, j :: 0 <= i < j < |at| ==> at[i] < at[j])
    && (forall i :: 0 <= i < |at| ==> Takes(sys, at[i], sys.fired[i]))
  }

  /** Drained timers take the places behind what is ready. */
  lemma {:induction false} DrainTakesTurns<S>(sys: Sys<S>, at: seq<nat>) returns (at': seq<nat>)
    requires TakeTurns(sys, at)
    ensures at <= at' && TakeTurns(DrainExpired(sys), at')
  {
    var k, base, s := DueCount(sys.timers, sys.now), |sys.trace| + |sys.ready|, DrainExpired(sys);
    at' := at + seq(k, j => base + j);
    forall i | 0 <= i < |at'| ensures Takes(s, at'[i], s.fired[i]) {
      if i < |at| {
        assert Takes(sys, at[i], sys.fired[i]);
      } else {
        assert s.fired[i] == sys.timers[..k][i - |at|];
        assert s.ready[at'[i] - |s.trace|] == HandlesOf(sys.timers[..k])[i - |at|];
      }
    }
  }

  /** The front of the ready queue takes its turn at the present reading, at which every fired timer is due. */
  lemma {:induction false} ServeTakesTurns<S(!new)>(q: Clocked<S>, sys: Sys<S>, pace: Pace, at: seq<nat>)
    requires OnlySleepsLate(q) && TakeTurns(sys, at) && sys.ready != []
    ensures TakeTurns(ServeLate(q, sys, pace), at)
  {
    var next := ServeLate(q, sys, pace);
    assert sys.now <= next.now;
    forall i | 0 <= i < |at| ensures Takes(next, at[i], next.fired[i]) {
      assert Takes(sys, at[i], sys.fired[i]);
    }
  }

  /** Over any stretch of `Run`, under any clock and for arbitrary coroutines, every fired timer is resumed in its turn,
      in the order of firing, at a reading of the clock that has reached its deadline. */
  lemma {:induction false} RunForTakesTurns<S(!new)>(q: Clocked<S>, sys: Sys<S>, turns: seq<Turn>, at: seq<nat>)
    returns (at': seq<nat>)
    requires OnlySleepsLate(q) && TakeTurns(sys, at) && ClockOk(q, sys, turns) && RunFor(q, sys, turns).Some?
    ensures at <= at' && TakeTurns(RunFor(q, sys, turns).value, at')
    decreases |turns|
  {
    hide DrainExpired, ServeLate;
    at' := at;
    if turns != [] {
      PassingTakesNothing(sys, turns[0].now, at);
      at' := DrainTakesTurns(sys.(now := turns[0].now), at);
      var s, next := DrainExpired(sys.(now := turns[0].now)), RunTurn(q, sys, turns[0]).value;
      if s.ready != [] {
        ServeTakesTurns(q, s, turns[0].pace, at');
      } else {
        PassingTakesNothing(s, next.now, at');
      }
      at' := RunForTakesTurns(q, next, turns[1..], at');
    }
  }

  lemma {:induction false} PassingTakesNothing<S>(sys: Sys<S>, now: int, at: seq<nat>)
    requires TakeTurns(sys, at) && sys.now <= now
    ensures TakeTurns(sys.(now := now), at)
  {
    forall i | 0 <= i < |at| ensures Takes(sys.(now := now), at[i], sys.fired[i]) {
      assert Takes(sys, at[i], sys.fired[i]);
    }
  }

  /** No pending deadline has passed. */
  ghost predicate NoneOverdue<S>(sys: Sys<S>) {
    Sorted(sys.timers) && forall i :: 0 <= i < |sys.timers| ==> sys.now <= sys.timers[i].when
  }

  /** The step to `next` fired the earliest timer, at its own deadline. */
  ghost predicate FiredNow<S>(sys: Sys<S>, next: Sys<S>) {
    && sys.timers != [] && next.fired == sys.fired + [sys.timers[0]]
    && next.trace == sys.trace + [Event(sys.timers[0].handle, sys.timers[0].when)]
  }

  /** Every timer that fires within the next `n` resumptions of an advance observes the clock at its own deadline. */
  ghost predicate FiresOnTime<S>(p: Coroutines<S>, sys: Sys<S>, target: int, n: nat)
    decreases n
  {
    n > 0 && ManualNext(p, sys, target).Some? ==>
      var next := ManualNext(p, sys, target).value;
      && (next.fired == sys.fired || FiredNow(sys, next))
      && FiresOnTime(p, next, target, n - 1)
  }

  lemma {:induction false} ManualNotOverdue<S(!new)>(p: Coroutines<S>, sys: Sys<S>, target: int)
    requires OnlySleeps(p) && NoneOverdue(sys) && ManualNext(p, sys, target).Some?
    ensures NoneOverdue(ManualNext(p, sys, target).value)
  {
    hide Insert, InsertAll;
    var next := ManualNext(p, sys, target).value;
    var kept := if sys.ready != [] then sys.timers else sys.timers[1..];
    var h := if sys.ready != [] then sys.ready[0] else sys.timers[0].handle;
    var r := p(sys.state, h, next.now);
    InsertAllLaws(kept, r.sleeps);
    forall i | 0 <= i < |next.timers| ensures next.now <= next.timers[i].when {
      assert multiset(next.timers)[next.timers[i]] > 0;
      assert next.timers[i] in kept || next.timers[i] in r.sleeps;
    }
  }

  /** Over a whole `AdvanceTo`, each timer is resumed with the clock at exactly its own deadline. */
  lemma {:induction false} AdvanceFiresOnTime<S(!new)>(p: Coroutines<S>, sys: Sys<S>, target: int, n: nat, end: Sys<S>)
    requires OnlySleeps(p) && NoneOverdue(sys) && AdvancesTo(p, sys, target, n, end)
    ensures FiresOnTime(p, sys, target, n) && NoneOverdue(end)
    decreases n
  {
    if n > 0 {
      ManualNotOverdue(p, sys, target);
      AdvanceFiresOnTime(p, ManualNext(p, sys, target).value, target, n - 1, end);
    }
  }

  // ---- Bounded bypass ----

  /** What stands at position `k` of the ready queue once the due timers are drained, whatever the coroutines do, is
      resumed in exactly iteration `k` (counting from 0), at that iteration's clock reading. */
  lemma {:induction false} ServedInTurn<S>(q: Clocked<S>, sys: Sys<S>, turns: seq<Turn>, k: nat)
    requires ClockOk(q, sys, turns) && |turns| == k + 1 && k < |DrainExpired(sys.(now := turns[0].now)).ready|
    ensures var end := RunFor(q, sys, turns);
      end.Some? && |end.value.trace| == |sys.trace| + k + 1 && end.value.trace[..|sys.trace|] == sys.trace
      && end.value.trace[|sys.trace| + k] == Event(DrainExpired(sys.(now := turns[0].now)).ready[k], turns[k].now)
    decreases k
  {
    var s := DrainExpired(sys.(now := turns[0].now));
    var next := ServeLate(q, s, turns[0].pace);
    assert RunTurn(q, sys, turns[0]) == Some(next);
    if k > 0 {
      assert next.ready[k - 1] == s.ready[k];
      assert DrainExpired(next.(now := turns[1..][0].now)).ready[k - 1] == next.ready[k - 1];
      ServedInTurn(q, next, turns[1..], k - 1);
      assert next.trace[..|sys.trace|] == sys.trace;
    } else {
      assert RunFor(q, next, turns[1..]) == Some(next);
    }
  }

  /** A ready handle at position `k` is resumed in the `(k + 1)`-th iteration. */
  lemma {:induction false} ReadyNotBypassed<S>(q: Clocked<S>, sys: Sys<S>, turns: seq<Turn>, k: nat)
    requires ClockOk(q, sys, turns) && |turns| == k + 1 && k < |sys.ready|
    ensures var end := RunFor(q, sys, turns);
      end.Some? && |end.value.trace| == |sys.trace| + k + 1
      && end.value.trace[|sys.trace| + k] == Event(sys.ready[k], turns[k].now)
  {
    ServedInTurn(q, sys, turns, k);
  }

  /** A timer that is due when an iteration starts, behind `r` ready handles and `j` earlier due timers, is resumed
      in the `(r + j + 1)`-th iteration from there. */
  lemma {:induction false} TimerNotBypassed<S>(q: Clocked<S>, sys: Sys<S>, turns: seq<Turn>, j: nat)
    requires Sorted(sys.timers) && j < |sys.timers| && |turns| == |sys.ready| + j + 1
    requires ClockOk(q, sys, turns) && sys.timers[j].when <= turns[0].now
    ensures var end := RunFor(q, sys, turns);
      end.Some? && |end.value.trace| == |sys.trace| + |sys.ready| + j + 1
      && end.value.trace[|sys.trace| + |sys.ready| + j] == Event(sys.timers[j].handle, turns[|sys.ready| + j].now)
  {
    var k := DueCount(sys.timers, turns[0].now);
    assert j < k;
    var s := DrainExpired(sys.(now := turns[0].now));
    assert s.ready[|sys.ready| + j] == HandlesOf(sys.timers[..k])[j] == sys.timers[j].handle;
    ServedInTurn(q, sys, turns, |sys.ready| + j);
  }

  lemma {:induction false} ServedOne<S>(q: Clocked<S>, sys: Sys<S>, pace: Pace)
    requires sys.ready != []
    ensures var next := ServeLate(q, sys, pace);
      && next.trace == sys.trace + [Event(sys.ready[0], sys.now)]
      && exists posts :: next.ready == sys.ready[1..] + posts
  {
    var posts := q(sys.state, sys.ready[0], sys.now, pace).reaction.posts;
    assert ServeLate(q, sys, pace).ready == sys.ready[1..] + posts;
  }

  /** `RunOnce` resumes exactly what was ready or due when it was called, in order, and leaves exactly what those
      resumptions posted. */
  lemma {:induction false} ServeIsBounded<S>(q: Clocked<S>, sys: Sys<S>, paces: seq<Pace>)
    requires |paces| <= |sys.ready|
    ensures var end, n := Serve(q, sys, paces), |paces|;
      && |end.trace| == |sys.trace| + n && end.trace[..|sys.trace|] == sys.trace
      && (forall i :: 0 <= i < n ==> end.trace[|sys.trace| + i].handle == sys.ready[i])
      && |sys.ready| - n <= |end.ready| && end.ready[..|sys.ready| - n] == sys.ready[n..]
    decreases |paces|
  {
    hide ServeLate;
    if paces != [] {
      var n := |paces|;
      var next := ServeLate(q, sys, paces[0]);
      ServedOne(q, sys, paces[0]);
      ServeIsBounded(q, next, paces[1..]);
      var end := Serve(q, sys, paces);
      assert end.trace[..|sys.trace|] == next.trace[..|sys.trace|];
      assert end.trace[|sys.trace|] == next.trace[|sys.trace|];
      forall i | 0 <= i < n ensures end.trace[|sys.trace| + i].handle == sys.ready[i] {
        if i > 0 {
          assert end.trace[|next.trace| + (i - 1)].handle == next.ready[i - 1];
        }
      }
      var posts :| next.ready == sys.ready[1..] + posts;
      StillInFront(sys.ready, posts, next.ready, end.ready, n);
    }
  }

  lemma {:induction false} StillInFront(ready: seq<Handle>, posts: seq<Handle>, next: seq<Handle>, end: seq<Handle>,
                                        n: nat)
    requires 0 < n <= |ready| && next == ready[1..] + posts
    requires |next| - (n - 1) <= |end| && end[..|next| - (n - 1)] == next[n - 1..]
    ensures |ready| - n <= |end| && end[..|ready| - n] == ready[n..]
  {
    forall i | 0 <= i < |ready| - n ensures end[i] == ready[n + i] {
      assert end[i] == end[..|next| - (n - 1)][i] == next[n - 1 + i] == ready[1..][n - 1 + i];
    }
  }

  /** Each of them observes the clock between the drain and the end. */
  lemma {:induction false} ServeClocks<S(!new)>(q: Clocked<S>, sys: Sys<S>, paces: seq<Pace>)
    requires OnlySleepsLate(q) && |paces| <= |sys.ready|
    ensures var end, n := Serve(q, sys, paces), |paces|;
      sys.now <= end.now && |end.trace| == |sys.trace| + n
      && forall i :: |sys.trace| <= i < |end.trace| ==> sys.now <= end.trace[i].clock <= end.now
    decreases |paces|
  {
    if paces != [] {
      var next := ServeLate(q, sys, paces[0]);
      ServeClocks(q, next, paces[1..]);
      ServeIsBounded(q, next, paces[1..]);
      assert Serve(q, sys, paces).trace[|sys.trace|] == next.trace[|sys.trace|];
    }
  }

  /** Serving one handle more. */
  lemma {:induction false} ServeMore<S>(q: Clocked<S>, sys: Sys<S>, paces: seq<Pace>, pace: Pace)
    requires |paces| < |sys.ready|
    ensures Serve(q, sys, paces).ready != []
    ensures Serve(q, sys, paces + [pace]) == ServeLate(q, Serve(q, sys, paces), pace)
    decreases |paces|
  {
    if paces == [] {
      assert ([] + [pace])[1..] == [];
    } else {
      ServeMore(q, ServeLate(q, sys, paces[0]), paces[1..], pace);
      assert (paces + [pace])[1..] == paces[1..] + [pace];
    }
  }
}
