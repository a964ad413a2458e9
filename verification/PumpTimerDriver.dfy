/** The timer algorithm of schedulers that ride somebody else's event pump, over one host timer. */
module Pump {
  import opened Wrappers
  import opened Timers
  import opened TimerHeap
  import opened Clocks

  /** Clock ticks (nanoseconds) in a millisecond. */
  const MILLISECOND := 1_000_000

  /** Expiry times that reach the deadline are exactly those at or after the delay that `Rearm` asks for. */
  function DelayUntil(deadline: int, now: int): (delay: nat)
    ensures forall ms: nat :: deadline <= now + ms * MILLISECOND <==> delay <= ms
  {
    if deadline > now then (deadline - now + MILLISECOND - 1) / MILLISECOND else 0
  }

  /** The host's single timer: the delay it was last armed with, and the reading that delay was computed from. */
  datatype HostTimer = Idle | Armed(at: int, delay: nat)

  /** One pass through the post seam: what was posted, at which reading, and whether it had been parked. */
  datatype Posting = Posting(timer: Timer, at: int, parked: bool)

  datatype Driver = Driver(parked: seq<Timer>, posted: seq<Posting>, host: HostTimer)

  const UNUSED := Driver([], [], Idle)

  /** What happens to a driver, with the clock readings that the call takes: one on entry, one when it re-arms. */
  datatype Call =
    | ScheduleAt(when: int, handle: Handle, now: int, rearmed: int)
    | OnTimerExpired(now: int, rearmed: int)

  function Rearmed(parked: seq<Timer>, now: int): HostTimer {
    if parked == [] then Idle else Armed(now, DelayUntil(parked[0].when, now))
  }

  function Postings(ts: seq<Timer>, now: int): seq<Posting> {
    seq(|ts|, i requires 0 <= i < |ts| => Posting(ts[i], now, true))
  }

  function Apply(d: Driver, c: Call): Driver {
    match c
    case ScheduleAt(when, h, now, rearmed) =>
      if when <= now then d.(posted := d.posted + [Posting(Timer(when, h), now, false)])
      else
        var parked := Insert(d.parked, Timer(when, h));
        Driver(parked, d.posted, Rearmed(parked, rearmed))
    case OnTimerExpired(now, rearmed) =>
      var k := DueCount(d.parked, now);
      Driver(d.parked[k..], d.posted + Postings(d.parked[..k], now), Rearmed(d.parked[k..], rearmed))
  }

  function ApplyAll(d: Driver, cs: seq<Call>): Driver {
    if cs == [] then d else Apply(ApplyAll(d, cs[..|cs| - 1]), cs[|cs| - 1])
  }

  /** The last reading. */
  function ReadBy(start: int, cs: seq<Call>): int {
    if cs == [] then start else cs[|cs| - 1].rearmed
  }

  /** The clock does not go back. */
  ghost predicate InTime(start: int, cs: seq<Call>) {
    cs != [] ==>
      var n := |cs| - 1;
      InTime(start, cs[..n]) && ReadBy(start, cs[..n]) <= cs[n].now <= cs[n].rearmed
  }

  // ---- What every run keeps ----

  /** The handles handed to `ScheduleAt`. */
  function HandedIn(cs: seq<Call>): seq<Handle> {
    if cs == [] then []
    else HandedIn(cs[..|cs| - 1]) + if cs[|cs| - 1].ScheduleAt? then [cs[|cs| - 1].handle] else []
  }

  /** The entries that were not yet due when they were handed over. */
  function ParkedIn(cs: seq<Call>): seq<Timer> {
    if cs == [] then []
    else
      var c := cs[|cs| - 1];
      ParkedIn(cs[..|cs| - 1]) + if c.ScheduleAt? && c.now < c.when then [Timer(c.when, c.handle)] else []
  }

  function PostedHandles(ps: seq<Posting>): seq<Handle> {
    seq(|ps|, i requires 0 <= i < |ps| => ps[i].timer.handle)
  }

  /** The posted entries that had been parked, in the order of posting. */
  function Released(ps: seq<Posting>): seq<Timer> {
    if ps == [] then []
    else Released(ps[..|ps| - 1]) + if ps[|ps| - 1].parked then [ps[|ps| - 1].timer] else []
  }

  /** The host timer is armed exactly while something is parked, for the earliest deadline. */
  ghost predicate WellArmed(d: Driver, now: int) {
    && Sorted(d.parked) && (d.host.Idle? <==> d.parked == [])
    && (d.host.Armed? ==> d.host.at <= now && d.host.delay == DelayUntil(d.parked[0].when, d.host.at))
  }

  lemma {:induction false} StaysArmed(d: Driver, now: int, c: Call)
    requires WellArmed(d, now) && now <= c.now <= c.rearmed
    ensures WellArmed(Apply(d, c), c.rearmed)
  {
    if c.ScheduleAt? {
      InsertLaws(d.parked, Timer(c.when, c.handle));
    }
  }

  lemma {:induction false} StaysArmedThroughout(d: Driver, start: int, cs: seq<Call>)
    requires WellArmed(d, start) && InTime(start, cs)
    ensures WellArmed(ApplyAll(d, cs), ReadBy(start, cs)) && start <= ReadBy(start, cs)
  {
    if cs != [] {
      var n := |cs| - 1;
      StaysArmedThroughout(d, start, cs[..n]);
      StaysArmed(ApplyAll(d, cs[..n]), ReadBy(start, cs[..n]), cs[n]);
    }
  }

  /** After any calls: the host timer is armed iff something is parked, and then with the least whole-millisecond delay
      that reaches the earliest deadline, so that it expires within a millisecond of a deadline still to come. */
  lemma {:induction false} ArmedForTheEarliest(start: int, cs: seq<Call>)
    requires InTime(start, cs)
    ensures var d := ApplyAll(UNUSED, cs);
      && (d.host.Armed? <==> d.parked != [])
      && (d.host.Armed? ==>
           var expiry := d.host.at + d.host.delay * MILLISECOND;
           && (forall i :: 0 <= i < |d.parked| ==> d.parked[0].when <= d.parked[i].when)
           && (forall ms: nat :: d.parked[0].when <= d.host.at + ms * MILLISECOND <==> d.host.delay <= ms)
           && (d.host.delay > 0 ==> d.parked[0].when <= expiry < d.parked[0].when + MILLISECOND))
  {
    StaysArmedThroughout(UNUSED, start, cs);
    var d := ApplyAll(UNUSED, cs);
    if d.host.Armed? && d.host.delay > 0 {
      assert !(d.host.delay <= d.host.delay - 1);
    }
  }

  /** After any calls, every handle handed over is either still parked or was posted, once. */
  lemma {:induction false} ParkedOrPosted(d: Driver, cs: seq<Call>)
    requires d == ApplyAll(UNUSED, cs)
    ensures multiset(PostedHandles(d.posted)) + multiset(HandlesOf(d.parked)) == multiset(HandedIn(cs))
    decreases |cs|
  {
    if cs == [] {
      assert PostedHandles(d.posted) == [] && HandlesOf(d.parked) == [];
    } else {
      var before, c := ApplyAll(UNUSED, cs[..|cs| - 1]), cs[|cs| - 1];
      ParkedOrPosted(before, cs[..|cs| - 1]);
      KeepsHandles(before, c);
    }
  }

  lemma {:induction false} KeepsHandles(d: Driver, c: Call)
    ensures var e := Apply(d, c);
      multiset(PostedHandles(e.posted)) + multiset(HandlesOf(e.parked))
      == multiset(PostedHandles(d.posted)) + multiset(HandlesOf(d.parked))
         + multiset(if c.ScheduleAt? then [c.handle] else [])
  {
    var e := Apply(d, c);
    match c {
      case ScheduleAt(when, h, now, rearmed) =>
        if when <= now {
          assert PostedHandles(e.posted) == PostedHandles(d.posted) + [h];
        } else {
          HandlesOfInsert(d.parked, Timer(when, h));
        }
      case OnTimerExpired(now, rearmed) =>
        var k := DueCount(d.parked, now);
        assert PostedHandles(e.posted) == PostedHandles(d.posted) + HandlesOf(d.parked[..k]);
        assert HandlesOf(d.parked) == HandlesOf(d.parked[..k]) + HandlesOf(d.parked[k..]);
    }
  }

  lemma {:induction false} HandlesOfInsert(ts: seq<Timer>, t: Timer)
    ensures multiset(HandlesOf(Insert(ts, t))) == multiset(HandlesOf(ts)) + multiset{t.handle}
  {
    if ts == [] || ts[|ts| - 1].when <= t.when {
      assert HandlesOf(ts + [t]) == HandlesOf(ts) + [t.handle];
    } else {
      var init, last := ts[..|ts| - 1], ts[|ts| - 1];
      HandlesOfInsert(init, t);
      assert HandlesOf(Insert(init, t) + [last]) == HandlesOf(Insert(init, t)) + [last.handle];
      assert HandlesOf(ts) == HandlesOf(init) + [last.handle];
    }
  }

  ghost predicate NoneEarly(ps: seq<Posting>, now: int) {
    forall i :: 0 <= i < |ps| ==> ps[i].timer.when <= ps[i].at <= now
  }

  /** After any calls nothing has been posted before its deadline, and the parked entries come out in the order of a
      stable sort by deadline over the whole run: those posted so far are a prefix of it,
      those still parked the rest. */
  lemma {:induction false} PostedInOrder(start: int, cs: seq<Call>)
    requires InTime(start, cs)
    ensures var d := ApplyAll(UNUSED, cs);
      && NoneEarly(d.posted, ReadBy(start, cs))
      && Released(d.posted) + d.parked == InsertAll([], ParkedIn(cs))
  {
    hide NoneEarly, AllBy, Apply, InsertAll, DueCount;
    NoneEarlyYet(start);
    if cs != [] {
      var n := |cs| - 1;
      var d, c, now := ApplyAll(UNUSED, cs[..n]), cs[n], ReadBy(start, cs[..n]);
      PostedInOrder(start, cs[..n]);
      StaysArmedThroughout(UNUSED, start, cs[..n]);
      ReleasedBy(d.posted, now);
      LaterStill(Released(d.posted), now, c.now);
      KeepsOrder(d, c, ParkedIn(cs[..n]));
      PostsNoneEarly(d, now, c);
    }
  }

  lemma {:induction false} NoneEarlyYet(now: int)
    ensures NoneEarly([], now) && InsertAll([], []) == []
  {
  }

  lemma {:induction false} LaterStill(ts: seq<Timer>, now: int, later: int)
    requires AllBy(ts, now) && now <= later
    ensures AllBy(ts, later)
  {
  }

  lemma {:induction false} PostsNoneEarly(d: Driver, now: int, c: Call)
    requires NoneEarly(d.posted, now) && now <= c.now <= c.rearmed
    ensures NoneEarly(Apply(d, c).posted, c.rearmed)
  {
  }

  lemma {:induction false} ReleasedBy(ps: seq<Posting>, now: int)
    requires NoneEarly(ps, now)
    ensures AllBy(Released(ps), now)
  {
    if ps != [] {
      ReleasedBy(ps[..|ps| - 1], now);
    }
  }

  lemma {:induction false} KeepsOrder(d: Driver, c: Call, parked: seq<Timer>)
    requires AllBy(Released(d.posted), c.now) && Released(d.posted) + d.parked == InsertAll([], parked)
    ensures var e := Apply(d, c);
      Released(e.posted) + e.parked
      == InsertAll([], parked + if c.ScheduleAt? && c.now < c.when then [Timer(c.when, c.handle)] else [])
  {
    hide AllBy, Insert, InsertAll, DueCount, Rearmed;
    var e := Apply(d, c);
    var order := Released(d.posted);
    match c {
      case ScheduleAt(when, h, now, rearmed) =>
        if when <= now {
          assert e.posted[..|e.posted| - 1] == d.posted;
          assert parked + [] == parked;
        } else {
          ParkedBehind(order, d.parked, parked, Timer(when, h), now);
        }
      case OnTimerExpired(now, rearmed) =>
        var k := DueCount(d.parked, now);
        ReleasedPostings(d.posted, d.parked[..k], now);
        assert (order + d.parked[..k]) + d.parked[k..] == order + d.parked;
        assert parked + [] == parked;
    }
  }

  lemma {:induction false} ParkedBehind(released: seq<Timer>, ts: seq<Timer>, parked: seq<Timer>, t: Timer, now: int)
    requires AllBy(released, now) && now < t.when && released + ts == InsertAll([], parked)
    ensures released + Insert(ts, t) == InsertAll([], parked + [t])
  {
    InsertBehind(released, ts, t);
    assert (parked + [t])[..|parked|] == parked;
  }

  lemma {:induction false} ReleasedPostings(ps: seq<Posting>, ts: seq<Timer>, now: int)
    ensures Released(ps + Postings(ts, now)) == Released(ps) + ts
  {
    var all := ps + Postings(ts, now);
    if ts == [] {
      assert all == ps;
    } else {
      var n := |ts| - 1;
      ReleasedPostings(ps, ts[..n], now);
      assert all[..|all| - 1] == ps + Postings(ts[..n], now);
      assert ts == ts[..n] + [ts[n]];
    }
  }

  // ---- Liveness under a host that may cut delays short ----

  /** Win32 accepts intervals between 10 ms and 0x7FFFFFFF ms. */
  const USER_TIMER_MINIMUM: nat := 0x0000000A
  const USER_TIMER_MAXIMUM: nat := 0x7FFFFFFF

  /** `std::clamp` to that range. */
  function Win32Interval(delay: nat): nat {
    if delay < USER_TIMER_MINIMUM then USER_TIMER_MINIMUM
    else if USER_TIMER_MAXIMUM < delay then USER_TIMER_MAXIMUM else delay
  }

  ghost function Distance(a: int, b: int): nat {
    if a <= b then b - a else a - b
  }

  /** The interval that Win32 is given is the one nearest to the delay in its range, 10 ms to 0x7FFFFFFF ms; in
      particular it is the delay itself if that is in range. */
  lemma {:induction false} Win32IntervalIsNearest(delay: nat)
    ensures 10 <= Win32Interval(delay) <= 0x7FFF_FFFF
    ensures forall ms :: 10 <= ms <= 0x7FFF_FFFF ==> Distance(Win32Interval(delay), delay) <= Distance(ms, delay)
    ensures 10 <= delay <= 0x7FFF_FFFF ==> Win32Interval(delay) == delay
  {
  }

  /** A host that fires exactly at that interval (1,000,000 clock ticks to a millisecond) does so within a millisecond
      of the earliest deadline if the delay is in range, 10 ms after arming if it is shorter, and still before the
      deadline, after 0x7FFFFFFF ms, if it is longer. */
  lemma {:induction false} Win32FiresNear(d: Driver, now: int)
    requires WellArmed(d, now) && d.host.Armed?
    ensures var deadline, fires := d.parked[0].when, d.host.at + Win32Interval(d.host.delay) * 1_000_000;
      && (10 <= d.host.delay <= 0x7FFF_FFFF ==> deadline <= fires < deadline + 1_000_000)
      && (d.host.delay < 10 ==> deadline <= fires == d.host.at + 10 * 1_000_000)
      && (0x7FFF_FFFF < d.host.delay ==> fires == d.host.at + 0x7FFF_FFFF * 1_000_000 < deadline)
  {
    Win32IntervalIsNearest(d.host.delay);
    var deadline, at, delay, r := d.parked[0].when, d.host.at, d.host.delay, Win32Interval(d.host.delay);
    assert deadline <= at + r * MILLISECOND <==> delay <= r;
    if delay >= 10 {
      var less: nat := delay - 1;
      assert deadline <= at + less * MILLISECOND <==> delay <= less;
    }
    if 0x7FFF_FFFF < delay {
      assert r == 0x7FFF_FFFF by {
        assert Distance(r, delay) <= Distance(0x7FFF_FFFF, delay);
      }
    }
    if delay < 10 {
      assert r == 10 by {
        assert Distance(r, delay) <= Distance(10, delay);
      }
    }
  }

  /** How long a host with longest interval `max` waits at least. */
  function AtLeast(delay: nat, max: nat): nat {
    if delay <= max then delay else max
  }

  /** The host fires only an armed timer, and no earlier than the armed delay or its longest interval. */
  ghost predicate Punctual(d: Driver, cs: seq<Call>, max: nat) {
    cs != [] ==>
      var n := |cs| - 1;
      && Punctual(d, cs[..n], max)
      && (cs[n].OnTimerExpired? ==> FiresOnTime(ApplyAll(d, cs[..n]).host, cs[n].now, max))
  }

  ghost predicate FiresOnTime(host: HostTimer, now: int, max: nat) {
    host.Armed? && host.at + AtLeast(host.delay, max) * MILLISECOND <= now
  }

  /** A host that clamps as Win32 does, and is never early, is punctual for the Win32 maximum. */
  lemma {:induction false} Win32FiresOnTime(host: HostTimer, now: int)
    requires host.Armed? && host.at + Win32Interval(host.delay) * MILLISECOND <= now
    ensures FiresOnTime(host, now, USER_TIMER_MAXIMUM)
  {
    assert AtLeast(host.delay, USER_TIMER_MAXIMUM) <= Win32Interval(host.delay);
  }

  /** The firings so far. */
  function Ticks(cs: seq<Call>): nat {
    if cs == [] then 0 else Ticks(cs[..|cs| - 1]) + if cs[|cs| - 1].OnTimerExpired? then 1 else 0
  }

  /** Something due by `w` is parked. */
  ghost predicate Waiting(d: Driver, w: int) {
    d.parked != [] && d.parked[0].when <= w
  }

  /** The firings, while something due by `w` was parked, that posted nothing. */
  ghost function EmptyTicks(d: Driver, cs: seq<Call>, w: int): nat {
    if cs == [] then 0
    else
      var n := |cs| - 1;
      var before := ApplyAll(d, cs[..n]);
      EmptyTicks(d, cs[..n], w)
      + if cs[n].OnTimerExpired? && Waiting(before, w) && cs[n].now < before.parked[0].when then 1 else 0
  }

  /** The firings, while something due by `w` was parked, that posted something. */
  ghost function PostingTicks(d: Driver, cs: seq<Call>, w: int): nat {
    if cs == [] then 0
    else
      var n := |cs| - 1;
      var before := ApplyAll(d, cs[..n]);
      PostingTicks(d, cs[..n], w)
      + if cs[n].OnTimerExpired? && Waiting(before, w) && before.parked[0].when <= cs[n].now then 1 else 0
  }

  /** The calls that park something due by `w`. */
  function ParkedBy(cs: seq<Call>, w: int): nat {
    if cs == [] then 0
    else
      var c := cs[|cs| - 1];
      ParkedBy(cs[..|cs| - 1], w) + if c.ScheduleAt? && c.now < c.when <= w then 1 else 0
  }

  /** The reading that the host timer's delay counts from. */
  function Since(d: Driver, now: int): int {
    if d.host.Armed? then d.host.at else now
  }

  /** The time that `n` longest intervals take. */
  ghost function Span(n: nat, max: nat): int {
    n * max * MILLISECOND
  }

  lemma {:induction false} SpanGrows(n: nat, max: nat)
    ensures Span(0, max) == 0 && Span(n + 1, max) == Span(n, max) + max * MILLISECOND
  {
    assert (n + 1) * max == n * max + max;
  }

  /** A firing that posts nothing is one that the host cut short, so time has moved on by its longest interval. */
  lemma {:induction false} EmptyTickTakesLong(d: Driver, now: int, c: Call, max: nat)
    requires WellArmed(d, now) && c.OnTimerExpired? && FiresOnTime(d.host, c.now, max)
    requires d.parked != [] && c.now < d.parked[0].when
    ensures d.host.delay > max && Since(d, now) + max * MILLISECOND <= c.now
  {
  }

  /** The firings that post nothing before an entry due by `w` is out use up the time until `w`, one whole host interval
      each, whatever else is scheduled meanwhile. */
  lemma {:induction false} EmptyTicksTakeLong(d: Driver, start: int, cs: seq<Call>, w: int, max: nat)
    requires WellArmed(d, start) && InTime(start, cs) && Punctual(d, cs, max)
    ensures var e := EmptyTicks(d, cs, w); var from := Since(d, start);
      && from + Span(e, max) <= Since(ApplyAll(d, cs), ReadBy(start, cs))
      && (e > 0 ==> from + Span(e, max) < w)
  {
    hide Span, WellArmed, Since, Apply, FiresOnTime;
    SpanGrows(0, max);
    if cs != [] {
      var n := |cs| - 1;
      var before, c, now := ApplyAll(d, cs[..n]), cs[n], ReadBy(start, cs[..n]);
      EmptyTicksTakeLong(d, start, cs[..n], w, max);
      StaysArmedThroughout(d, start, cs[..n]);
      SinceMoves(before, now, c);
      if c.OnTimerExpired? && Waiting(before, w) && c.now < before.parked[0].when {
        EmptyTickTakesLong(before, now, c, max);
        SpanGrows(EmptyTicks(d, cs[..n], w), max);
      }
    }
  }

  lemma {:induction false} SinceMoves(d: Driver, now: int, c: Call)
    requires WellArmed(d, now) && now <= c.now <= c.rearmed
    ensures Since(d, now) <= Since(Apply(d, c), c.rearmed)
    ensures c.OnTimerExpired? ==> c.now <= Since(Apply(d, c), c.rearmed)
  {
  }

  /** Fewer firings than the initial delay holds longest intervals post nothing, and none if the host does not cut that
      delay short. */
  lemma {:induction false} EmptyTicksBounded(d: Driver, start: int, cs: seq<Call>, w: int, max: nat)
    requires WellArmed(d, start) && InTime(start, cs) && Punctual(d, cs, max)
    ensures var e := EmptyTicks(d, cs, w); var delay := DelayUntil(w, Since(d, start));
      && (e > 0 ==> e * max < delay)
      && (delay <= max ==> e == 0)
  {
    hide DelayUntil, WellArmed, InTime, Punctual, EmptyTicks, ApplyAll, ReadBy, Since;
    EmptyTicksTakeLong(d, start, cs, w, max);
    FewerThan(EmptyTicks(d, cs, w), max, Since(d, start), w);
  }

  lemma {:induction false} FewerThan(n: nat, max: nat, from: int, w: int)
    requires n > 0 ==> from + Span(n, max) < w
    ensures n > 0 ==> n * max < DelayUntil(w, from)
    ensures DelayUntil(w, from) <= max ==> n == 0
  {
    if n > 0 {
      var spent := n * max;
      assert !(w <= from + spent * MILLISECOND);
      assert n * max >= 1 * max;
    }
  }

  lemma {:induction false} DueAfterInsert(ts: seq<Timer>, t: Timer, w: int)
    requires Sorted(ts)
    ensures DueCount(Insert(ts, t), w) == DueCount(ts, w) + if t.when <= w then 1 else 0
  {
    InsertLaws(ts, t);
    DueCountIs(ts, w);
    DueCountIs(Insert(ts, t), w);
    CountInsert(ts, t, w);
  }

  /** How many entries are due by `w`, wherever they are. */
  ghost function Count(ts: seq<Timer>, w: int): nat {
    if ts == [] then 0 else Count(ts[..|ts| - 1], w) + if ts[|ts| - 1].when <= w then 1 else 0
  }

  lemma {:induction false} CountInsert(ts: seq<Timer>, t: Timer, w: int)
    ensures Count(Insert(ts, t), w) == Count(ts, w) + if t.when <= w then 1 else 0
  {
    if ts == [] || ts[|ts| - 1].when <= t.when {
      assert (ts + [t])[..|ts|] == ts;
    } else {
      var n := |ts| - 1;
      CountInsert(ts[..n], t, w);
      var r := Insert(ts[..n], t) + [ts[n]];
      assert r[..|r| - 1] == Insert(ts[..n], t);
    }
  }

  lemma {:induction false} DueCountIs(ts: seq<Timer>, w: int)
    requires Sorted(ts)
    ensures DueCount(ts, w) == Count(ts, w)
  {
    if ts != [] {
      var n := |ts| - 1;
      DueCountIs(ts[..n], w);
      DueCountUnique(ts[..n], w, DueCount(ts[..n], w));
      DueCountUnique(ts, w, Count(ts, w));
    }
  }

  lemma {:induction false} DueCountUnique(ts: seq<Timer>, w: int, k: nat)
    requires k <= |ts| && AllBy(ts[..k], w) && (k < |ts| ==> w < ts[k].when)
    ensures DueCount(ts, w) == k
  {
  }

  /** Each firing that posts takes at least one of the entries due by `w` while there are any. */
  lemma {:induction false} PostingTicksBounded(d: Driver, start: int, cs: seq<Call>, w: int)
    requires WellArmed(d, start) && InTime(start, cs)
    ensures PostingTicks(d, cs, w) + DueCount(ApplyAll(d, cs).parked, w) <= DueCount(d.parked, w) + ParkedBy(cs, w)
  {
    if cs != [] {
      var n := |cs| - 1;
      var before, c := ApplyAll(d, cs[..n]), cs[n];
      PostingTicksBounded(d, start, cs[..n], w);
      StaysArmedThroughout(d, start, cs[..n]);
      match c {
        case ScheduleAt(when, h, now, rearmed) =>
          DueAfterInsert(before.parked, Timer(when, h), w);
        case OnTimerExpired(now, rearmed) =>
          DueOfRest(before.parked, DueCount(before.parked, now), w);
      }
    }
  }

  lemma {:induction false} DueOfRest(ts: seq<Timer>, k: nat, w: int)
    requires Sorted(ts) && k <= |ts|
    ensures DueCount(ts[k..], w) == if k <= DueCount(ts, w) then DueCount(ts, w) - k else 0
  {
    var n := DueCount(ts, w);
    DueCountUnique(ts[k..], w, if k <= n then n - k else 0);
  }

  /** Some posting of `t` after a wait. */
  ghost predicate Posted(d: Driver, t: Timer) {
    exists p :: p in d.posted && p.timer == t && p.parked
  }

  lemma {:induction false} LeavesByPosting(d: Driver, cs: seq<Call>, t: Timer)
    requires t in d.parked
    ensures t in ApplyAll(d, cs).parked || Posted(ApplyAll(d, cs), t)
  {
    if cs != [] {
      var n := |cs| - 1;
      var before, c := ApplyAll(d, cs[..n]), cs[n];
      LeavesByPosting(d, cs[..n], t);
      PostedStays(before, c, t);
      if !Posted(before, t) {
        PostedOrStill(before, c, t);
      }
    }
  }

  lemma {:induction false} PostedStays(d: Driver, c: Call, t: Timer)
    ensures Posted(d, t) ==> Posted(Apply(d, c), t)
  {
    if Posted(d, t) {
      var p :| p in d.posted && p.timer == t && p.parked;
      assert p in Apply(d, c).posted;
    }
  }

  lemma {:induction false} PostedOrStill(d: Driver, c: Call, t: Timer)
    requires t in d.parked
    ensures t in Apply(d, c).parked || Posted(Apply(d, c), t)
  {
    match c {
      case ScheduleAt(when, h, now, rearmed) =>
        InsertKeeps(d.parked, Timer(when, h), t);
      case OnTimerExpired(now, rearmed) =>
        var k := DueCount(d.parked, now);
        var i :| 0 <= i < |d.parked| && d.parked[i] == t;
        if i < k {
          var posted := Postings(d.parked[..k], now);
          assert posted[i] == Posting(t, now, true) && posted[i] in posted;
        } else {
          assert d.parked[k..][i - k] == t;
        }
    }
  }

  lemma {:induction false} InsertKeeps(ts: seq<Timer>, x: Timer, t: Timer)
    requires t in ts
    ensures t in Insert(ts, x)
  {
    if ts[|ts| - 1].when > x.when && t != ts[|ts| - 1] {
      assert t in ts[..|ts| - 1];
      InsertKeeps(ts[..|ts| - 1], x, t);
    }
  }

  /** An entry that is parked through a whole run is waited for at every firing, and each firing posts or does not. */
  lemma {:induction false} EveryTickCounts(d: Driver, start: int, cs: seq<Call>, t: Timer)
    requires WellArmed(d, start) && InTime(start, cs) && t in d.parked && !Posted(ApplyAll(d, cs), t)
    ensures EmptyTicks(d, cs, t.when) + PostingTicks(d, cs, t.when) == Ticks(cs)
  {
    if cs != [] {
      var n := |cs| - 1;
      var before := ApplyAll(d, cs[..n]);
      StaysArmedThroughout(d, start, cs[..n]);
      LeavesByPosting(d, cs[..n], t);
      PostedStays(before, cs[n], t);
      EveryTickCounts(d, start, cs[..n], t);
    }
  }

  /** The reading of the last firing. */
  ghost function LastTick(cs: seq<Call>, none: int): int {
    if cs == [] then none
    else if cs[|cs| - 1].OnTimerExpired? then cs[|cs| - 1].now
    else LastTick(cs[..|cs| - 1], none)
  }

  /** What a firing at reading `tick` leaves behind: only later deadlines, and a delay counted from no earlier. */
  ghost predicate TickedAt(d: Driver, tick: int) {
    AllAfter(d.parked, tick) && (d.host.Armed? ==> tick <= d.host.at)
  }

  lemma {:induction false} StaysTicked(d: Driver, tick: int, c: Call)
    requires Sorted(d.parked) && TickedAt(d, tick) && tick <= c.now <= c.rearmed
    ensures TickedAt(Apply(d, c), if c.OnTimerExpired? then c.now else tick)
  {
    if c.ScheduleAt? {
      InsertKeepsAfter(d.parked, Timer(c.when, c.handle), tick);
    } else {
      TicksClean(d, c);
    }
  }

  lemma {:induction false} InsertKeepsAfter(ts: seq<Timer>, x: Timer, tick: int)
    requires AllAfter(ts, tick)
    ensures tick < x.when ==> AllAfter(Insert(ts, x), tick)
  {
    if ts != [] && ts[|ts| - 1].when > x.when {
      InsertKeepsAfter(ts[..|ts| - 1], x, tick);
    }
  }

  /** A firing posts all that is due, so that later deadlines remain. */
  lemma {:induction false} TicksClean(d: Driver, c: Call)
    requires Sorted(d.parked) && c.OnTimerExpired? && c.now <= c.rearmed
    ensures TickedAt(Apply(d, c), c.now)
  {
    var k := DueCount(d.parked, c.now);
    forall i | 0 <= i < |d.parked[k..]| ensures c.now < d.parked[k..][i].when {
      assert d.parked[k].when <= d.parked[k + i].when;
    }
  }

  /** The next firing comes at a later reading: a positive delay costs a millisecond, and a zero delay means that a
      deadline, hence a later time, has come. */
  lemma {:induction false} TicksLater(d: Driver, now: int, tick: int, c: Call, max: nat)
    requires WellArmed(d, now) && TickedAt(d, tick) && max > 0
    requires c.OnTimerExpired? && now <= c.now && FiresOnTime(d.host, c.now, max)
    ensures tick < c.now
  {
    if d.host.delay == 0 {
      assert d.parked[0].when <= d.host.at + 0 * MILLISECOND;
    } else {
      assert AtLeast(d.host.delay, max) >= 1;
    }
  }

  /** The readings of successive firings increase, so there are no more firings than clock ticks. */
  lemma {:induction false} TicksTakeTime(d: Driver, start: int, cs: seq<Call>, max: nat)
    requires WellArmed(d, start) && InTime(start, cs) && Punctual(d, cs, max) && max > 0
    ensures var tick := LastTick(cs, start - 1);
      && start - 1 + Ticks(cs) <= tick <= Max(start - 1, ReadBy(start, cs))
      && (Ticks(cs) > 0 ==> TickedAt(ApplyAll(d, cs), tick))
  {
    hide TickedAt, FiresOnTime, WellArmed, Apply;
    if cs != [] {
      var n := |cs| - 1;
      var before, c, now := ApplyAll(d, cs[..n]), cs[n], ReadBy(start, cs[..n]);
      var tick := LastTick(cs[..n], start - 1);
      TicksTakeTime(d, start, cs[..n], max);
      StaysArmedThroughout(d, start, cs[..n]);
      ArmedIsSorted(before, now);
      if Ticks(cs[..n]) > 0 {
        StaysTicked(before, tick, c);
        if c.OnTimerExpired? {
          TicksLater(before, now, tick, c, max);
        }
      } else if c.OnTimerExpired? {
        NoTickYet(cs[..n], start - 1);
        TicksClean(before, c);
      }
    }
  }

  lemma {:induction false} ArmedIsSorted(d: Driver, now: int)
    requires WellArmed(d, now)
    ensures Sorted(d.parked)
  {
  }

  lemma {:induction false} NoTickYet(cs: seq<Call>, none: int)
    requires Ticks(cs) == 0
    ensures LastTick(cs, none) == none
  {
    if cs != [] {
      NoTickYet(cs[..|cs| - 1], none);
    }
  }

  /** Every parked entry is posted in the end, whatever is scheduled meanwhile and however short the host cuts its
      delays: at the latest when the host has fired more often than there are clock ticks until the deadline. */
  lemma {:induction false} PostedInTheEnd(d: Driver, start: int, cs: seq<Call>, t: Timer, max: nat)
    requires WellArmed(d, start) && InTime(start, cs) && Punctual(d, cs, max) && max > 0 && t in d.parked
    requires Ticks(cs) > 0 && Ticks(cs) > t.when - start
    ensures Posted(ApplyAll(d, cs), t)
  {
    TicksTakeTime(d, start, cs, max);
    LeavesByPosting(d, cs, t);
  }

  /** It takes no more firings than one for every entry that may come out first, and one for every longest host interval
      until the deadline. */
  lemma {:induction false} PostedSoon(d: Driver, start: int, cs: seq<Call>, t: Timer, max: nat)
    requires WellArmed(d, start) && InTime(start, cs) && Punctual(d, cs, max) && t in d.parked
    requires Ticks(cs) >= DueCount(d.parked, t.when) + ParkedBy(cs, t.when)
    requires (Ticks(cs) - DueCount(d.parked, t.when) - ParkedBy(cs, t.when)) * max
             >= DelayUntil(t.when, Since(d, start))
    ensures Posted(ApplyAll(d, cs), t)
  {
    hide DelayUntil, WellArmed, InTime, Punctual, EmptyTicks, PostingTicks, ApplyAll, ReadBy, Since, Ticks, ParkedBy,
      DueCount;
    if !Posted(ApplyAll(d, cs), t) {
      var spare := Ticks(cs) - DueCount(d.parked, t.when) - ParkedBy(cs, t.when);
      var e := EmptyTicks(d, cs, t.when);
      EveryTickCounts(d, start, cs, t);
      StaysArmedThroughout(d, start, cs);
      LeavesByPosting(d, cs, t);
      StillDue(ApplyAll(d, cs).parked, t);
      PostingTicksBounded(d, start, cs, t.when);
      EmptyTicksBounded(d, start, cs, t.when, max);
      TimesMonotone(spare, e, max);
    }
  }

  lemma {:induction false} StillDue(ts: seq<Timer>, t: Timer)
    requires Sorted(ts) && t in ts
    ensures DueCount(ts, t.when) > 0
  {
  }

  lemma {:induction false} TimesMonotone(a: nat, b: nat, c: nat)
    requires a <= b
    ensures a * c <= b * c
  {
  }

  // ---- The driver ----

  class PumpTimerDriver {
    const clock: Clock
    const timers: TimerQueue
    /** What has gone through the post seam. */
    var posted: seq<Posting>
    /** What the arm and cancel seams have been told last. */
    var host: HostTimer
    /** Every call so far. */
    ghost var calls: seq<Call>

    ghost function View(): Driver
      reads this, timers
    {
      Driver(timers.Contents(), posted, host)
    }

    ghost predicate Valid()
      reads this, timers, timers.entries, clock
    {
      timers.Valid() && Records(View(), calls, clock.now)
    }

    /** `d` is what the calls so far, made while the clock went up to `now`, have led to. */
    static ghost predicate Records(d: Driver, cs: seq<Call>, now: int) {
      d == ApplyAll(UNUSED, cs) && InTime(0, cs) && ReadBy(0, cs) <= now
    }

    constructor (clock: Clock)
      requires clock.now >= 0
      ensures Valid() && calls == [] && this.clock == clock && fresh(timers) && fresh(timers.entries)
    {
      this.clock, posted, host, calls := clock, [], Idle, [];
      timers := new TimerQueue();
    }

    /** Points the host timer at the earliest deadline, or cancels it. */
    method Rearm()
      requires timers.Valid()
      modifies this`host, clock
      ensures old(clock.now) <= clock.now && host == Rearmed(timers.Contents(), clock.now)
    {
      match timers.NextDeadline() {
        case None => host := Idle;
        case Some(deadline) =>
          var now := clock.Now();
          host := Armed(now, DelayUntil(deadline, now));
      }
    }

    /** A deadline already due is posted at once; any other handle is parked and the timer re-armed. */
    method ScheduleAt(when: int, h: Handle) returns (ghost now: int, ghost rearmed: int)
      requires Valid()
      modifies this, timers, timers.entries, clock
      ensures Valid() && (timers.entries == old(timers.entries) || fresh(timers.entries))
      ensures old(clock.now) <= now <= rearmed == clock.now
      ensures calls == old(calls) + [Call.ScheduleAt(when, h, now, rearmed)]
    {
      hide TimerQueue.Valid, TimerQueue.Contents, Insert, DelayUntil, Records;
      var reading := clock.Now();
      now := reading;
      ghost var d := View();
      if when <= reading {
        posted := posted + [Posting(Timer(when, h), reading, false)];
      } else {
        timers.Schedule(when, h);
        Rearm();
      }
      rearmed := clock.now;
      ghost var c := Call.ScheduleAt(when, h, now, rearmed);
      assert View() == Apply(d, c);
      OneMoreCall(d, calls, old(clock.now), c);
      calls := calls + [c];
    }

    static lemma {:induction false} IsExpired(d: Driver, now: int, rearmed: int, after: Driver)
      requires var k := DueCount(d.parked, now);
        after.posted == d.posted + Postings(d.parked[..k], now) && after.parked == d.parked[k..]
      requires after.host == Rearmed(after.parked, rearmed)
      ensures after == Apply(d, Call.OnTimerExpired(now, rearmed))
    {
    }

    static lemma {:induction false} OneMoreCall(d: Driver, cs: seq<Call>, now: int, c: Call)
      requires Records(d, cs, now) && now <= c.now <= c.rearmed
      ensures Records(Apply(d, c), cs + [c], c.rearmed)
    {
      assert (cs + [c])[..|cs|] == cs;
    }

    /** Posts what is due at `now`, in order. */
    method PostDue(now: int)
      requires timers.Valid()
      modifies this`posted, timers, timers.entries
      ensures timers.Valid() && timers.entries == old(timers.entries)
      ensures var ts := old(timers.Contents()); var k := DueCount(ts, now);
        posted == old(posted) + Postings(ts[..k], now) && timers.Contents() == ts[k..]
    {
      hide TimerQueue.Valid, TimerQueue.Contents, DueCount, Postings, Popped;
      ghost var ts, k := timers.Contents(), 0;
      PostNothing(ts, now);
      var due := timers.PopDue(now);
      PopOne(ts, now, 0, due, timers.Contents());
      while due.Some?
        invariant timers.Valid() && timers.entries == old(timers.entries)
        invariant k <= |ts| && Popped(ts, now, k, due, timers.Contents())
        invariant posted == old(posted) + Postings(ts[..k], now)
        decreases |ts| - k
      {
        PostOne(ts, now, k, due, timers.Contents());
        posted := posted + [Posting(due.value, now, true)];
        k := k + 1;
        due := timers.PopDue(now);
        PopOne(ts, now, k, due, timers.Contents());
      }
      PostAll(ts, now, k, due, timers.Contents());
    }

    /** After `k` postings, `due` is what `PopDue` has just returned and `rest` what it has left. */
    static ghost predicate Popped(ts: seq<Timer>, now: int, k: nat, due: Option<Timer>, rest: seq<Timer>) {
      k <= DueCount(ts, now)
      && if due.Some? then k < DueCount(ts, now) && due.value == ts[k] && rest == ts[k + 1..]
         else k == DueCount(ts, now) && rest == ts[k..]
    }

    static lemma {:induction false} PopOne(ts: seq<Timer>, now: int, k: nat, due: Option<Timer>, rest: seq<Timer>)
      requires k <= DueCount(ts, now)
      requires if ts[k..] != [] && ts[k..][0].when <= now then due == Some(ts[k..][0]) && rest == ts[k..][1..]
               else due == None && rest == ts[k..]
      ensures Popped(ts, now, k, due, rest)
    {
    }

    static lemma {:induction false} PostNothing(ts: seq<Timer>, now: int)
      ensures Postings(ts[..0], now) == [] && ts[0..] == ts
    {
    }

    static lemma {:induction false} PostOne(ts: seq<Timer>, now: int, k: nat, due: Option<Timer>, rest: seq<Timer>)
      requires Popped(ts, now, k, due, rest) && due.Some?
      ensures k + 1 <= DueCount(ts, now) <= |ts| && rest == ts[k + 1..]
      ensures Postings(ts[..k + 1], now) == Postings(ts[..k], now) + [Posting(due.value, now, true)]
    {
      assert ts[..k + 1] == ts[..k] + [ts[k]];
    }

    static lemma {:induction false} PostAll(ts: seq<Timer>, now: int, k: nat, due: Option<Timer>, rest: seq<Timer>)
      requires Popped(ts, now, k, due, rest) && due.None?
      ensures k == DueCount(ts, now) && rest == ts[k..]
    {
    }

    /** The host timer fired: post what is due at one reading, then re-arm. */
    method OnTimerExpired() returns (ghost now: int, ghost rearmed: int)
      requires Valid()
      modifies this, timers, timers.entries, clock
      ensures Valid() && timers.entries == old(timers.entries)
      ensures old(clock.now) <= now <= rearmed == clock.now
      ensures calls == old(calls) + [Call.OnTimerExpired(now, rearmed)]
    {
      hide TimerQueue.Valid, TimerQueue.Contents, DelayUntil, DueCount, Postings, Rearmed, Apply, Records;
      var reading := clock.Now();
      now := reading;
      ghost var d := View();
      PostDue(reading);
      Rearm();
      rearmed := clock.now;
      ghost var c := Call.OnTimerExpired(now, rearmed);
      IsExpired(d, now, rearmed, View());
      OneMoreCall(d, calls, old(clock.now), c);
      calls := calls + [c];
    }

    /** The entries not yet handed back to the pump: all handles handed over less those posted. */
    function PendingCount(): (n: nat)
      requires Valid()
      reads this, timers, timers.entries, clock
      ensures n + |posted| == |HandedIn(calls)|
    {
      PendingIsUnposted();
      timers.Size()
    }

    lemma {:induction false} PendingIsUnposted()
      requires Valid()
      ensures |timers.Contents()| + |posted| == |HandedIn(calls)|
    {
      ParkedOrPosted(View(), calls);
      assert |multiset(PostedHandles(posted))| == |posted|;
      assert |multiset(HandlesOf(timers.Contents()))| == |timers.Contents()|;
      assert |multiset(HandedIn(calls))| == |HandedIn(calls)|;
    }
  }
}
