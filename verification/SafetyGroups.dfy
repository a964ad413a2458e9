/** The safety invariant across the steps that touch a combinator: fork, report, and hand-over with teardown. */
module SafetyGroups {
  import opened Wrappers
  import opened Programs
  import opened Meaning
  import opened Timers
  import opened Runtime
  import opened Safety
  import opened SafetySteps

  // ---- Counting the open slots of a join ----

  lemma {:induction false} MissingUpdate(slots: seq<Option<Done>>, i: nat, d: Done)
    requires i < |slots| && slots[i].None?
    ensures Missing(slots) > 0 && Missing(slots[i := Some(d)]) == Missing(slots) - 1
  {
    var n := |slots| - 1;
    if i < n {
      MissingUpdate(slots[..n], i, d);
      assert slots[i := Some(d)][..n] == slots[..n][i := Some(d)];
    } else {
      assert slots[i := Some(d)][..n] == slots[..n];
    }
  }

  lemma {:induction false} MissingNone(slots: seq<Option<Done>>)
    ensures Missing(slots) == 0 <==> Engaged(slots)
  {
    if slots != [] {
      var n := |slots| - 1;
      MissingNone(slots[..n]);
      assert slots == slots[..n] + [slots[n]];
    }
  }

  lemma {:induction false} MissingFresh(n: nat)
    ensures Missing(seq(n, i => None)) == n
  {
    if n > 0 {
      var slots: seq<Option<Done>> := seq(n, i => None);
      assert slots[..n - 1] == seq(n - 1, i => None);
      MissingFresh(n - 1);
    }
  }

  // ---- A wrapper reports ----

  ghost predicate Reports(s: Store, h: Handle, c: Handle, g: nat, i: nat) {
    && h < |s.frames| && c < |s.frames| && g < |s.groups| && s.frames[h].code == WrapAwaiting(c, g, i)
    && FrameOk(s, Some(h), h) && FrameOk(s, Some(h), c) && GroupOk(s, g)
  }

  lemma {:induction false} WrapperDoneWorks(s: Store, h: Handle, c: Handle, g: nat, i: nat, now: int)
    requires Reports(s, h, c, g, i)
    ensures IsFinished(s, c) && CanNotify(s, g, i)
    ensures s.groups[g].Join? || s.groups[g].winner.None? ==> ParentWaits(s, g)
    ensures i < |s.groups[g].Children()| && h == s.groups[g].first + i
  {
    if s.groups[g].Join? {
      MissingUpdate(s.groups[g].slots, i, Done(Value(Unit), now));
    }
  }

  /** The store after a report: `c` is freed, the group is updated, `h` stands at its final suspend point (a join)
      or is gone (a race). */
  ghost predicate Reported(s: Store, s': Store, h: Handle, c: Handle, g: nat, i: nat, d: Done)
    requires Reports(s, h, c, g, i)
  {
    && s'.fault == s.fault && s'.aborted == s.aborted && |s'.frames| == |s.frames| && |s'.groups| == |s.groups|
    && (forall k {:trigger s'.frames[k]} :: 0 <= k < |s.frames| && k != h && k != c ==> s'.frames[k] == s.frames[k])
    && (forall j {:trigger s'.groups[j]} :: 0 <= j < |s.groups| && j != g ==> s'.groups[j] == s.groups[j])
    && s'.frames[c] == s.frames[c].(code := Destroyed(d.o))
    && s'.frames[h].owner == s.frames[h].owner && s'.frames[h].continuation == s.frames[h].continuation
    && s'.frames[h].origin == s.frames[h].origin && s'.frames[h].since == d.at
    && (if s.groups[g].Join? then s'.frames[h].code.Finished? else s'.frames[h].code.Destroyed?)
    && s'.groups[g] == OnChildDone(s.groups[g], i, d).0
  }

  lemma {:induction false} WrapperDoneStore(s: Store, h: Handle, c: Handle, g: nat, i: nat, now: int)
    requires Reports(s, h, c, g, i)
    ensures var m := WrapperDone(s, h, c, g, i, now);
      Reported(s, m.store, h, c, g, i, Done(s.frames[c].code.o, now)) && m.run == None && m.sleeps == []
      && m.posts == (if OnChildDone(s.groups[g], i, Done(s.frames[c].code.o, now)).1 then [s.groups[g].parent] else [])
  {
    WrapperDoneWorks(s, h, c, g, i, now);
  }

  lemma {:induction false} ReportSelf(s: Store, s': Store, h: Handle, c: Handle, g: nat, i: nat, d: Done)
    requires Reports(s, h, c, g, i) && Reported(s, s', h, c, g, i, d)
    ensures FrameOk(s', None, h) && FrameOk(s', None, c)
  {
  }

  lemma {:induction false} ReportCode(s: Store, s': Store, h: Handle, c: Handle, g: nat, i: nat, d: Done, k: Handle)
    requires Reports(s, h, c, g, i) && Reported(s, s', h, c, g, i, d)
    requires k < |s.frames| && k != h && k != c && FrameOk(s, Some(h), k)
    ensures CodeOk(s', None, k)
  {
    assert s'.frames[k] == s.frames[k];
    match s.frames[k].code
    case Wrap(_, _, _) =>
    case Awaiting(_, _) =>
    case WrapAwaiting(_, _, _) =>
    case InGroup(_, _) =>
    case _ =>
  }

  lemma {:induction false} ReportOwner(s: Store, s': Store, h: Handle, c: Handle, g: nat, i: nat, d: Done, k: Handle)
    requires Reports(s, h, c, g, i) && Reported(s, s', h, c, g, i, d)
    requires k < |s.frames| && k != h && k != c && FrameOk(s, Some(h), k) && !s.frames[k].code.Destroyed?
    ensures OwnerOk(s', k)
  {
    assert s'.frames[k] == s.frames[k];
    match s.frames[k].owner
    case Awaiter(_) =>
    case Argument(_) =>
    case Wrapped(_, _) =>
    case _ =>
  }

  lemma {:induction false} ReportGroup(s: Store, s': Store, h: Handle, c: Handle, g: nat, i: nat, d: Done, g': nat)
    requires Reports(s, h, c, g, i) && Reported(s, s', h, c, g, i, d)
    requires g' < |s.groups| && GroupOk(s, g')
    ensures GroupOk(s', g')
  {
    if g' != g {
      GroupStays(s, s', g');
    } else {
      ReportOwnGroup(s, s', h, c, g, i, d);
    }
  }

  lemma {:induction false} ReportOwnGroup(s: Store, s': Store, h: Handle, c: Handle, g: nat, i: nat, d: Done)
    requires Reports(s, h, c, g, i) && Reported(s, s', h, c, g, i, d) && GroupOk(s, g)
    ensures GroupOk(s', g)
  {
    if s.groups[g].Join? {
      MissingUpdate(s.groups[g].slots, i, d);
      forall j | 0 <= j < |s.groups[g].Children()| && ParentWaits(s', g) ensures WrapperOk(s', g, j) {
        assert WrapperOk(s, g, j);
      }
    }
  }

  lemma {:induction false} ReportQueues(s: Store, s': Store, h: Handle, c: Handle, g: nat, i: nat, d: Done,
                                        ready: multiset<Handle>, timers: multiset<Timer>)
    requires Reports(s, h, c, g, i) && Reported(s, s', h, c, g, i, d)
    requires FramesOk(s, Some(h)) && ReadyOk(s, Some(h), ready, timers) && TimersOk(s, Some(h), timers)
    ensures ReadyOk(
      s', None, ready + if OnChildDone(s.groups[g], i, d).1 then multiset{s.groups[g].parent} else multiset{}, timers)
    ensures TimersOk(s', None, timers)
  {
    forall x: Handle ensures Runnable(s', x)
      == ((Runnable(s, x) && x != h) || (OnChildDone(s.groups[g], i, d).1 && x == s.groups[g].parent))
    {
      if x < |s.frames| {
        assert FrameOk(s, Some(h), x);
        ReportRunnable(s, s', h, c, g, i, d, x);
      }
    }
    hide Runnable, FrameOk;
  }

  lemma {:induction false} ReportRunnable(s: Store, s': Store, h: Handle, c: Handle, g: nat, i: nat, d: Done, x: Handle)
    requires Reports(s, h, c, g, i) && Reported(s, s', h, c, g, i, d) && x < |s.frames| && FrameOk(s, Some(h), x)
    ensures Runnable(s', x)
      == ((Runnable(s, x) && x != h) || (OnChildDone(s.groups[g], i, d).1 && x == s.groups[g].parent))
  {
    if s.groups[g].Join? {
      MissingUpdate(s.groups[g].slots, i, d);
    }
  }

  lemma {:induction false} WrapperDoneSafe(s: Store, h: Handle, c: Handle, g: nat, i: nat, now: int,
                                           ready: multiset<Handle>, timers: multiset<Timer>)
    requires Inv(s, Some(h), ready, timers) && s.frames[h].code == WrapAwaiting(c, g, i)
    ensures Safe(WrapperDone(s, h, c, g, i, now), ready, timers)
  {
    assert FrameOk(s, Some(h), h);
    assert FrameOk(s, Some(h), c);
    assert GroupOk(s, g);
    assert Reports(s, h, c, g, i);
    WrapperDoneStore(s, h, c, g, i, now);
    var m, d := WrapperDone(s, h, c, g, i, now), Done(s.frames[c].code.o, now);
    var s' := m.store;
    ReportSelf(s, s', h, c, g, i, d);
    forall k | 0 <= k < |s'.frames| ensures FrameOk(s', None, k) {
      if k != h && k != c {
        assert FrameOk(s, Some(h), k);
        ReportCode(s, s', h, c, g, i, d, k);
        if !s.frames[k].code.Destroyed? {
          ReportOwner(s, s', h, c, g, i, d, k);
        }
      }
    }
    forall g' | 0 <= g' < |s'.groups| ensures GroupOk(s', g') {
      assert GroupOk(s, g');
      ReportGroup(s, s', h, c, g, i, d, g');
    }
    ReportQueues(s, s', h, c, g, i, d, ready, timers);
  }

  // ---- A combinator hands over its result ----

  ghost predicate Joins(s: Store, h: Handle, g: nat, b: Body) {
    && h < |s.frames| && g < |s.groups| && s.frames[h].code == InGroup(g, b)
    && RunOk(s, Some(h)) && FrameOk(s, Some(h), h) && GroupOk(s, g)
  }

  /** When the parent of a `WhenAll` is resumed, every wrapper stands at its final suspend point, owned by the vector,
      no queue holds its handle, and every slot is engaged: destroying the awaitable is safe. */
  lemma {:induction false} JoinTeardown(s: Store, h: Handle, g: nat, ready: multiset<Handle>, timers: multiset<Timer>)
    requires Inv(s, Some(h), ready, timers) && s.frames[h].code.InGroup? && s.frames[h].code.group == g
    ensures g < |s.groups|
    ensures s.groups[g].Join? ==>
      && Engaged(s.groups[g].slots) && s.groups[g].first + |s.groups[g].slots| <= |s.frames|
      && forall k {:trigger s.frames[k]} :: s.groups[g].first <= k < s.groups[g].first + |s.groups[g].slots| ==>
           && s.frames[k].code.Finished? && s.frames[k].owner == Wrapped(g, k - s.groups[g].first)
           && ready[k] == 0 && forall w {:trigger Timer(w, k)} :: timers[Timer(w, k)] == 0
  {
    assert FrameOk(s, Some(h), h) && GroupOk(s, g);
    if s.groups[g].Join? {
      WrappersStand(s, h, g, s.frames[h].code.b);
      forall k | s.groups[g].first <= k < s.groups[g].first + |s.groups[g].slots|
        ensures s.frames[k].code.Finished? && ready[k] == 0
      {
        assert s.frames[k].owner == Wrapped(g, k - s.groups[g].first);
        assert ready[k] == Wanted(s, Some(h), timers, k);
      }
    }
  }

  lemma {:induction false} WrappersStand(s: Store, h: Handle, g: nat, b: Body)
    requires FramesOk(s, Some(h)) && Joins(s, h, g, b) && s.groups[g].Join?
    ensures Engaged(s.groups[g].slots) && AllFinished(s.frames, s.groups[g].first, |s.groups[g].slots|)
    ensures forall k :: s.groups[g].first <= k < s.groups[g].first + |s.groups[g].slots| ==>
      s.frames[k].owner == Wrapped(g, k - s.groups[g].first)
  {
    MissingNone(s.groups[g].slots);
    var first := s.groups[g].first;
    assert first + |s.groups[g].slots| <= |s.frames|;
    forall k | first <= k < first + |s.groups[g].slots|
      ensures s.frames[k].code.Finished? && s.frames[k].owner == Wrapped(g, k - first)
    {
      assert WrapperOk(s, g, k - first);
      assert FrameOk(s, Some(h), k);
    }
  }

  /** The store once the parent has its result: it executes again; the wrappers of a join are freed. */
  ghost predicate HandedOver(s: Store, s': Store, h: Handle, g: nat)
    requires h < |s.frames| && g < |s.groups|
  {
    var first, n := s.groups[g].first, |s.groups[g].Children()|;
    && s'.fault == s.fault && s'.aborted == s.aborted && |s'.frames| == |s.frames| && s'.groups == s.groups
    && s'.frames[h].code.Start?
    && s'.frames[h].owner == s.frames[h].owner && s'.frames[h].continuation == s.frames[h].continuation
    && forall k {:trigger s'.frames[k]} :: 0 <= k < |s.frames| && k != h ==>
      if s.groups[g].Join? && first <= k < first + n then s'.frames[k].code.Destroyed? else s'.frames[k] == s.frames[k]
  }

  ghost predicate WrappersDone(s: Store, g: nat)
    requires g < |s.groups|
  {
    var first, n := s.groups[g].first, |s.groups[g].Children()|;
    s.groups[g].Join? ==> forall k {:trigger s.frames[k]} :: first <= k < first + n ==>
      k < |s.frames| && s.frames[k].code.Finished? && s.frames[k].owner == Wrapped(g, k - first)
  }

  lemma {:induction false} GroupDoneStore(s: Store, h: Handle, g: nat, b: Body)
    requires FramesOk(s, Some(h)) && Joins(s, h, g, b)
    ensures b.All? || b.Any?
    ensures var m := GroupDone(s, h, g, b);
      HandedOver(s, m.store, h, g) && m.run == Some(h) && m.posts == [] && m.sleeps == []
    ensures WrappersDone(s, g)
  {
    if s.groups[g].Join? {
      WrappersStand(s, h, g, b);
    }
  }

  lemma {:induction false} HandoverCode(s: Store, s': Store, h: Handle, g: nat, b: Body, k: Handle)
    requires Joins(s, h, g, b) && HandedOver(s, s', h, g) && WrappersDone(s, g)
    requires k < |s.frames| && k != h && s'.frames[k] == s.frames[k] && FrameOk(s, Some(h), k)
    ensures CodeOk(s', Some(h), k)
  {
  }

  lemma {:induction false} HandoverOwner(s: Store, s': Store, h: Handle, g: nat, b: Body, k: Handle)
    requires Joins(s, h, g, b) && HandedOver(s, s', h, g) && WrappersDone(s, g)
    requires k < |s.frames| && k != h && s'.frames[k] == s.frames[k] && FrameOk(s, Some(h), k)
    requires !s.frames[k].code.Destroyed?
    ensures OwnerOk(s', k)
  {
  }

  lemma {:induction false} HandoverFrame(s: Store, s': Store, h: Handle, g: nat, b: Body, k: Handle)
    requires Joins(s, h, g, b) && HandedOver(s, s', h, g) && WrappersDone(s, g)
    requires k < |s.frames| && FrameOk(s, Some(h), k)
    ensures FrameOk(s', Some(h), k)
  {
    if k != h && s'.frames[k] == s.frames[k] {
      HandoverCode(s, s', h, g, b, k);
      if !s.frames[k].code.Destroyed? {
        HandoverOwner(s, s', h, g, b, k);
      }
    }
  }

  lemma {:induction false} HandoverGroup(s: Store, s': Store, h: Handle, g: nat, b: Body, g': nat)
    requires Joins(s, h, g, b) && HandedOver(s, s', h, g) && WrappersDone(s, g)
    requires g' < |s.groups| && GroupOk(s, g')
    ensures GroupOk(s', g')
  {
    if s.groups[g'].Join? || s.groups[g'].winner.None? {
      GroupStays(s, s', g');
    }
  }

  lemma {:induction false} HandoverQueues(s: Store, s': Store, h: Handle, g: nat, b: Body, ready: multiset<Handle>,
                                          timers: multiset<Timer>)
    requires Joins(s, h, g, b) && HandedOver(s, s', h, g) && WrappersDone(s, g)
    requires ReadyOk(s, Some(h), ready, timers) && TimersOk(s, Some(h), timers)
    ensures ReadyOk(s', Some(h), ready, timers) && TimersOk(s', Some(h), timers)
  {
  }

  lemma {:induction false} GroupDoneSafe(s: Store, h: Handle, g: nat, b: Body, ready: multiset<Handle>,
                                         timers: multiset<Timer>)
    requires Inv(s, Some(h), ready, timers) && s.frames[h].code == InGroup(g, b)
    ensures (b.All? || b.Any?) && Safe(GroupDone(s, h, g, b), ready, timers)
  {
    assert FrameOk(s, Some(h), h);
    assert GroupOk(s, g);
    GroupDoneStore(s, h, g, b);
    var m := GroupDone(s, h, g, b);
    var s' := m.store;
    forall k | 0 <= k < |s'.frames| ensures FrameOk(s', m.run, k) {
      assert FrameOk(s, Some(h), k);
      HandoverFrame(s, s', h, g, b, k);
    }
    forall g' | 0 <= g' < |s'.groups| ensures GroupOk(s', g') {
      assert GroupOk(s, g');
      HandoverGroup(s, s', h, g, b, g');
    }
    HandoverQueues(s, s', h, g, b, ready, timers);
  }

  // ---- A combinator starts its children ----

  lemma {:induction false} HandlesOnce(first: Handle, n: nat, x: Handle)
    ensures multiset(Handles(first, n))[x] == if first <= x < first + n then 1 else 0
  {
    if n > 0 {
      HandlesOnce(first, n - 1, x);
      assert Handles(first, n) == Handles(first, n - 1) + [first + n - 1];
    }
  }

  /** The store after a fork: `n` wrappers, then their `n` tasks, and a group that waits for them. */
  ghost predicate Forked(s: Store, s': Store, h: Handle, b: Body, now: int)
    requires h < |s.frames| && (b.All? || b.Any?)
  {
    var first, n, g := |s.frames|, |b.children|, |s.groups|;
    && s'.fault == s.fault && s'.aborted == s.aborted
    && |s'.frames| == first + n + n && |s'.groups| == g + 1
    && (forall k {:trigger s'.frames[k]} :: 0 <= k < first && k != h ==> s'.frames[k] == s.frames[k])
    && s'.frames[h] == Suspend(s.frames[h], InGroup(g, b), now)
    && (forall k {:trigger s'.frames[k]} :: first <= k < first + n ==>
          s'.frames[k] == Frame(Wrap(n + k, g, k - first), [], None, if b.All? then Wrapped(g, k - first) else Itself,
                                now, None))
    && (forall k {:trigger s'.frames[k]} :: first + n <= k < first + n + n ==>
          s'.frames[k] == TaskFrame(b.children[k - first - n], s.frames[h].env, None, Argument(k - n), now))
    && (forall j {:trigger s'.groups[j]} :: 0 <= j < g ==> s'.groups[j] == s.groups[j])
    && s'.groups[g] == NewGroup(h, first, b, s.frames[h].env, now)
  }

  lemma {:induction false} ForkStore(s: Store, h: Handle, b: Body, now: int)
    requires h < |s.frames| && (b.All? || b.Any?)
    ensures Forked(s, Fork(s, h, b, now).store, h, b, now) && Fork(s, h, b, now).run == None
  {
  }

  ghost predicate Forks(s: Store, h: Handle, b: Body) {
    && h < |s.frames| && s.frames[h].code == Start(b) && (b.All? || b.Any?) && b.children != []
    && RunOk(s, Some(h)) && FrameOk(s, Some(h), h)
  }

  lemma {:induction false} ForkNewFrame(s: Store, s': Store, h: Handle, b: Body, now: int, k: Handle)
    requires Forks(s, h, b) && Forked(s, s', h, b, now)
    requires k == h || |s.frames| <= k < |s'.frames|
    ensures FrameOk(s', None, k)
  {
    var first, n, g := |s.frames|, |b.children|, |s.groups|;
    assert s'.groups[g].Children() == b.children;
    if k == h {
    } else if k < first + n {
      assert s'.frames[n + k].code.Start?;
    } else {
      assert s'.frames[k - n].code.Wrap?;
    }
  }

  lemma {:induction false} ForkOldFrame(s: Store, s': Store, h: Handle, b: Body, now: int, k: Handle)
    requires Forks(s, h, b) && Forked(s, s', h, b, now)
    requires k < |s.frames| && k != h && FrameOk(s, Some(h), k)
    ensures FrameOk(s', None, k)
  {
    assert s'.frames[k] == s.frames[k];
  }

  lemma {:induction false} ForkGroup(s: Store, s': Store, h: Handle, b: Body, now: int, g': nat)
    requires Forks(s, h, b) && Forked(s, s', h, b, now) && g' <= |s.groups|
    requires g' < |s.groups| ==> GroupOk(s, g')
    ensures GroupOk(s', g')
  {
    if g' < |s.groups| {
      GroupStays(s, s', g');
    } else {
      assert s'.groups[g'].Children() == b.children;
      MissingFresh(|b.children|);
    }
  }

  lemma {:induction false} ForkQueues(s: Store, s': Store, h: Handle, b: Body, now: int, ready: multiset<Handle>,
                                      timers: multiset<Timer>)
    requires Forks(s, h, b) && Forked(s, s', h, b, now)
    requires FramesOk(s, Some(h)) && ReadyOk(s, Some(h), ready, timers) && TimersOk(s, Some(h), timers)
    ensures ReadyOk(s', None, ready + multiset(Handles(|s.frames|, |b.children|)), timers) && TimersOk(s', None, timers)
  {
    forall x: Handle ensures multiset(Handles(|s.frames|, |b.children|))[x]
      == if |s.frames| <= x < |s.frames| + |b.children| then 1 else 0
    {
      HandlesOnce(|s.frames|, |b.children|, x);
    }
    forall x: Handle ensures Runnable(s', x)
      == ((Runnable(s, x) && x != h) || |s.frames| <= x < |s.frames| + |b.children|)
    {
      if x < |s.frames| {
        assert FrameOk(s, Some(h), x);
      }
    }
  }

  lemma {:induction false} ForkSafe(s: Store, h: Handle, b: Body, now: int, ready: multiset<Handle>,
                                    timers: multiset<Timer>)
    requires Inv(s, Some(h), ready, timers)
    requires (b.All? || b.Any?) && b.children != [] && s.frames[h].code == Start(b)
    ensures Safe(Fork(s, h, b, now), ready, timers)
  {
    assert FrameOk(s, Some(h), h);
    ForkStore(s, h, b, now);
    var s' := Fork(s, h, b, now).store;
    forall k | 0 <= k < |s'.frames| ensures FrameOk(s', None, k) {
      if k < |s.frames| && k != h {
        assert FrameOk(s, Some(h), k);
        ForkOldFrame(s, s', h, b, now, k);
      } else {
        ForkNewFrame(s, s', h, b, now, k);
      }
    }
    forall g' | 0 <= g' < |s'.groups| ensures GroupOk(s', g') {
      if g' < |s.groups| {
        assert GroupOk(s, g');
      }
      ForkGroup(s, s', h, b, now, g');
    }
    ForkQueues(s, s', h, b, now, ready, timers);
  }
}
