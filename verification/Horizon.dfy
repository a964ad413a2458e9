/** Looking ahead: no unfinished task can be bound to end before the next thing happens. */
module Horizon {
  import opened Wrappers
  import opened Programs
  import opened Meaning
  import opened Timers
  import opened Runtime
  import opened Safety
  import opened Timing
  import opened SafetyGroups

  /** Nothing happens before `bound`: it is not in the future, or only timers no earlier than it are left. */
  ghost predicate Quiet(s: Store, run: Option<Handle>, now: int, bound: int) {
    bound <= now ||
    (run == None && forall h {:trigger Runnable(s, h)} :: 0 <= h < |s.frames| ==>
      !Runnable(s, h) && (s.frames[h].code.Sleeping? ==> bound <= s.frames[h].code.when))
  }

  /** The state in which we look ahead. */
  ghost predicate Ahead(x: bool, s: Store, run: Option<Handle>, now: int, bound: int) {
    RunOk(s, run) && FramesOk(s, run) && GroupsOk(s) && Timed(x, s, now) && Quiet(s, run, now, bound)
  }

  ghost predicate Unfinished(s: Store, h: Handle) {
    h < |s.frames| && s.frames[h].origin.Some? && !s.frames[h].code.Finished? && !s.frames[h].code.Destroyed?
  }

  /** Every unfinished task may, as far as its program says, end at or after `bound`. */
  lemma {:induction false} MayEndLater(x: bool, s: Store, run: Option<Handle>, now: int, bound: int, h: Handle)
    returns (d: Done)
    requires Ahead(x, s, run, now, bound) && Unfinished(s, h)
    ensures OriginEnds(x, s.frames[h].origin.value, d) && bound <= d.at
    decreases |s.frames| - h, 3, 0
  {
    assert FrameOk(s, run, h) && FrameTimed(x, s, now, h);
    var f := s.frames[h];
    match f.code
    case Start(b) => d := StartMayEnd(x, s, run, now, bound, h, b);
    case Sleeping(w, b) => d := SleeperMayEnd(x, s, run, now, bound, h, w, b);
    case Awaiting(c, b) =>
      var r := ChildMayEnd(x, s, run, now, bound, h, c);
      d := ResumesSomehow(x, b.next, b.caught, f.env, r);
      assert Ends(x, b, f.env, f.since, d);
    case InGroup(g, b) =>
      if s.groups[g].Join? {
        d := JoinMayEnd(x, s, run, now, bound, h, g, b);
      } else {
        d := RaceMayEnd(x, s, run, now, bound, h, g, b);
      }
  }

  lemma {:induction false} StartMayEnd(x: bool, s: Store, run: Option<Handle>, now: int, bound: int, h: Handle,
                                       b: Body) returns (d: Done)
    requires Ahead(x, s, run, now, bound) && Unfinished(s, h) && s.frames[h].code == Start(b)
    ensures OriginEnds(x, s.frames[h].origin.value, d) && bound <= d.at
  {
    assert FrameOk(s, run, h) && FrameTimed(x, s, now, h);
    d := EndsSomehow(x, b, s.frames[h].env, now);
    if bound > now {
      assert !Runnable(s, h);
      var w := s.frames[h].owner.wrapper;
      assert Runnable(s, w);
    }
  }

  lemma {:induction false} SleeperMayEnd(x: bool, s: Store, run: Option<Handle>, now: int, bound: int, h: Handle,
                                         w: int, b: Body)
    returns (d: Done)
    requires Ahead(x, s, run, now, bound) && Unfinished(s, h) && s.frames[h].code == Sleeping(w, b)
    ensures OriginEnds(x, s.frames[h].origin.value, d) && bound <= d.at
  {
    assert FrameTimed(x, s, now, h);
    var f := s.frames[h];
    var wake := Max(w, bound);
    if bound > now {
      assert !Runnable(s, h);
    }
    d := EndsSomehow(x, b.next, f.env, wake);
    if !x {
      EndsFromEarlier(b.next, f.env, w, wake, d);
    }
    assert Ends(x, b, f.env, f.since, d);
  }

  /** The task that frame `h` awaits has just finished, or may end at or after `bound`. */
  lemma {:induction false} ChildMayEnd(x: bool, s: Store, run: Option<Handle>, now: int, bound: int, h: Handle,
                                       c: Handle)
    returns (d: Done)
    requires Ahead(x, s, run, now, bound) && h < |s.frames|
    requires Awaits(s.frames[h].code, c) || (s.frames[h].code.Wrap? && s.frames[h].code.task == c)
    ensures c < |s.frames| && s.frames[c].origin.Some? && OriginEnds(x, s.frames[c].origin.value, d) && bound <= d.at
    decreases |s.frames| - h, 0, 0
  {
    assert FrameOk(s, run, h) && FrameTimed(x, s, now, h);
    assert FrameTimed(x, s, now, c);
    if s.frames[c].code.Finished? {
      d := Done(s.frames[c].code.o, now);
      if !x {
        var origin := s.frames[c].origin.value;
        EndsLater(origin.body, origin.env, origin.at, Done(d.o, s.frames[c].since), now);
      }
    } else {
      d := MayEndLater(x, s, run, now, bound, c);
    }
  }

  predicate Recorded(group: Group, i: nat) {
    group.Join? && i < |group.slots| && group.slots[i].Some?
  }

  /** A child of a group that is still waited for: its recorded completion, or a possible one from `bound` on. */
  lemma {:induction false} MemberMayEnd(x: bool, s: Store, run: Option<Handle>, now: int, bound: int, g: nat, i: nat)
    returns (d: Done)
    requires Ahead(x, s, run, now, bound) && ParentWaits(s, g) && i < |s.groups[g].Children()|
    requires s.groups[g].Race? ==> s.groups[g].winner.None?
    ensures Ends(x, s.groups[g].Children()[i], s.groups[g].origin.env, s.groups[g].origin.at, d)
    ensures if Recorded(s.groups[g], i) then d == s.groups[g].slots[i].value else bound <= d.at
    decreases |s.frames| - s.groups[g].parent, 0, 1
  {
    assert GroupOk(s, g) && GroupTimed(x, s, now, g) && WrapperOk(s, g, i);
    var k := s.groups[g].first + i;
    if Recorded(s.groups[g], i) {
      d := s.groups[g].slots[i].value;
    } else {
      assert FrameOk(s, run, k) && FrameTimed(x, s, now, k);
      var c := if s.frames[k].code.Wrap? then s.frames[k].code.task else s.frames[k].code.child;
      d := ChildMayEnd(x, s, run, now, bound, k, c);
    }
  }

  /** Possible completions of the first `n` children. */
  lemma {:induction false} MembersMayEnd(x: bool, s: Store, run: Option<Handle>, now: int, bound: int, g: nat, n: nat)
    returns (rs: seq<Done>)
    requires Ahead(x, s, run, now, bound) && ParentWaits(s, g) && n <= |s.groups[g].Children()|
    requires s.groups[g].Race? ==> s.groups[g].winner.None?
    ensures |rs| == n
    ensures forall i :: 0 <= i < n ==>
            Ends(x, s.groups[g].Children()[i], s.groups[g].origin.env, s.groups[g].origin.at, rs[i])
    ensures forall i :: 0 <= i < n ==>
      if Recorded(s.groups[g], i) then rs[i] == s.groups[g].slots[i].value
      else bound <= rs[i].at
    decreases |s.frames| - s.groups[g].parent, 1, n
  {
    if n == 0 {
      rs := [];
    } else {
      var qs := MembersMayEnd(x, s, run, now, bound, g, n - 1);
      var q := MemberMayEnd(x, s, run, now, bound, g, n - 1);
      rs := qs + [q];
    }
  }

  lemma {:induction false} JoinMayEnd(x: bool, s: Store, run: Option<Handle>, now: int, bound: int, h: Handle, g: nat,
                                      b: Body) returns (d: Done)
    requires Ahead(x, s, run, now, bound) && Unfinished(s, h) && s.frames[h].code == InGroup(g, b)
    requires g < |s.groups| && s.groups[g].Join?
    ensures OriginEnds(x, s.frames[h].origin.value, d) && bound <= d.at
    decreases |s.frames| - h, 2, 0
  {
    assert FrameOk(s, run, h) && FrameTimed(x, s, now, h) && GroupOk(s, g) && GroupTimed(x, s, now, g);
    var f, group := s.frames[h], s.groups[g];
    assert group.Children() == b.children;
    var rs := MembersMayEnd(x, s, run, now, bound, g, |b.children|);
    assert AllEnd(x, b.children, f.env, f.since, rs);
    if group.remaining > 0 {
      JoinOpen(s, g, rs, bound);
      d := ResumesSomehow(x, b.next, b.caught, f.env, Joined(rs));
    } else {
      JoinClosed(x, group, now, rs);
      assert Runnable(s, h);
      var j := Done(JoinOutcome(Outcomes(rs)), now);
      d := ResumesSomehow(x, b.next, b.caught, f.env, j);
      if !x {
        ResumesFromEarlier(b.next, b.caught, f.env, j.o, Latest(rs), now, d);
      } 
    }
    assert Ends(x, b, f.env, f.since, d);
  }

  /** A complete join ends with its last child: now, under an exact clock. */
  lemma {:induction false} JoinClosed(x: bool, group: Group, now: int, rs: seq<Done>)
    requires group.Join? && SlotsTimed(x, group, now) && group.remaining == 0 == Missing(group.slots)
    requires |rs| == |group.slots| > 0
    requires forall i :: 0 <= i < |rs| && Recorded(group, i) ==> rs[i] == group.slots[i].value
    ensures Engaged(group.slots) && rs == Completions(group.slots)
    ensures Latest(rs) <= now && (x ==> Latest(rs) == now)
  {
    MissingNone(group.slots);
    forall i | 0 <= i < |rs| ensures rs[i] == group.slots[i].value {
      assert Recorded(group, i);
    }
  }

  lemma {:induction false} JoinOpen(s: Store, g: nat, rs: seq<Done>, bound: int)
    requires g < |s.groups| && GroupOk(s, g) && s.groups[g].Join? && s.groups[g].remaining > 0
    requires |rs| == |s.groups[g].Children()|
    requires forall i :: 0 <= i < |rs| ==> Recorded(s.groups[g], i) || bound <= rs[i].at
    ensures bound <= Latest(rs)
  {
    MissingNone(s.groups[g].slots);
    var i :| 0 <= i < |rs| && s.groups[g].slots[i].None?;
    assert !Recorded(s.groups[g], i);
  }

  lemma {:induction false} RaceMayEnd(x: bool, s: Store, run: Option<Handle>, now: int, bound: int, h: Handle, g: nat,
                                      b: Body) returns (d: Done)
    requires Ahead(x, s, run, now, bound) && Unfinished(s, h) && s.frames[h].code == InGroup(g, b)
    requires g < |s.groups| && s.groups[g].Race?
    ensures OriginEnds(x, s.frames[h].origin.value, d) && bound <= d.at
    decreases |s.frames| - h, 2, 0
  {
    assert FrameOk(s, run, h) && FrameTimed(x, s, now, h) && GroupOk(s, g) && GroupTimed(x, s, now, g);
    var f, group := s.frames[h], s.groups[g];
    assert group.Children() == b.children;
    var i: nat, r: Done;
    if group.winner.None? {
      var rs := MembersMayEnd(x, s, run, now, bound, g, |b.children|);
      assert AllEnd(x, b.children, f.env, f.since, rs);
      i := SomeoneWins(x, b.children, f.env, f.since, rs);
      r := rs[i];
      d := ResumesSomehow(x, b.next, b.caught, f.env, Done(RaceOutcome(i, r.o), r.at));
    } else {
      i, r := group.winner.value.0, group.winner.value.1;
      assert Runnable(s, h);
      d := ResumesSomehow(x, b.next, b.caught, f.env, Done(RaceOutcome(i, r.o), now));
      if !x {
        ResumesFromEarlier(b.next, b.caught, f.env, RaceOutcome(i, r.o), r.at, now, d);
      }
    }
    assert Wins(x, b.children, f.env, f.since, i, r);
    assert Ends(x, b, f.env, f.since, d);
  }
}
