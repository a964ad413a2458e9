/** The timed invariant: what is left of every task, started where and when it stands, ends only as the origin it
    came from may end. */
module Timing {
  import opened Wrappers
  import opened Programs
  import opened Meaning
  import opened Timers
  import opened Runtime

  ghost predicate OriginEnds(x: bool, origin: Origin, d: Done) {
    Ends(x, origin.body, origin.env, origin.at, d)
  }

  /** Every way in which `b`, started at `t` with locals `env`, may end is a way in which `origin` may end. */
  ghost predicate Refines(x: bool, b: Body, env: Env, t: int, origin: Origin) {
    forall d {:trigger Ends(x, b, env, t, d)} :: Ends(x, b, env, t, d) ==> OriginEnds(x, origin, d)
  }

  ghost predicate TaskOf(s: Store, c: Handle, b: Body, env: Env, at: int) {
    c < |s.frames| && s.frames[c].origin == Some(Origin(b, env, at))
  }

  ghost predicate WrapsChild(s: Store, task: Handle, g: nat, i: nat) {
    && g < |s.groups| && i < |s.groups[g].Children()|
    && TaskOf(s, task, s.groups[g].Children()[i], s.groups[g].origin.env, s.groups[g].origin.at)
  }

  /** A child that has finished but not been taken did so now or, on a clock that moves by itself, just before. */
  ghost predicate Fresh(x: bool, s: Store, c: Handle, now: int) {
    c < |s.frames| && (s.frames[c].code.Finished? ==> Reads(x, s.frames[c].since, now))
  }

  ghost predicate TaskTimed(x: bool, s: Store, now: int, h: Handle)
    requires h < |s.frames| && s.frames[h].origin.Some?
  {
    var f := s.frames[h];
    var origin := f.origin.value;
    match f.code
    case Start(b) => Refines(x, b, f.env, now, origin)
    case Awaiting(c, b) =>
      b.Await? && Refines(x, b, f.env, f.since, origin) && TaskOf(s, c, b.child, f.env, f.since) && Fresh(x, s, c, now)
    case Sleeping(w, b) =>
      b.Sleep? && Refines(x, b, f.env, f.since, origin) && w == f.since + Max(b.duration(f.env), 0) && (x ==> now <= w)
    case InGroup(_, b) => (b.All? || b.Any?) && b.children != [] && Refines(x, b, f.env, f.since, origin)
      && f.since <= now
    case Finished(o) => OriginEnds(x, origin, Done(o, f.since)) && f.since <= now
    case Destroyed(o) => OriginEnds(x, origin, Done(o, f.since)) && f.since <= now
    case Wrap(_, _, _) => false
    case WrapAwaiting(_, _, _) => false
  }

  ghost predicate WrapperTimed(x: bool, s: Store, now: int, h: Handle)
    requires h < |s.frames|
  {
    match s.frames[h].code
    case Wrap(task, g, i) => WrapsChild(s, task, g, i)
    case WrapAwaiting(c, g, i) => WrapsChild(s, c, g, i) && Fresh(x, s, c, now)
    case Finished(_) => true
    case Destroyed(_) => true
    case _ => false
  }

  ghost predicate FrameTimed(x: bool, s: Store, now: int, h: Handle)
    requires h < |s.frames|
  {
    if s.frames[h].origin.Some? then TaskTimed(x, s, now, h) else WrapperTimed(x, s, now, h)
  }

  /** The completions a join has collected are admissible ones; the last of them came now. */
  ghost predicate SlotsTimed(x: bool, group: Group, now: int)
    requires group.Join?
  {
    && |group.slots| == |group.Children()|
    && (forall i {:trigger group.slots[i]} :: 0 <= i < |group.slots| && group.slots[i].Some? ==>
          Ends(x, group.Children()[i], group.origin.env, group.origin.at, group.slots[i].value)
          && group.slots[i].value.at <= now)
    && (x && group.remaining == 0 ==>
          exists i {:trigger group.slots[i]} :: 0 <= i < |group.slots| && group.slots[i].Some?
            && group.slots[i].value.at == now)
  }

  ghost predicate WinnerTimed(x: bool, group: Group, now: int)
    requires group.Race? && group.winner.Some?
  {
    var (i, d) := group.winner.value;
    && i < |group.Children()| && Wins(x, group.Children(), group.origin.env, group.origin.at, i, d)
    && d.at <= now && (x ==> d.at == now)
  }

  ghost predicate GroupTimed(x: bool, s: Store, now: int, g: nat)
    requires g < |s.groups|
  {
    ParentWaits(s, g) ==>
      match s.groups[g]
      case Join(_, _, _, _, _) => SlotsTimed(x, s.groups[g], now)
      case Race(_, _, _, winner) => winner.Some? ==> WinnerTimed(x, s.groups[g], now)
  }

  ghost predicate FramesTimed(x: bool, s: Store, now: int) {
    forall h {:trigger FrameTimed(x, s, now, h)} :: 0 <= h < |s.frames| ==> FrameTimed(x, s, now, h)
  }

  ghost predicate GroupsTimed(x: bool, s: Store, now: int) {
    forall g {:trigger GroupTimed(x, s, now, g)} :: 0 <= g < |s.groups| ==> GroupTimed(x, s, now, g)
  }

  ghost predicate Timed(x: bool, s: Store, now: int) {
    FramesTimed(x, s, now) && GroupsTimed(x, s, now)
  }
}
