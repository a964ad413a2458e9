/** The global invariant of the frame machine: single ownership, one wake source per suspended frame, no fault. */
module Safety {
  import opened Wrappers
  import opened Meaning
  import opened Timers
  import opened Runtime

  /** The frame that `code` is suspended on and owns through its awaiter. */
  ghost predicate Awaits(code: Code, c: Handle) {
    (code.Awaiting? || code.WrapAwaiting?) && code.child == c
  }

  ghost predicate IsWrapper(code: Code, g: nat, i: nat) {
    (code.Wrap? || code.WrapAwaiting?) && code.group == g && code.index == i
  }

  /** Frame `h` is wrapper `i` of group `g`, owned as that kind of group owns its wrappers. */
  ghost predicate MemberOf(s: Store, h: Handle, g: nat, i: nat)
    requires h < |s.frames|
  {
    && g < |s.groups| && i < |s.groups[g].Children()| && h == s.groups[g].first + i
    && s.frames[h].owner == (if s.groups[g].Join? then Wrapped(g, i) else Itself)
  }

  ghost predicate Resolved(group: Group) {
    match group
    case Join(_, _, _, remaining, _) => remaining == 0
    case Race(_, _, _, winner) => winner.Some?
  }

  /** `h` is suspended on `c`, which it owns; `c` has finished only while control is back at `h`. */
  ghost predicate ChildOk(s: Store, run: Option<Handle>, h: Handle, c: Handle) {
    && h < c < |s.frames| && s.frames[c].owner == Awaiter(h) && !s.frames[c].code.Destroyed?
    && (s.frames[c].code.Finished? <==> run == Some(h))
  }

  ghost predicate Started(owner: Owner) {
    owner.Driver? || owner.Itself? || owner.Awaiter?
  }

  /** What the bookmark of a frame says about the rest of the store. */
  ghost predicate CodeOk(s: Store, run: Option<Handle>, h: Handle)
    requires h < |s.frames|
  {
    var f := s.frames[h];
    match f.code
    case Start(_) => !f.owner.Wrapped? && (f.owner.Awaiter? ==> run == Some(h))
    case Wrap(task, g, i) =>
      && MemberOf(s, h, g, i)
      && h < task < |s.frames| && s.frames[task].code.Start? && s.frames[task].owner == Argument(h)
    case Awaiting(c, b) => b.Await? && Started(f.owner) && ChildOk(s, run, h, c)
    case WrapAwaiting(c, g, i) => MemberOf(s, h, g, i) && ChildOk(s, run, h, c)
    case Sleeping(_, b) => b.Sleep? && Started(f.owner)
    case InGroup(g, b) =>
      && Started(f.owner) && g < |s.groups| && s.groups[g].parent == h
      && s.groups[g].origin == Origin(b, f.env, f.since)
      && (if s.groups[g].Join? then b.All? else b.Any?)
    case Finished(_) => (f.owner.Driver? || f.owner.Wrapped? || f.owner.Awaiter?)
      && (f.owner.Awaiter? ==> run == Some(f.owner.waiter))
    case Destroyed(_) => true
  }

  /** The owner of a live frame exists, holds it in the one place its kind of owner has, and is the frame's
      continuation exactly when it is an awaiter. */
  ghost predicate OwnerOk(s: Store, h: Handle)
    requires h < |s.frames|
  {
    var f := s.frames[h];
    && (f.continuation == if f.owner.Awaiter? then Some(f.owner.waiter) else None)
    && match f.owner
       case Driver => true
       case Itself => true
       case Awaiter(p) => p < h && Awaits(s.frames[p].code, h)
       case Argument(w) => w < h && s.frames[w].code.Wrap? && s.frames[w].code.task == h && f.code.Start?
       case Wrapped(g, i) =>
         && MemberOf(s, h, g, i) && ParentWaits(s, g) && i < |s.groups[g].slots|
         && if s.groups[g].slots[i].None? then IsWrapper(f.code, g, i) else f.code.Finished?
  }

  ghost predicate FrameOk(s: Store, run: Option<Handle>, h: Handle)
    requires h < |s.frames|
  {
    CodeOk(s, run, h) && (!s.frames[h].code.Destroyed? ==> OwnerOk(s, h))
  }

  ghost function Missing(slots: seq<Option<Done>>): nat {
    if slots == [] then 0 else Missing(slots[..|slots| - 1]) + if slots[|slots| - 1].None? then 1 else 0
  }

  /** Wrapper `i` of an open group: still in the vector of a join, still running in an unresolved race. */
  ghost predicate WrapperOk(s: Store, g: nat, i: nat)
    requires g < |s.groups|
  {
    var k := s.groups[g].first + i;
    k < |s.frames| && if s.groups[g].Join? then s.frames[k].owner == Wrapped(g, i) && !s.frames[k].code.Destroyed?
                                           else IsWrapper(s.frames[k].code, g, i)
  }

  ghost predicate GroupOk(s: Store, g: nat)
    requires g < |s.groups|
  {
    var group := s.groups[g];
    var n := |group.Children()|;
    && n > 0 && group.parent < group.first && group.first + n <= |s.frames|
    && match group
       case Join(_, _, origin, remaining, slots) =>
         && origin.body.All? && |slots| == n && remaining == Missing(slots)
         && (ParentWaits(s, g) ==> forall i :: 0 <= i < n ==> WrapperOk(s, g, i))
       case Race(_, _, origin, winner) =>
         && origin.body.Any?
         && (winner.Some? ==> winner.value.0 < n)
         && (winner.None? ==> ParentWaits(s, g) && forall i :: 0 <= i < n ==> WrapperOk(s, g, i))
  }

  /** Frames whose next resumption is, or should be, in the ready queue. */
  ghost predicate Runnable(s: Store, h: Handle) {
    h < |s.frames| &&
    match s.frames[h].code
    case Start(_) => s.frames[h].owner.Driver? || s.frames[h].owner.Itself?
    case Wrap(_, _, _) => true
    case InGroup(g, _) => g < |s.groups| && Resolved(s.groups[g])
    case _ => false
  }

  ghost predicate SleepsUntil(s: Store, t: Timer) {
    t.handle < |s.frames| && s.frames[t.handle].code.Sleeping? && s.frames[t.handle].code.when == t.when
  }

  /** How often a frame must stand in the ready queue: once if it is runnable, or asleep with its timer already
      taken off the timer queue; never while it executes. */
  ghost function Wanted(s: Store, run: Option<Handle>, timers: multiset<Timer>, h: Handle): nat {
    if h >= |s.frames| || run == Some(h) then 0
    else if Runnable(s, h) then 1
    else if s.frames[h].code.Sleeping? && timers[Timer(s.frames[h].code.when, h)] == 0 then 1
    else 0
  }

  ghost predicate ReadyOk(s: Store, run: Option<Handle>, ready: multiset<Handle>, timers: multiset<Timer>) {
    forall h: Handle :: ready[h] == Wanted(s, run, timers, h)
  }

  /** The timer queue holds only sleeping frames, at their own deadlines, each once. */
  ghost predicate TimersOk(s: Store, run: Option<Handle>, timers: multiset<Timer>) {
    forall t: Timer :: timers[t] <= 1 && (timers[t] > 0 ==> SleepsUntil(s, t) && run != Some(t.handle))
  }

  /** The executing frame is one that may be resumed. */
  ghost predicate RunOk(s: Store, run: Option<Handle>) {
    match run
    case None => true
    case Some(h) =>
      && h < |s.frames|
      && match s.frames[h].code
      case Start(_) => Started(s.frames[h].owner)
      case InGroup(g, _) => g < |s.groups| && Resolved(s.groups[g])
      case Finished(_) => false
      case Destroyed(_) => false
      case _ => true
  }

  ghost predicate FramesOk(s: Store, run: Option<Handle>) {
    forall h {:trigger FrameOk(s, run, h)} :: 0 <= h < |s.frames| ==> FrameOk(s, run, h)
  }

  ghost predicate GroupsOk(s: Store) {
    forall g {:trigger GroupOk(s, g)} :: 0 <= g < |s.groups| ==> GroupOk(s, g)
  }

  ghost predicate Inv(s: Store, run: Option<Handle>, ready: multiset<Handle>, timers: multiset<Timer>) {
    && !s.fault && !s.aborted && RunOk(s, run)
    && FramesOk(s, run) && GroupsOk(s)
    && ReadyOk(s, run, ready, timers) && TimersOk(s, run, timers)
  }
}
