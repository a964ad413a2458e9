/** The frame machine: coroutine frames, promises, awaiters and combinator state, stepped one transfer at a time. */
module Runtime {
  import opened Wrappers
  import opened Programs
  import opened Meaning
  import opened Timers

  /** Who will destroy a frame: the caller that holds its handle (`EventLoop::Run`, a test), the frame itself once
      detached, the awaiter inside the frame awaiting it, a `Task` object held for a wrapper that has not started,
      or the `_wrappers` vector of a `WhenAll`. */
  datatype Owner =
    Driver | Itself | Awaiter(waiter: Handle) | Argument(wrapper: Handle) | Wrapped(group: nat, index: nat)

  /** The resume bookmark of a frame.  `Start` is an unstarted or executing body; `Wrap` an unstarted combinator
      wrapper and the child it will await; then the four suspension points, each with the `co_await` expression it
      is in; `Finished` is the final suspend point.  A destroyed frame remembers the outcome it ended with. */
  datatype Code =
    | Start(b: Body)
    | Wrap(task: Handle, group: nat, index: nat)
    | Awaiting(child: Handle, b: Body)
    | WrapAwaiting(child: Handle, group: nat, index: nat)
    | Sleeping(when: int, b: Body)
    | InGroup(group: nat, b: Body)
    | Finished(o: Outcome)
    | Destroyed(o: Outcome)

  /** How a task, or the expression that forked a group, came to be; never read by the machine. */
  datatype Origin = Origin(body: Body, env: Env, at: int)

  /** A coroutine frame.  `since` is when it last suspended or finished (before that, when it was created);
      combinator wrappers have no origin. */
  datatype Frame =
    Frame(code: Code, env: Env, continuation: Option<Handle>, owner: Owner, since: int, origin: Option<Origin>)

  /** Shared combinator state.  Wrapper `i` is frame `first + i`. */
  datatype Group =
    | Join(parent: Handle, first: Handle, origin: Origin, remaining: int, slots: seq<Option<Done>>)
    | Race(parent: Handle, first: Handle, origin: Origin, winner: Option<(nat, Done)>)
  {
    /** The racing or joined children. */
    function Children(): seq<Body> {
      match origin.body
      case All(cs, _, _) => cs
      case Any(cs, _, _) => cs
      case _ => []
    }
  }

  /** Frames are named by their position and never reused.  `fault` records undefined behaviour or a failed
      assertion, `aborted` a call of `std::terminate`. */
  datatype Store = Store(frames: seq<Frame>, groups: seq<Group>, fault: bool, aborted: bool)

  /** One step: the frame to run next by symmetric transfer, or `None` when control returns to the scheduler, and
      the handles posted and timers scheduled on the way. */
  datatype Move = Move(store: Store, run: Option<Handle>, posts: seq<Handle>, sleeps: seq<Timer>)

  const EMPTY_STORE := Store([], [], false, false)

  function Crash(s: Store): Move {
    Move(s.(fault := true), None, [], [])
  }

  /** The frame goes on executing at `b` with locals `env`. */
  function Continue(s: Store, h: Handle, env: Env, b: Body): Move
    requires h < |s.frames|
  {
    Move(s.(frames := s.frames[h := s.frames[h].(code := Start(b), env := env)]), Some(h), [], [])
  }

  /** `await_resume` delivers `o`: the value to the next statement, or the exception to the handler. */
  function Deliver(s: Store, h: Handle, o: Outcome, next: Body, caught: Body): Move
    requires h < |s.frames|
  {
    Continue(s, h, s.frames[h].env + [o], if o.Value? then next else caught)
  }

  /** `return_value` or `unhandled_exception`, then the final awaiter: a detached frame destroys itself and
      terminates the program on an exception; any other transfers to its continuation. */
  function Finish(s: Store, h: Handle, o: Outcome, now: int): Move
    requires h < |s.frames|
  {
    var f := s.frames[h];
    if f.owner.Itself? then
      Move(s.(frames := s.frames[h := f.(code := Destroyed(o), since := now)], aborted := s.aborted || o.Raised?),
           None, [], [])
    else
      Move(s.(frames := s.frames[h := f.(code := Finished(o), since := now)]), f.continuation, [], [])
  }

  predicate IsFinished(s: Store, h: Handle) {
    h < |s.frames| && s.frames[h].code.Finished?
  }

  /** Frees a frame that stands at its final suspend point. */
  function Destroy(s: Store, h: Handle): Store
    requires IsFinished(s, h)
  {
    s.(frames := s.frames[h := s.frames[h].(code := Destroyed(s.frames[h].code.o))])
  }

  function Suspend(f: Frame, code: Code, now: int): Frame {
    f.(code := code, since := now)
  }

  function TaskFrame(b: Body, env: Env, continuation: Option<Handle>, owner: Owner, now: int): Frame {
    Frame(Start(b), env, continuation, owner, now, Some(Origin(b, env, now)))
  }

  /** `co_await` of a fresh task: record the continuation and transfer into the child. */
  function AwaitTask(s: Store, h: Handle, b: Body, now: int): Move
    requires h < |s.frames| && b.Await?
  {
    var f, c := s.frames[h], |s.frames|;
    Move(s.(frames := s.frames[h := Suspend(f, Awaiting(c, b), now)]
                      + [TaskFrame(b.child, f.env, Some(h), Awaiter(h), now)]),
         Some(c), [], [])
  }

  /** The deadline is fixed at one reading of the clock, `now`; a sleep whose deadline has passed at the next one,
      `later`, does not suspend. */
  function SleepFor(s: Store, h: Handle, b: Body, now: int, later: int): Move
    requires h < |s.frames| && b.Sleep?
  {
    var f := s.frames[h];
    var deadline := now + b.duration(f.env);
    if deadline <= later then Continue(s, h, f.env, b.next)
    else Move(s.(frames := s.frames[h := Suspend(f, Sleeping(deadline, b), now)]), None, [], [Timer(deadline, h)])
  }

  /** Post a task: the frame owns itself from now on. */
  function SpawnTask(s: Store, h: Handle, b: Body, now: int): Move
    requires h < |s.frames| && b.Spawn?
  {
    var f, c := s.frames[h], |s.frames|;
    Move(s.(frames := s.frames[h := f.(code := Start(b.next))] + [TaskFrame(b.task, f.env, None, Itself, now)]),
         Some(h), [c], [])
  }

  function Handles(first: Handle, n: nat): seq<Handle> {
    seq(n, i => first + i)
  }

  function WrapperFrames(children: seq<Body>, first: Handle, g: nat, join: bool, now: int): seq<Frame> {
    seq(|children|, i requires 0 <= i < |children| =>
      Frame(Wrap(first + |children| + i, g, i), [], None, if join then Wrapped(g, i) else Itself, now, None))
  }

  function TaskFrames(children: seq<Body>, env: Env, first: Handle, now: int): seq<Frame> {
    seq(|children|, i requires 0 <= i < |children| => TaskFrame(children[i], env, None, Argument(first + i), now))
  }

  function NewGroup(h: Handle, first: Handle, b: Body, env: Env, now: int): Group
    requires b.All? || b.Any?
  {
    if b.All? then Join(h, first, Origin(b, env, now), |b.children|, seq(|b.children|, i => None))
    else Race(h, first, Origin(b, env, now), None)
  }

  /** `await_suspend` of `WhenAll` and `WhenAny`: one wrapper per child, posted in argument order. */
  function Fork(s: Store, h: Handle, b: Body, now: int): Move
    requires h < |s.frames| && (b.All? || b.Any?)
  {
    var f, first, g, n := s.frames[h], |s.frames|, |s.groups|, |b.children|;
    Move(s.(frames := s.frames[h := Suspend(f, InGroup(g, b), now)]
                      + WrapperFrames(b.children, first, g, b.All?, now)
                      + TaskFrames(b.children, f.env, first, now),
            groups := s.groups + [NewGroup(h, first, b, f.env, now)]),
         None, Handles(first, n), [])
  }

  /** Executes the next statement of a body, which takes from `now` to `later`. */
  function StepBody(s: Store, h: Handle, b: Body, now: int, later: int): Move
    requires h < |s.frames|
  {
    var env := s.frames[h].env;
    match b
    case Return(v) => Finish(s, h, Value(v(env)), now)
    case Throw(e) => Finish(s, h, Raised(e(env)), now)
    case Branch(cond, yes, no) => Continue(s, h, env, if cond(env) then yes else no)
    case Await(_, _, _) => AwaitTask(s, h, b, now)
    case AwaitEmpty(isVoid, next, caught) => Deliver(s, h, EmptyTaskOutcome(isVoid), next, caught)
    case Sleep(_, _) => SleepFor(s, h, b, now, later)
    case All(children, next, caught) =>
      if children == [] then Deliver(s, h, Value(Tuple([])), next, caught) else Fork(s, h, b, now)
    case Any(children, next, caught) =>
      if children == [] then Deliver(s, h, Raised(INVALID_ARGUMENT), next, caught) else Fork(s, h, b, now)
    case Spawn(_, _) => SpawnTask(s, h, b, now)
  }

  /** A wrapper starts: it steals its task and transfers into it. */
  function StartWrapper(s: Store, h: Handle, task: Handle, g: nat, i: nat, now: int): Move
    requires h < |s.frames|
  {
    if task < |s.frames| && task != h && s.frames[task].code.Start? then
      Move(s.(frames := s.frames[h := Suspend(s.frames[h], WrapAwaiting(task, g, i), now)]
                                [task := s.frames[task].(continuation := Some(h), owner := Awaiter(h))]),
           Some(task), [], [])
    else Crash(s)
  }

  /** The awaited task has finished: take its outcome, free its frame, go on. */
  function TaskDone(s: Store, h: Handle, c: Handle, b: Body): Move
    requires h < |s.frames| && b.Await?
  {
    if IsFinished(s, c) then Deliver(Destroy(s, c), h, s.frames[c].code.o, b.next, b.caught) else Crash(s)
  }

  predicate ParentWaits(s: Store, g: nat) {
    g < |s.groups| && s.groups[g].parent < |s.frames|
    && s.frames[s.groups[g].parent].code.InGroup? && s.frames[s.groups[g].parent].code.group == g
  }

  /** `OnChildDone` of either state.  Joins store into the child's slot, count down and post the parent at zero;
      races keep the first completion, post the parent then, and drop the rest. */
  function OnChildDone(group: Group, i: nat, d: Done): (Group, bool) {
    match group
    case Join(_, _, _, remaining, slots) =>
      (group.(remaining := remaining - 1, slots := if i < |slots| then slots[i := Some(d)] else slots),
       remaining - 1 == 0)
    case Race(_, _, _, winner) =>
      if winner.Some? then (group, false) else (group.(winner := Some((i, d))), true)
  }

  predicate CanNotify(s: Store, g: nat, i: nat) {
    && g < |s.groups|
    && (s.groups[g].Join? ==> s.groups[g].remaining > 0 && i < |s.groups[g].slots| && s.groups[g].slots[i].None?)
  }

  /** The wrapped task has finished: free it, report to the group, finish. */
  function WrapperDone(s: Store, h: Handle, c: Handle, g: nat, i: nat, now: int): Move
    requires h < |s.frames|
  {
    if IsFinished(s, c) && CanNotify(s, g, i) then
      var (group, post) := OnChildDone(s.groups[g], i, Done(s.frames[c].code.o, now));
      if post && !ParentWaits(s, g) then Crash(s)
      else
        var s1 := Destroy(s, c).(groups := s.groups[g := group]);
        var m := Finish(s1, h, Value(Unit), now);
        m.(posts := if post then [group.parent] else [])
    else Crash(s)
  }

  predicate Engaged(slots: seq<Option<Done>>) {
    forall i :: 0 <= i < |slots| ==> slots[i].Some?
  }

  function Completions(slots: seq<Option<Done>>): seq<Done>
    requires Engaged(slots)
  {
    seq(|slots|, i requires 0 <= i < |slots| => slots[i].value)
  }

  predicate AllFinished(frames: seq<Frame>, first: Handle, n: nat) {
    first + n <= |frames| && forall k :: first <= k < first + n ==> frames[k].code.Finished?
  }

  function DestroyRange(frames: seq<Frame>, first: Handle, n: nat): seq<Frame>
    requires AllFinished(frames, first, n)
  {
    seq(|frames|, k requires 0 <= k < |frames| =>
      if first <= k < first + n then frames[k].(code := Destroyed(frames[k].code.o)) else frames[k])
  }

  /** `await_resume` of a combinator, and then the end of the awaitable: `WhenAll` frees its wrappers. */
  function GroupDone(s: Store, h: Handle, g: nat, b: Body): Move
    requires h < |s.frames| && (b.All? || b.Any?)
  {
    if g >= |s.groups| then Crash(s)
    else
      match s.groups[g]
      case Join(_, first, _, _, slots) =>
        if Engaged(slots) && AllFinished(s.frames, first, |slots|) then
          Deliver(s.(frames := DestroyRange(s.frames, first, |slots|)), h, JoinOutcome(Outcomes(Completions(slots))),
                  b.next, b.caught)
        else Crash(s)
      case Race(_, _, _, winner) =>
        if winner.Some? then Deliver(s, h, RaceOutcome(winner.value.0, winner.value.1.o), b.next, b.caught)
        else Crash(s)
  }

  /** What a frame does next, from `now` to `later`.  Running a frame that is finished, freed or not there is a
      fault. */
  function Step(s: Store, h: Handle, now: int, later: int): Move {
    if h >= |s.frames| then Crash(s)
    else
      match s.frames[h].code
      case Start(b) => StepBody(s, h, b, now, later)
      case Wrap(task, g, i) => StartWrapper(s, h, task, g, i, now)
      case Awaiting(c, b) => if b.Await? then TaskDone(s, h, c, b) else Crash(s)
      case WrapAwaiting(c, g, i) => WrapperDone(s, h, c, g, i, now)
      case Sleeping(_, b) => if b.Sleep? then Continue(s, h, s.frames[h].env, b.next) else Crash(s)
      case InGroup(g, b) => if b.All? || b.Any? then GroupDone(s, h, g, b) else Crash(s)
      case Finished(_) => Crash(s)
      case Destroyed(_) => Crash(s)
  }
}
