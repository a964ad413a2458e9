/** What every module needs. */
module Wrappers {
  datatype Option<+T> = None | Some(value: T)

  function Max(a: int, b: int): int {
    if a < b then b else a
  }

  ghost function OneIf(b: bool): nat {
    if b then 1 else 0
  }
}

/** Coroutine bodies as data: the grammar of closed programs.

    A body is what a `Task` coroutine does between its `co_await`s.  Values, durations, exceptions and branch
    conditions are arbitrary functions of the frame's locals; the shape of a body is finite, so every program
    has a finite size.  Each `co_await` that can throw has two successors: `next` runs when it yields a value,
    `caught` when it rethrows.  A `co_await` outside every try block is one whose `caught` throws on. */
module Programs {
  /** A `Task<void>` yields `Unit`; `WhenAll` yields a tuple; `WhenAny` an index and a value. */
  datatype Val = Unit | Num(n: int) | Tuple(vs: seq<Val>) | Won(index: nat, v: Val)

  /** How a coroutine ends: the promise holds a result or an exception. */
  datatype Outcome = Value(v: Val) | Raised(e: int)

  /** The locals of a frame: the arguments it was created with, then what each `co_await` delivered, in order. */
  type Env = seq<Outcome>

  datatype Body =
    | Return(v: Env -> Val)
    | Throw(e: Env -> int)
    | Branch(cond: Env -> bool, yes: Body, no: Body)
    | Await(child: Body, next: Body, caught: Body)
    | AwaitEmpty(isVoid: bool, next: Body, caught: Body)
    | Sleep(duration: Env -> int, next: Body)
    | All(children: seq<Body>, next: Body, caught: Body)
    | Any(children: seq<Body>, next: Body, caught: Body)
    | Spawn(task: Body, next: Body)

  /** `std::logic_error` from awaiting an empty `Task<T>`, `std::invalid_argument` from racing nothing. */
  const LOGIC_ERROR := -1
  const INVALID_ARGUMENT := -2

  function EmptyTaskOutcome(isVoid: bool): Outcome {
    if isVoid then Value(Unit) else Raised(LOGIC_ERROR)
  }

  /** The outcome of a resolved race whose child `i` won. */
  function RaceOutcome(i: nat, o: Outcome): Outcome {
    match o
    case Value(v) => Value(Won(i, v))
    case Raised(e) => Raised(e)
  }

  /** The outcome of a finished join: the exception of the first child that has one, else all non-void values. */
  function JoinOutcome(os: seq<Outcome>): Outcome {
    if exists i :: 0 <= i < |os| && os[i].Raised? then RethrowFirst(os) else Value(Tuple(Collect(os)))
  }

  function RethrowFirst(os: seq<Outcome>): Outcome
    requires exists i :: 0 <= i < |os| && os[i].Raised?
  {
    if os[0].Raised? then os[0] else RethrowFirst(os[1..])
  }

  function Collect(os: seq<Outcome>): seq<Val> {
    if os == [] then []
    else (if os[0].Value? && os[0].v != Unit then [os[0].v] else []) + Collect(os[1..])
  }

  type Positive = n: nat | n >= 1 witness 1

  /** The number of machine steps a body can still cause, itself included. */
  function Size(b: Body): Positive
    decreases b, 0
  {
    match b
    case Return(_) => 1
    case Throw(_) => 1
    case Branch(_, yes, no) => 1 + Size(yes) + Size(no)
    case Await(child, next, caught) => 2 + Size(child) + Size(next) + Size(caught)
    case AwaitEmpty(_, next, caught) => 1 + Size(next) + Size(caught)
    case Sleep(_, next) => 2 + Size(next)
    case All(children, next, caught) => 2 + SizeAll(children) + Size(next) + Size(caught)
    case Any(children, next, caught) => 2 + SizeAll(children) + Size(next) + Size(caught)
    case Spawn(task, next) => 1 + Size(task) + Size(next)
  }

  /** Each child of a combinator also pays for its wrapper: one step to start it, one to finish it. */
  function SizeAll(bs: seq<Body>): nat
    decreases bs, 1
  {
    if bs == [] then 0 else SizeAll(bs[..|bs| - 1]) + 2 + Size(bs[|bs| - 1])
  }
}
