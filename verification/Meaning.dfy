/** What a program means, independently of frames, queues and schedulers. */
module Meaning {
  import opened Wrappers
  import opened Programs

  /** A completion: how a body ended, and when. */
  datatype Done = Done(o: Outcome, at: int)

  /** `s` is an admissible later reading of a clock that showed `t`: the same instant under an exact (virtual)
      clock, any later one under a real clock. */
  predicate Reads(exact: bool, t: int, s: int) {
    if exact then s == t else t <= s
  }

  function Outcomes(rs: seq<Done>): seq<Outcome> {
    seq(|rs|, i requires 0 <= i < |rs| => rs[i].o)
  }

  /** The latest completion. */
  function Latest(rs: seq<Done>): (t: int)
    requires rs != []
    ensures forall i :: 0 <= i < |rs| ==> rs[i].at <= t
    ensures exists i :: 0 <= i < |rs| && rs[i].at == t
  {
    if |rs| == 1 then rs[0].at
    else
      var m := Latest(rs[..|rs| - 1]);
      assert forall i :: 0 <= i < |rs| - 1 ==> rs[i] == rs[..|rs| - 1][i];
      Max(m, rs[|rs| - 1].at)
  }

  /** The direct-style timed meaning of a body: started at time `t` with locals `env`, it may end with `d`.

      `co_await` of a task runs it to its end and hands its outcome over; `Sleep` takes its duration, or no
      time when that is not positive; `WhenAll` ends with its last child; `WhenAny` ends with a child no other
      child precedes; a detached task contributes nothing.  Only ties between racing children make the exact
      meaning a relation rather than a function. */
  ghost predicate Ends(x: bool, b: Body, env: Env, t: int, d: Done)
    decreases b, 0
  {
    match b
    case Return(v) => d.o == Value(v(env)) && Reads(x, t, d.at)
    case Throw(e) => d.o == Raised(e(env)) && Reads(x, t, d.at)
    case Branch(cond, yes, no) => if cond(env) then Ends(x, yes, env, t, d) else Ends(x, no, env, t, d)
    case Await(child, next, caught) =>
      exists r :: Ends(x, child, env, t, r) && Resumes(x, next, caught, env, r, d)
    case AwaitEmpty(isVoid, next, caught) =>
      Resumes(x, next, caught, env, Done(EmptyTaskOutcome(isVoid), t), d)
    case Sleep(duration, next) => Ends(x, next, env, t + Max(duration(env), 0), d)
    case All(children, next, caught) =>
      if children == [] then Resumes(x, next, caught, env, Done(Value(Tuple([])), t), d)
      else exists rs: seq<Done> ::
             (|rs| == |children| && AllEnd(x, children, env, t, rs) && Resumes(x, next, caught, env, Joined(rs), d))
    case Any(children, next, caught) =>
      if children == [] then Resumes(x, next, caught, env, Done(Raised(INVALID_ARGUMENT), t), d)
      else exists i, r: Done ::
             (0 <= i < |children| && Wins(x, children, env, t, i, r)
              && Resumes(x, next, caught, env, Done(RaceOutcome(i, r.o), r.at), d))
    case Spawn(_, next) => Ends(x, next, env, t, d)
  }

  /** The rest of a body after a `co_await` that delivered `r`. */
  ghost predicate Resumes(x: bool, next: Body, caught: Body, env: Env, r: Done, d: Done)
    decreases if r.o.Value? then next else caught, 1
  {
    if r.o.Value? then Ends(x, next, env + [r.o], r.at, d) else Ends(x, caught, env + [r.o], r.at, d)
  }

  /** Every child may end as `rs` says. */
  ghost predicate AllEnd(x: bool, children: seq<Body>, env: Env, t: int, rs: seq<Done>)
    requires |rs| == |children|
    decreases children, 2
  {
    forall i :: 0 <= i < |rs| ==> Ends(x, children[i], env, t, rs[i])
  }

  function Joined(rs: seq<Done>): Done
    requires rs != []
  {
    Done(JoinOutcome(Outcomes(rs)), Latest(rs))
  }

  /** Child `i` may end with `r`, and every child may end no earlier than that. */
  ghost predicate Wins(x: bool, children: seq<Body>, env: Env, t: int, i: nat, r: Done)
    requires i < |children|
    decreases children, 2
  {
    && Ends(x, children[i], env, t, r)
    && forall j :: 0 <= j < |children| ==> Outlasts(x, children[j], env, t, r.at)
  }

  ghost predicate Outlasts(x: bool, child: Body, env: Env, t: int, m: int)
    decreases child, 1
  {
    exists q: Done :: Ends(x, child, env, t, q) && m <= q.at
  }

  // ---- Basic laws ----

  /** Nothing ends before it starts. */
  lemma {:induction false} EndsNoEarlier(x: bool, b: Body, env: Env, t: int, d: Done)
    requires Ends(x, b, env, t, d)
    ensures t <= d.at
    decreases b, 0
  {
    match b
    case Return(_) =>
    case Throw(_) =>
    case Branch(cond, yes, no) => EndsNoEarlier(x, if cond(env) then yes else no, env, t, d);
    case Await(child, next, caught) =>
      var r :| Ends(x, child, env, t, r) && Resumes(x, next, caught, env, r, d);
      EndsNoEarlier(x, child, env, t, r);
      ResumesNoEarlier(x, next, caught, env, r, d);
    case AwaitEmpty(isVoid, next, caught) =>
      ResumesNoEarlier(x, next, caught, env, Done(EmptyTaskOutcome(isVoid), t), d);
    case Sleep(duration, next) => EndsNoEarlier(x, next, env, t + Max(duration(env), 0), d);
    case All(children, next, caught) =>
      if children == [] {
        ResumesNoEarlier(x, next, caught, env, Done(Value(Tuple([])), t), d);
      } else {
        var rs :| |rs| == |children| && AllEnd(x, children, env, t, rs) && Resumes(x, next, caught, env, Joined(rs), d);
        EndsNoEarlier(x, children[0], env, t, rs[0]);
        ResumesNoEarlier(x, next, caught, env, Joined(rs), d);
      }
    case Any(children, next, caught) =>
      if children == [] {
        ResumesNoEarlier(x, next, caught, env, Done(Raised(INVALID_ARGUMENT), t), d);
      } else {
        var i, r :| 0 <= i < |children| && Wins(x, children, env, t, i, r)
          && Resumes(x, next, caught, env, Done(RaceOutcome(i, r.o), r.at), d);
        EndsNoEarlier(x, children[i], env, t, r);
        ResumesNoEarlier(x, next, caught, env, Done(RaceOutcome(i, r.o), r.at), d);
      }
    case Spawn(_, next) => EndsNoEarlier(x, next, env, t, d);
  }

  lemma {:induction false} ResumesNoEarlier(x: bool, next: Body, caught: Body, env: Env, r: Done, d: Done)
    requires Resumes(x, next, caught, env, r, d)
    ensures r.at <= d.at
    decreases if r.o.Value? then next else caught, 1
  {
    EndsNoEarlier(x, if r.o.Value? then next else caught, env + [r.o], r.at, d);
  }

  /** Every body can end, whenever it starts. */
  lemma {:induction false} EndsSomehow(x: bool, b: Body, env: Env, t: int) returns (d: Done)
    ensures Ends(x, b, env, t, d) && t <= d.at
    decreases b, 0
  {
    match b
    case Return(v) => d := Done(Value(v(env)), t);
    case Throw(e) => d := Done(Raised(e(env)), t);
    case Branch(cond, yes, no) => d := EndsSomehow(x, if cond(env) then yes else no, env, t);
    case Await(child, next, caught) =>
      var r := EndsSomehow(x, child, env, t);
      d := ResumesSomehow(x, next, caught, env, r);
    case AwaitEmpty(isVoid, next, caught) =>
      d := ResumesSomehow(x, next, caught, env, Done(EmptyTaskOutcome(isVoid), t));
    case Sleep(duration, next) => d := EndsSomehow(x, next, env, t + Max(duration(env), 0));
    case All(children, next, caught) =>
      if children == [] {
        d := ResumesSomehow(x, next, caught, env, Done(Value(Tuple([])), t));
      } else {
        var rs := AllEndSomehow(x, children, env, t);
        d := ResumesSomehow(x, next, caught, env, Joined(rs));
        assert rs[0].at <= Latest(rs);
      }
    case Any(children, next, caught) =>
      if children == [] {
        d := ResumesSomehow(x, next, caught, env, Done(Raised(INVALID_ARGUMENT), t));
      } else {
        var rs := AllEndSomehow(x, children, env, t);
        var i := SomeoneWins(x, children, env, t, rs);
        d := ResumesSomehow(x, next, caught, env, Done(RaceOutcome(i, rs[i].o), rs[i].at));
      }
    case Spawn(_, next) => d := EndsSomehow(x, next, env, t);
  }

  lemma {:induction false} ResumesSomehow(x: bool, next: Body, caught: Body, env: Env, r: Done) returns (d: Done)
    ensures Resumes(x, next, caught, env, r, d) && r.at <= d.at
    decreases if r.o.Value? then next else caught, 1
  {
    d := EndsSomehow(x, if r.o.Value? then next else caught, env + [r.o], r.at);
  }

  lemma {:induction false} AllEndSomehow(x: bool, children: seq<Body>, env: Env, t: int) returns (rs: seq<Done>)
    ensures |rs| == |children| && AllEnd(x, children, env, t, rs)
    ensures forall i :: 0 <= i < |rs| ==> t <= rs[i].at
    decreases children, 1
  {
    if children == [] {
      rs := [];
    } else {
      var init, last := children[..|children| - 1], children[|children| - 1];
      assert forall i :: 0 <= i < |init| ==> init[i] == children[i];
      var qs := AllEndSomehow(x, init, env, t);
      var q := EndsSomehow(x, last, env, t);
      rs := qs + [q];
    }
  }

  /** Of any completions of all the children, an earliest one wins the race. */
  lemma {:induction false} SomeoneWins(x: bool, children: seq<Body>, env: Env, t: int, rs: seq<Done>) returns (i: nat)
    requires |rs| == |children| > 0 && AllEnd(x, children, env, t, rs)
    ensures i < |rs| && Wins(x, children, env, t, i, rs[i])
    ensures forall j :: 0 <= j < |rs| ==> rs[i].at <= rs[j].at
  {
    i := Earliest(rs);
    forall j | 0 <= j < |children| ensures Outlasts(x, children[j], env, t, rs[i].at) {
      assert Ends(x, children[j], env, t, rs[j]);
    }
  }

  lemma {:induction false} Earliest(rs: seq<Done>) returns (i: nat)
    requires rs != []
    ensures i < |rs| && forall j :: 0 <= j < |rs| ==> rs[i].at <= rs[j].at
  {
    if |rs| == 1 {
      i := 0;
    } else {
      var init := rs[..|rs| - 1];
      i := Earliest(init);
      assert forall j :: 0 <= j < |init| ==> init[j] == rs[j];
      if rs[|rs| - 1].at < rs[i].at {
        i := |rs| - 1;
      }
    }
  }

  /** Under a real clock a later start allows nothing that an earlier one does not. */
  lemma {:induction false} EndsFromEarlier(b: Body, env: Env, t: int, t': int, d: Done)
    requires t <= t' && Ends(false, b, env, t', d)
    ensures Ends(false, b, env, t, d)
    decreases b, 0
  {
    match b
    case Return(_) =>
    case Throw(_) =>
    case Branch(cond, yes, no) => EndsFromEarlier(if cond(env) then yes else no, env, t, t', d);
    case Await(child, next, caught) =>
      var r :| Ends(false, child, env, t', r) && Resumes(false, next, caught, env, r, d);
      EndsFromEarlier(child, env, t, t', r);
    case AwaitEmpty(isVoid, next, caught) =>
      var o := EmptyTaskOutcome(isVoid);
      EndsFromEarlier(if o.Value? then next else caught, env + [o], t, t', d);
    case Sleep(duration, next) =>
      EndsFromEarlier(next, env, t + Max(duration(env), 0), t' + Max(duration(env), 0), d);
    case All(children, next, caught) =>
      if children == [] {
        EndsFromEarlier(next, env + [Value(Tuple([]))], t, t', d);
      } else {
        var rs :| |rs| == |children| && AllEnd(false, children, env, t', rs)
          && Resumes(false, next, caught, env, Joined(rs), d);
        forall i | 0 <= i < |rs| ensures Ends(false, children[i], env, t, rs[i]) {
          EndsFromEarlier(children[i], env, t, t', rs[i]);
        }
        assert AllEnd(false, children, env, t, rs);
      }
    case Any(children, next, caught) =>
      if children == [] {
        EndsFromEarlier(caught, env + [Raised(INVALID_ARGUMENT)], t, t', d);
      } else {
        var i, r :| 0 <= i < |children| && Wins(false, children, env, t', i, r)
          && Resumes(false, next, caught, env, Done(RaceOutcome(i, r.o), r.at), d);
        EndsFromEarlier(children[i], env, t, t', r);
        forall j | 0 <= j < |children| ensures Outlasts(false, children[j], env, t, r.at) {
          assert Outlasts(false, children[j], env, t', r.at);
          var q :| Ends(false, children[j], env, t', q) && r.at <= q.at;
          EndsFromEarlier(children[j], env, t, t', q);
        }
        assert Wins(false, children, env, t, i, r);
      }
    case Spawn(_, next) => EndsFromEarlier(next, env, t, t', d);
  }

  lemma {:induction false} ResumesFromEarlier(next: Body, caught: Body, env: Env, o: Outcome, t: int, t': int, d: Done)
    requires t <= t' && Resumes(false, next, caught, env, Done(o, t'), d)
    ensures Resumes(false, next, caught, env, Done(o, t), d)
  {
    EndsFromEarlier(if o.Value? then next else caught, env + [o], t, t', d);
  }

  /** Under a real clock what may end may end later. */
  lemma {:induction false} EndsLater(b: Body, env: Env, t: int, d: Done, at: int)
    requires Ends(false, b, env, t, d) && d.at <= at
    ensures Ends(false, b, env, t, Done(d.o, at))
    decreases b, 0
  {
    match b
    case Return(_) =>
    case Throw(_) =>
    case Branch(cond, yes, no) => EndsLater(if cond(env) then yes else no, env, t, d, at);
    case Await(child, next, caught) =>
      var r :| Ends(false, child, env, t, r) && Resumes(false, next, caught, env, r, d);
      ResumesLater(next, caught, env, r, d, at);
    case AwaitEmpty(isVoid, next, caught) => ResumesLater(next, caught, env, Done(EmptyTaskOutcome(isVoid), t), d, at);
    case Sleep(duration, next) => EndsLater(next, env, t + Max(duration(env), 0), d, at);
    case All(children, next, caught) =>
      if children == [] {
        ResumesLater(next, caught, env, Done(Value(Tuple([])), t), d, at);
      } else {
        var rs :| |rs| == |children| && AllEnd(false, children, env, t, rs)
          && Resumes(false, next, caught, env, Joined(rs), d);
        ResumesLater(next, caught, env, Joined(rs), d, at);
      }
    case Any(children, next, caught) =>
      if children == [] {
        ResumesLater(next, caught, env, Done(Raised(INVALID_ARGUMENT), t), d, at);
      } else {
        var i, r :| 0 <= i < |children| && Wins(false, children, env, t, i, r)
          && Resumes(false, next, caught, env, Done(RaceOutcome(i, r.o), r.at), d);
        ResumesLater(next, caught, env, Done(RaceOutcome(i, r.o), r.at), d, at);
      }
    case Spawn(_, next) => EndsLater(next, env, t, d, at);
  }

  lemma {:induction false} ResumesLater(next: Body, caught: Body, env: Env, r: Done, d: Done, at: int)
    requires Resumes(false, next, caught, env, r, d) && d.at <= at
    ensures Resumes(false, next, caught, env, r, Done(d.o, at))
    decreases if r.o.Value? then next else caught, 1
  {
    EndsLater(if r.o.Value? then next else caught, env + [r.o], r.at, d, at);
  }

  // ---- Awaiting nothing ----

  /** `co_await` of an empty `Task<T>` raises `std::logic_error`, of an empty `Task<void>` yields at once. */
  lemma {:induction false} EmptyTaskEnds(x: bool, next: Body, caught: Body, env: Env, t: int, d: Done)
    ensures Ends(x, AwaitEmpty(false, next, caught), env, t, d) <==> Ends(x, caught, env + [Raised(LOGIC_ERROR)], t, d)
    ensures Ends(x, AwaitEmpty(true, next, caught), env, t, d) <==> Ends(x, next, env + [Value(Unit)], t, d)
    ensures LOGIC_ERROR != INVALID_ARGUMENT
  {
  }

  /** A race of nothing raises `std::invalid_argument`, a join of nothing yields the empty tuple, both at once. */
  lemma {:induction false} EmptyCombinatorEnds(x: bool, next: Body, caught: Body, env: Env, t: int, d: Done)
    ensures Ends(x, Any([], next, caught), env, t, d) <==> Ends(x, caught, env + [Raised(INVALID_ARGUMENT)], t, d)
    ensures Ends(x, All([], next, caught), env, t, d) <==> Ends(x, next, env + [Value(Tuple([]))], t, d)
  {
  }
}
