/** Two direct-style readings of a program: what it delivers, and how long it takes. */
module Cost {
  import opened Wrappers
  import opened Programs
  import opened Meaning

  // ---- Race-free programs deliver exactly one outcome, at exactly one time ----

  /** No `WhenAny` decides the outcome: there is none outside detached tasks. */
  ghost predicate RaceFree(b: Body)
    decreases b
  {
    match b
    case Return(_) => true
    case Throw(_) => true
    case Branch(_, yes, no) => RaceFree(yes) && RaceFree(no)
    case Await(child, next, caught) => RaceFree(child) && RaceFree(next) && RaceFree(caught)
    case AwaitEmpty(_, next, caught) => RaceFree(next) && RaceFree(caught)
    case Sleep(_, next) => RaceFree(next)
    case All(children, next, caught) =>
      (forall i :: 0 <= i < |children| ==> RaceFree(children[i])) && RaceFree(next) && RaceFree(caught)
    case Any(_, _, _) => false
    case Spawn(_, next) => RaceFree(next)
  }

  /** The direct-style evaluator: `co_await` is a call, `Sleep` a delay, `WhenAll` evaluates its children side by
      side. */
  function Eval(b: Body, env: Env, t: int): Done
    requires RaceFree(b)
    decreases b, 1
  {
    match b
    case Return(v) => Done(Value(v(env)), t)
    case Throw(e) => Done(Raised(e(env)), t)
    case Branch(cond, yes, no) => if cond(env) then Eval(yes, env, t) else Eval(no, env, t)
    case Await(child, next, caught) =>
      var r := Eval(child, env, t);
      if r.o.Value? then Eval(next, env + [r.o], r.at) else Eval(caught, env + [r.o], r.at)
    case AwaitEmpty(isVoid, next, caught) =>
      var o := EmptyTaskOutcome(isVoid);
      if o.Value? then Eval(next, env + [o], t) else Eval(caught, env + [o], t)
    case Sleep(duration, next) => Eval(next, env, t + Max(duration(env), 0))
    case All(children, next, caught) =>
      if children == [] then Eval(next, env + [Value(Tuple([]))], t)
      else
        var r := Joined(EvalAll(children, env, t));
        if r.o.Value? then Eval(next, env + [r.o], r.at) else Eval(caught, env + [r.o], r.at)
    case Spawn(_, next) => Eval(next, env, t)
  }

  function EvalAll(bs: seq<Body>, env: Env, t: int): (rs: seq<Done>)
    requires forall i :: 0 <= i < |bs| ==> RaceFree(bs[i])
    ensures |rs| == |bs|
    decreases bs, 0
  {
    seq(|bs|, i requires 0 <= i < |bs| => Eval(bs[i], env, t))
  }

  /** The timed meaning of a race-free program under an exact clock is its evaluation. */
  lemma {:induction false} EvalIsMeaning(b: Body, env: Env, t: int, d: Done)
    requires RaceFree(b)
    ensures Ends(true, b, env, t, d) <==> d == Eval(b, env, t)
    decreases b
  {
    match b
    case Return(_) =>
    case Throw(_) =>
    case Branch(cond, yes, no) => EvalIsMeaning(if cond(env) then yes else no, env, t, d);
    case Await(child, next, caught) =>
      var r := Eval(child, env, t);
      EvalIsMeaning(child, env, t, r);
      EvalIsMeaning(if r.o.Value? then next else caught, env + [r.o], r.at, d);
      forall q | Ends(true, child, env, t, q) ensures q == r {
        EvalIsMeaning(child, env, t, q);
      }
      assert Resumes(true, next, caught, env, r, d) <==> d == Eval(b, env, t);
    case AwaitEmpty(isVoid, next, caught) =>
      var o := EmptyTaskOutcome(isVoid);
      EvalIsMeaning(if o.Value? then next else caught, env + [o], t, d);
    case Sleep(duration, next) => EvalIsMeaning(next, env, t + Max(duration(env), 0), d);
    case All(children, next, caught) =>
      if children == [] {
        EvalIsMeaning(next, env + [Value(Tuple([]))], t, d);
      } else {
        EvalAllIsMeaning(children, env, t);
        var rs := EvalAll(children, env, t);
        var r := Joined(rs);
        EvalIsMeaning(if r.o.Value? then next else caught, env + [r.o], r.at, d);
        assert AllEnd(true, children, env, t, rs);
        assert Resumes(true, next, caught, env, r, d) <==> d == Eval(b, env, t);
      }
    case Spawn(_, next) => EvalIsMeaning(next, env, t, d);
  }

  lemma {:induction false} EvalAllIsMeaning(bs: seq<Body>, env: Env, t: int)
    requires forall i :: 0 <= i < |bs| ==> RaceFree(bs[i])
    ensures forall qs: seq<Done> {:trigger AllEnd(true, bs, env, t, qs)} ::
      |qs| == |bs| ==> (AllEnd(true, bs, env, t, qs) <==> qs == EvalAll(bs, env, t))
    decreases bs
  {
    forall qs: seq<Done> | |qs| == |bs|
      ensures AllEnd(true, bs, env, t, qs) <==> qs == EvalAll(bs, env, t)
    {
      forall i | 0 <= i < |bs| ensures Ends(true, bs[i], env, t, qs[i]) <==> qs[i] == EvalAll(bs, env, t)[i] {
        EvalIsMeaning(bs[i], env, t, qs[i]);
      }
    }
  }

  /** The evaluator on empty tasks and joins of nothing. */
  lemma {:induction false} EvalOfNothing(next: Body, caught: Body, env: Env, t: int)
    requires RaceFree(next) && RaceFree(caught)
    ensures RaceFree(AwaitEmpty(false, next, caught)) && RaceFree(AwaitEmpty(true, next, caught))
    ensures RaceFree(All([], next, caught))
    ensures Eval(AwaitEmpty(false, next, caught), env, t) == Eval(caught, env + [Raised(LOGIC_ERROR)], t)
    ensures Eval(AwaitEmpty(true, next, caught), env, t) == Eval(next, env + [Value(Unit)], t)
    ensures Eval(All([], next, caught), env, t) == Eval(next, env + [Value(Tuple([]))], t)
  {
  }

  /** Under any clock it delivers the same outcome, and never sooner. */
  lemma {:induction false} EvalBoundsMeaning(b: Body, env: Env, t: int, d: Done)
    requires RaceFree(b) && Ends(false, b, env, t, d)
    ensures d.o == Eval(b, env, t).o && Eval(b, env, t).at <= d.at
    decreases b, 1
  {
    match b
    case Return(_) =>
    case Throw(_) =>
    case Branch(cond, yes, no) => EvalBoundsMeaning(if cond(env) then yes else no, env, t, d);
    case Await(child, next, caught) =>
      var r :| Ends(false, child, env, t, r) && Resumes(false, next, caught, env, r, d);
      EvalBoundsMeaning(child, env, t, r);
      ResumesFromEarlier(next, caught, env, r.o, Eval(child, env, t).at, r.at, d);
      EvalBoundsMeaning(if r.o.Value? then next else caught, env + [r.o], Eval(child, env, t).at, d);
    case AwaitEmpty(isVoid, next, caught) =>
      var o := EmptyTaskOutcome(isVoid);
      EvalBoundsMeaning(if o.Value? then next else caught, env + [o], t, d);
    case Sleep(duration, next) => EvalBoundsMeaning(next, env, t + Max(duration(env), 0), d);
    case All(_, _, _) => EvalBoundsAll(b, env, t, d);
    case Spawn(_, next) => EvalBoundsMeaning(next, env, t, d);
  }

  lemma {:induction false} EvalBoundsAll(b: Body, env: Env, t: int, d: Done)
    requires b.All? && RaceFree(b) && Ends(false, b, env, t, d)
    ensures d.o == Eval(b, env, t).o && Eval(b, env, t).at <= d.at
    decreases b, 0
  {
    var All(children, next, caught) := b;
    if children == [] {
      EvalBoundsMeaning(next, env + [Value(Tuple([]))], t, d);
    } else {
      var rs: seq<Done> :| |rs| == |children| && AllEnd(false, children, env, t, rs)
        && Resumes(false, next, caught, env, Joined(rs), d);
      var es := EvalAll(children, env, t);
      forall i | 0 <= i < |rs| ensures rs[i].o == es[i].o && es[i].at <= rs[i].at {
        EvalBoundsMeaning(children[i], env, t, rs[i]);
      }
      assert Outcomes(rs) == Outcomes(es);
      ResumesFromEarlier(next, caught, env, Joined(rs).o, Latest(es), Latest(rs), d);
      var o := Joined(es).o;
      EvalBoundsMeaning(if o.Value? then next else caught, env + [o], Latest(es), d);
    }
  }

  // ---- Steady programs take a time that can be read off ----

  /** Nothing throws, races have runners, and control flow and durations do not depend on values. */
  ghost predicate Steady(b: Body)
    decreases b
  {
    match b
    case Return(_) => true
    case Throw(_) => false
    case Branch(_, _, _) => false
    case Await(child, next, _) => Steady(child) && Steady(next)
    case AwaitEmpty(isVoid, next, _) => isVoid && Steady(next)
    case Sleep(duration, next) => (forall env :: duration(env) == duration([])) && Steady(next)
    case All(children, next, _) => (forall i :: 0 <= i < |children| ==> Steady(children[i])) && Steady(next)
    case Any(children, next, _) =>
      children != [] && (forall i :: 0 <= i < |children| ==> Steady(children[i])) && Steady(next)
    case Spawn(_, next) => Steady(next)
  }

  /** Sleeping costs its duration, sequencing adds, `WhenAll` costs the maximum and `WhenAny` the minimum. */
  function Duration(b: Body): (c: nat)
    decreases b
  {
    match b
    case Await(child, next, _) => Duration(child) + Duration(next)
    case AwaitEmpty(_, next, _) => Duration(next)
    case Sleep(duration, next) => Max(duration([]), 0) + Duration(next)
    case All(children, next, _) => Longest(children) + Duration(next)
    case Any(children, next, _) => (if children == [] then 0 else Shortest(children)) + Duration(next)
    case Spawn(_, next) => Duration(next)
    case _ => 0
  }

  function Longest(bs: seq<Body>): (c: nat)
    ensures forall i :: 0 <= i < |bs| ==> Duration(bs[i]) <= c
    ensures bs != [] ==> exists i :: 0 <= i < |bs| && Duration(bs[i]) == c
    ensures bs == [] ==> c == 0
    decreases bs
  {
    if bs == [] then 0
    else
      var m := Longest(bs[..|bs| - 1]);
      assert forall i :: 0 <= i < |bs| - 1 ==> bs[i] == bs[..|bs| - 1][i];
      Max(m, Duration(bs[|bs| - 1]))
  }

  function Shortest(bs: seq<Body>): (c: nat)
    requires bs != []
    ensures forall i :: 0 <= i < |bs| ==> c <= Duration(bs[i])
    ensures exists i :: 0 <= i < |bs| && Duration(bs[i]) == c
    decreases bs
  {
    if |bs| == 1 then Duration(bs[0])
    else
      var m := Shortest(bs[..|bs| - 1]);
      assert forall i :: 0 <= i < |bs| - 1 ==> bs[i] == bs[..|bs| - 1][i];
      if Duration(bs[|bs| - 1]) < m then Duration(bs[|bs| - 1]) else m
  }

  /** A steady program started at `t` ends normally at exactly `t + Duration`; under a real clock, not before. */
  lemma {:induction false} SteadyEnds(x: bool, b: Body, env: Env, t: int, d: Done)
    requires Steady(b) && Ends(x, b, env, t, d)
    ensures d.o.Value? && Reads(x, t + Duration(b), d.at)
    decreases b
  {
    match b
    case Return(_) =>
    case Await(child, next, caught) =>
      var r :| Ends(x, child, env, t, r) && Resumes(x, next, caught, env, r, d);
      SteadyEnds(x, child, env, t, r);
      SteadyEnds(x, next, env + [r.o], r.at, d);
    case AwaitEmpty(isVoid, next, caught) => SteadyEnds(x, next, env + [EmptyTaskOutcome(isVoid)], t, d);
    case Sleep(duration, next) => SteadyEnds(x, next, env, t + Max(duration(env), 0), d);
    case All(_, _, _) => SteadyAllEnds(x, b, env, t, d);
    case Any(children, next, caught) =>
      var i, r :| 0 <= i < |children| && Wins(x, children, env, t, i, r)
        && Resumes(x, next, caught, env, Done(RaceOutcome(i, r.o), r.at), d);
      SteadyEnds(x, children[i], env, t, r);
      WinnerIsShortest(x, children, env, t, i, r);
      SteadyEnds(x, next, env + [RaceOutcome(i, r.o)], r.at, d);
    case Spawn(_, next) => SteadyEnds(x, next, env, t, d);
  }

  lemma {:induction false} SteadyAllEnds(x: bool, b: Body, env: Env, t: int, d: Done)
    requires b.All? && Steady(b) && Ends(x, b, env, t, d)
    ensures d.o.Value? && Reads(x, t + Duration(b), d.at)
    decreases b, 0
  {
    var All(children, next, caught) := b;
    if children == [] {
      SteadyEnds(x, next, env + [Value(Tuple([]))], t, d);
    } else {
      var rs: seq<Done> :| |rs| == |children| && AllEnd(x, children, env, t, rs)
        && Resumes(x, next, caught, env, Joined(rs), d);
      SteadyChildrenEnd(x, children, env, t, rs);
      SteadyEnds(x, next, env + [Joined(rs).o], Latest(rs), d);
    }
  }

  lemma {:induction false} SteadyChildrenEnd(x: bool, bs: seq<Body>, env: Env, t: int, rs: seq<Done>)
    requires |rs| == |bs| > 0 && AllEnd(x, bs, env, t, rs) && forall i :: 0 <= i < |bs| ==> Steady(bs[i])
    ensures Joined(rs).o.Value? && Reads(x, t + Longest(bs), Latest(rs))
    decreases bs
  {
    forall i | 0 <= i < |rs| ensures rs[i].o.Value? && Reads(x, t + Duration(bs[i]), rs[i].at) {
      SteadyEnds(x, bs[i], env, t, rs[i]);
    }
    LatestIsLongest(x, bs, t, rs);
    ValuesJoin(rs);
  }

  lemma {:induction false} ValuesJoin(rs: seq<Done>)
    requires rs != [] && forall i :: 0 <= i < |rs| ==> rs[i].o.Value?
    ensures Joined(rs).o.Value?
  {
    assert forall i :: 0 <= i < |rs| ==> Outcomes(rs)[i] == rs[i].o;
  }

  lemma {:induction false} LatestIsLongest(x: bool, bs: seq<Body>, t: int, rs: seq<Done>)
    requires |rs| == |bs| > 0
    requires forall i :: 0 <= i < |rs| ==> Reads(x, t + Duration(bs[i]), rs[i].at)
    ensures Reads(x, t + Longest(bs), Latest(rs))
  {
    var i :| 0 <= i < |bs| && Duration(bs[i]) == Longest(bs);
    assert t + Longest(bs) <= rs[i].at <= Latest(rs);
    var j :| 0 <= j < |rs| && rs[j].at == Latest(rs);
    assert Duration(bs[j]) <= Longest(bs);
  }

  lemma {:induction false} WinnerIsShortest(x: bool, bs: seq<Body>, env: Env, t: int, i: nat, r: Done)
    requires bs != [] && i < |bs| && Wins(x, bs, env, t, i, r) && Reads(x, t + Duration(bs[i]), r.at)
    requires forall j :: 0 <= j < |bs| ==> Steady(bs[j])
    ensures Reads(x, t + Shortest(bs), r.at)
    decreases bs
  {
    assert Shortest(bs) <= Duration(bs[i]);
    var j :| 0 <= j < |bs| && Duration(bs[j]) == Shortest(bs);
    assert Outlasts(x, bs[j], env, t, r.at);
    var q :| Ends(x, bs[j], env, t, q) && r.at <= q.at;
    SteadyEnds(x, bs[j], env, t, q);
  }
}
