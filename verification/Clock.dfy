/** Time sources. */
module Clocks {
  import opened Wrappers

  /** A time source: `drift(k)` is how far time moves on by itself before the `k`-th call.  A manual clock does not
      drift; any other drift is a possible real clock. */
  class Clock {
    const drift: nat -> nat
    var now: int
    var calls: nat

    constructor (drift: nat -> nat)
      ensures this.drift == drift && now == 0 && calls == 0
    {
      this.drift, now, calls := drift, 0, 0;
    }

    ghost predicate Manual() {
      forall k :: drift(k) == 0
    }

    method Now() returns (t: int)
      modifies this
      ensures t == now && old(now) <= now && (Manual() ==> now == old(now))
      ensures now == old(now) + drift(old(calls)) && calls == old(calls) + 1
    {
      now, calls := now + drift(calls), calls + 1;
      t := now;
    }

    /** Returns once the clock has reached `deadline`; a manual clock jumps there, never backwards. */
    method WaitUntil(deadline: int)
      modifies this
      ensures deadline <= now && old(now) <= now && (Manual() ==> now == Max(old(now), deadline))
    {
      now, calls := Max(now, deadline) + drift(calls), calls + 1;
    }

    /** A scheduler with virtual time jumps to `deadline`, never backwards. */
    method JumpTo(deadline: int)
      modifies this`now
      ensures now == Max(old(now), deadline)
    {
      now := Max(now, deadline);
    }

    /** Tests move a manual clock by hand. */
    method Advance(delta: nat)
      modifies this`now
      ensures now == old(now) + delta
    {
      now := now + delta;
    }
  }
}
