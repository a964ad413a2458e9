/** Timer entries and the order in which they become due. */
module Timers {
  /** A `std::coroutine_handle`: the name of a frame. */
  type Handle = nat

  datatype Timer = Timer(when: int, handle: Handle)

  ghost predicate Sorted(ts: seq<Timer>) {
    forall i, j :: 0 <= i < j < |ts| ==> ts[i].when <= ts[j].when
  }

  /** Inserts behind every entry that is not due later. */
  function Insert(ts: seq<Timer>, x: Timer): seq<Timer> {
    if ts == [] || ts[|ts| - 1].when <= x.when then ts + [x]
    else Insert(ts[..|ts| - 1], x) + [ts[|ts| - 1]]
  }

  function InsertAll(ts: seq<Timer>, xs: seq<Timer>): seq<Timer> {
    if xs == [] then ts else Insert(InsertAll(ts, xs[..|xs| - 1]), xs[|xs| - 1])
  }

  /** How many leading entries are due. */
  function DueCount(ts: seq<Timer>, now: int): (n: nat)
    ensures n <= |ts|
    ensures forall i :: 0 <= i < n ==> ts[i].when <= now
    ensures n < |ts| ==> now < ts[n].when
  {
    if ts == [] || now < ts[0].when then 0 else 1 + DueCount(ts[1..], now)
  }

  function HandlesOf(ts: seq<Timer>): seq<Handle> {
    seq(|ts|, i requires 0 <= i < |ts| => ts[i].handle)
  }

  ghost predicate AllAfter(ts: seq<Timer>, now: int) {
    forall i :: 0 <= i < |ts| ==> now < ts[i].when
  }

  ghost predicate AllBy(ts: seq<Timer>, now: int) {
    forall i :: 0 <= i < |ts| ==> ts[i].when <= now
  }

  lemma {:induction false} InsertLaws(ts: seq<Timer>, x: Timer)
    requires Sorted(ts)
    ensures Sorted(Insert(ts, x)) && multiset(Insert(ts, x)) == multiset(ts) + multiset{x}
    ensures |Insert(ts, x)| == |ts| + 1
  {
    if ts != [] && ts[|ts| - 1].when > x.when {
      var init, last := ts[..|ts| - 1], ts[|ts| - 1];
      assert ts == init + [last];
      InsertLaws(init, x);
      InsertBound(init, x, last.when);
      SortedThenLast(Insert(init, x), last);
    }
  }

  lemma {:induction false} SortedThenLast(ts: seq<Timer>, last: Timer)
    requires Sorted(ts) && AllBy(ts, last.when)
    ensures Sorted(ts + [last])
  {
  }

  lemma {:induction false} InsertBound(ts: seq<Timer>, x: Timer, w: int)
    requires AllBy(ts, w) && x.when <= w
    ensures AllBy(Insert(ts, x), w)
  {
    if ts != [] && ts[|ts| - 1].when > x.when {
      InsertBound(ts[..|ts| - 1], x, w);
    }
  }

  lemma {:induction false} InsertAllLaws(ts: seq<Timer>, xs: seq<Timer>)
    requires Sorted(ts)
    ensures Sorted(InsertAll(ts, xs)) && multiset(InsertAll(ts, xs)) == multiset(ts) + multiset(xs)
  {
    if xs == [] {
      assert multiset(ts) + multiset(xs) == multiset(ts);
    } else {
      var init, last := xs[..|xs| - 1], xs[|xs| - 1];
      InsertAllLaws(ts, init);
      InsertLaws(InsertAll(ts, init), last);
      assert xs == init + [last];
    }
  }

  lemma {:induction false} InsertAllAppend(ts: seq<Timer>, xs: seq<Timer>, ys: seq<Timer>)
    ensures InsertAll(ts, xs + ys) == InsertAll(InsertAll(ts, xs), ys)
  {
    if ys == [] {
      assert xs + ys == xs;
    } else {
      var n := |ys| - 1;
      InsertAllAppend(ts, xs, ys[..n]);
      assert (xs + ys)[..|xs + ys| - 1] == xs + ys[..n];
    }
  }

  lemma {:induction false} InsertOneMore(ts: seq<Timer>, xs: seq<Timer>, i: nat)
    requires i < |xs|
    ensures InsertAll(ts, xs[..i + 1]) == Insert(InsertAll(ts, xs[..i]), xs[i])
  {
    assert xs[..i + 1][..i] == xs[..i];
  }

  /** Entries that are not due earlier go in behind. */
  lemma {:induction false} InsertBehind(front: seq<Timer>, ts: seq<Timer>, x: Timer)
    requires AllBy(front, x.when)
    ensures Insert(front + ts, x) == front + Insert(ts, x)
  {
    if ts == [] {
      assert front + ts == front;
      assert front == [] || front[|front| - 1].when <= x.when;
    } else if ts[|ts| - 1].when <= x.when {
      assert (front + ts)[|front + ts| - 1] == ts[|ts| - 1];
    } else {
      var n := |ts| - 1;
      assert (front + ts)[..|front + ts| - 1] == front + ts[..n];
      InsertBehind(front, ts[..n], x);
    }
  }

  lemma {:induction false} InsertAllBehind(front: seq<Timer>, ts: seq<Timer>, xs: seq<Timer>, now: int)
    requires AllBy(front, now) && AllAfter(xs, now)
    ensures InsertAll(front + ts, xs) == front + InsertAll(ts, xs)
  {
    if xs != [] {
      var n := |xs| - 1;
      InsertAllBehind(front, ts, xs[..n], now);
      InsertBehind(front, InsertAll(ts, xs[..n]), xs[n]);
    }
  }

  // ---- Insertion is a stable sort ----

  /** The entries with one deadline, in order. */
  ghost function At(ts: seq<Timer>, w: int): seq<Timer> {
    if ts == [] then []
    else At(ts[..|ts| - 1], w) + if ts[|ts| - 1].when == w then [ts[|ts| - 1]] else []
  }

  lemma {:induction false} AtInsert(ts: seq<Timer>, x: Timer, w: int)
    ensures At(Insert(ts, x), w) == At(ts, w) + if x.when == w then [x] else []
  {
    hide At;
    if ts == [] || ts[|ts| - 1].when <= x.when {
      AtLonger(ts, x, w);
    } else {
      var n := |ts| - 1;
      AtInsert(ts[..n], x, w);
      assert ts == ts[..n] + [ts[n]];
      AtLonger(ts[..n], ts[n], w);
      AtLonger(Insert(ts[..n], x), ts[n], w);
    }
  }

  lemma {:induction false} AtLonger(ts: seq<Timer>, t: Timer, w: int)
    ensures At(ts + [t], w) == At(ts, w) + if t.when == w then [t] else []
  {
    assert (ts + [t])[..|ts|] == ts;
  }

  /** Inserting one by one sorts by deadline and keeps entries with equal deadlines in insertion order. */
  lemma {:induction false} InsertAllIsStableSort(xs: seq<Timer>)
    ensures Sorted(InsertAll([], xs)) && multiset(InsertAll([], xs)) == multiset(xs)
    ensures forall w {:trigger At(xs, w)} :: At(InsertAll([], xs), w) == At(xs, w)
  {
    InsertAllLaws([], xs);
    forall w ensures At(InsertAll([], xs), w) == At(xs, w) {
      AtInsertAll(xs, w);
    }
  }

  lemma {:induction false} AtInsertAll(xs: seq<Timer>, w: int)
    ensures At(InsertAll([], xs), w) == At(xs, w)
  {
    if xs != [] {
      var n := |xs| - 1;
      AtInsertAll(xs[..n], w);
      AtInsert(InsertAll([], xs[..n]), xs[n], w);
    }
  }

  /** A list is the stable sort of another if it is sorted and agrees with it on every deadline. */
  lemma {:induction false} StableSortIsUnique(a: seq<Timer>, b: seq<Timer>)
    requires Sorted(a) && Sorted(b) && |a| == |b| && forall w {:trigger At(a, w)} :: At(a, w) == At(b, w)
    ensures a == b
  {
    if a != [] {
      var n := |a| - 1;
      AtLast(a, b);
      forall w ensures At(a[..n], w) == At(b[..n], w) {
        assert At(a, w) == At(b, w);
        var x := if a[n].when == w then [a[n]] else [];
        assert (At(a[..n], w) + x)[..|At(a[..n], w)|] == At(a[..n], w);
        assert (At(b[..n], w) + x)[..|At(b[..n], w)|] == At(b[..n], w);
      }
      StableSortIsUnique(a[..n], b[..n]);
      assert a == a[..n] + [a[n]] && b == b[..n] + [b[n]];
    }
  }

  lemma {:induction false} AtLast(a: seq<Timer>, b: seq<Timer>)
    requires Sorted(a) && Sorted(b) && |a| == |b| > 0 && forall w {:trigger At(a, w)} :: At(a, w) == At(b, w)
    ensures a[|a| - 1] == b[|b| - 1]
  {
    var x, y := a[|a| - 1], b[|b| - 1];
    assert At(a, x.when) == At(b, x.when);
    assert At(a, y.when) == At(b, y.when);
    if x.when != y.when {
      if x.when < y.when {
        assert At(b, y.when)[|At(b, y.when)| - 1] == y;
        AtNone(a, y.when);
      } else {
        assert At(a, x.when)[|At(a, x.when)| - 1] == x;
        AtNone(b, x.when);
      }
    } else {
      assert At(a, x.when)[|At(a, x.when)| - 1] == x;
      assert At(b, x.when)[|At(b, x.when)| - 1] == y;
    }
  }

  lemma {:induction false} AtNone(ts: seq<Timer>, w: int)
    requires forall i :: 0 <= i < |ts| ==> ts[i].when < w
    ensures At(ts, w) == []
  {
    if ts != [] {
      AtNone(ts[..|ts| - 1], w);
    }
  }
}
