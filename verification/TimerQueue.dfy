/** The timer heap, in place in a growable array, and the sorted list it refines. */
module TimerHeap {
  import opened Wrappers
  import opened Timers

  datatype HeapEntry = HeapEntry(when: int, handle: Handle, sequence: nat)

  /** The strict weak order of the heap: latest first, later insertion first among equal deadlines. */
  predicate Later(a: HeapEntry, b: HeapEntry) {
    if a.when != b.when then a.when > b.when else a.sequence > b.sequence
  }

  /** Entry `j` is no earlier than its parent. */
  ghost predicate ParentFirst(s: seq<HeapEntry>, j: nat)
    requires 0 < j < |s|
  {
    !Later(s[(j - 1) / 2], s[j])
  }

  ghost predicate IsHeap(s: seq<HeapEntry>) {
    forall j {:trigger ParentFirst(s, j)} :: 0 < j < |s| ==> ParentFirst(s, j)
  }

  /** The children of `i` are no earlier than its own parent. */
  ghost predicate SkipsOver(s: seq<HeapEntry>, i: nat)
    requires i <= |s|
  {
    forall j {:trigger s[j]} :: 0 < j < |s| && (j - 1) / 2 == i > 0 ==> !Later(s[(i - 1) / 2], s[j])
  }

  /** A heap but for the entry at `i`, which may be too early for its place. */
  ghost predicate RisesAt(s: seq<HeapEntry>, i: nat)
    requires i < |s|
  {
    SkipsOver(s, i) && forall j {:trigger ParentFirst(s, j)} :: 0 < j < |s| && j != i ==> ParentFirst(s, j)
  }

  /** A heap but for the entry at `i`, which may be too late for its place. */
  ghost predicate SinksAt(s: seq<HeapEntry>, i: nat)
    requires i <= |s|
  {
    SkipsOver(s, i) && forall j {:trigger ParentFirst(s, j)} :: 0 < j < |s| && (j - 1) / 2 != i ==> ParentFirst(s, j)
  }

  ghost function Swapped(s: seq<HeapEntry>, i: nat, j: nat): seq<HeapEntry>
    requires i < |s| && j < |s|
  {
    s[i := s[j]][j := s[i]]
  }

  lemma {:induction false} SwapKeepsEntries(s: seq<HeapEntry>, i: nat, j: nat)
    requires i < |s| && j < |s|
    ensures multiset(Swapped(s, i, j)) == multiset(s)
  {
  }

  lemma {:induction false} RiseOne(s: seq<HeapEntry>, i: nat)
    requires 0 < i < |s| && RisesAt(s, i) && Later(s[(i - 1) / 2], s[i])
    ensures RisesAt(Swapped(s, i, (i - 1) / 2), (i - 1) / 2)
  {
    var p := (i - 1) / 2;
    var t := Swapped(s, i, p);
    forall j | 0 < j < |t| && j != p ensures ParentFirst(t, j) {
      assert t[j] == if j == i then s[p] else s[j];
      assert j != i ==> ParentFirst(s, j);
    }
    forall j {:trigger t[j]} | 0 < j < |t| && (j - 1) / 2 == p > 0 ensures !Later(t[(p - 1) / 2], t[j]) {
      assert t[j] == if j == i then s[p] else s[j];
      assert ParentFirst(s, p) && (j != i ==> ParentFirst(s, j));
    }
  }

  lemma {:induction false} RiseDone(s: seq<HeapEntry>, i: nat)
    requires i < |s| && RisesAt(s, i) && (i > 0 ==> ParentFirst(s, i))
    ensures IsHeap(s)
  {
  }

  /** `c` is an earliest child of `i`; the children of `i` are at `2i + 1` and `2i + 2`. */
  ghost predicate IsSmallestChild(s: seq<HeapEntry>, i: nat, c: nat) {
    && c < |s| && (c == 2 * i + 1 || c == 2 * i + 2)
    && !Later(s[c], s[2 * i + 1]) && (2 * i + 2 < |s| ==> !Later(s[c], s[2 * i + 2]))
  }

  lemma {:induction false} SmallestChild(s: seq<HeapEntry>, i: nat, c: nat, j: nat)
    requires IsSmallestChild(s, i, c) && 0 < j < |s| && (j - 1) / 2 == i
    ensures !Later(s[c], s[j])
  {
    assert j == 2 * i + 1 || j == 2 * i + 2;
  }

  lemma {:induction false} SinkOne(s: seq<HeapEntry>, i: nat, c: nat)
    requires i < |s| && SinksAt(s, i) && IsSmallestChild(s, i, c) && Later(s[i], s[c])
    ensures SinksAt(Swapped(s, i, c), c)
  {
    var t := Swapped(s, i, c);
    forall j | 0 < j < |t| && (j - 1) / 2 != c ensures ParentFirst(t, j) {
      assert t[j] == if j == i then s[c] else if j == c then s[i] else s[j];
      if (j - 1) / 2 == i {
        SmallestChild(s, i, c, j);
      } else {
        assert ParentFirst(s, j);
      }
      assert i > 0 ==> !Later(s[(i - 1) / 2], s[c]);
    }
    forall j {:trigger t[j]} | 0 < j < |t| && (j - 1) / 2 == c > 0 ensures !Later(t[(c - 1) / 2], t[j]) {
      assert t[j] == s[j] && ParentFirst(s, j);
    }
  }

  lemma {:induction false} SinkDone(s: seq<HeapEntry>, i: nat, c: nat)
    requires i < |s| && SinksAt(s, i)
    requires 2 * i + 1 < |s| ==> IsSmallestChild(s, i, c) && !Later(s[i], s[c])
    ensures IsHeap(s)
  {
    forall j | 0 < j < |s| && (j - 1) / 2 == i ensures ParentFirst(s, j) {
      SmallestChild(s, i, c, j);
    }
  }

  /** The front of a heap is an earliest entry. */
  lemma {:induction false} FrontIsEarliest(s: seq<HeapEntry>, j: nat)
    requires IsHeap(s) && j < |s|
    ensures !Later(s[0], s[j])
    decreases j
  {
    if j > 0 {
      assert ParentFirst(s, j);
      FrontIsEarliest(s, (j - 1) / 2);
    }
  }

  lemma {:induction false} HeapPrefix(s: seq<HeapEntry>, x: HeapEntry)
    requires IsHeap(s)
    ensures RisesAt(s + [x], |s|)
  {
    var t := s + [x];
    forall j | 0 < j < |t| && j != |s| ensures ParentFirst(t, j) {
      assert ParentFirst(s, j);
    }
  }

  /** `push_heap`: the entry behind a heap moves up to its place. */
  method PushHeap(a: array<HeapEntry>, n: nat)
    requires 0 < n <= a.Length && IsHeap(a[..n - 1])
    modifies a
    ensures IsHeap(a[..n]) && multiset(a[..n]) == old(multiset(a[..n]))
  {
    var i := n - 1;
    ghost var s := a[..n];
    assert s == a[..n - 1] + [a[n - 1]];
    HeapPrefix(a[..n - 1], a[n - 1]);
    while i > 0 && Later(a[(i - 1) / 2], a[i])
      invariant i < n && s == a[..n] && RisesAt(s, i)
      invariant multiset(s) == old(multiset(a[..n]))
    {
      var p := (i - 1) / 2;
      RiseOne(s, i);
      SwapKeepsEntries(s, i, p);
      a[i], a[p] := a[p], a[i];
      s := Swapped(s, i, p);
      i := p;
    }
    RiseDone(s, i);
  }

  /** The front of a heap gives way to its last entry. */
  lemma {:induction false} HeapLosesFront(s: seq<HeapEntry>)
    requires IsHeap(s) && s != []
    ensures SinksAt(Swapped(s, 0, |s| - 1)[..|s| - 1], 0)
  {
    var t := Swapped(s, 0, |s| - 1)[..|s| - 1];
    forall j | 0 < j < |t| && (j - 1) / 2 != 0 ensures ParentFirst(t, j) {
      assert ParentFirst(s, j);
    }
  }

  /** Moves the front of `a[..m]` down to its place. */
  method SiftDown(a: array<HeapEntry>, m: nat)
    requires m <= a.Length && SinksAt(a[..m], 0)
    modifies a
    ensures IsHeap(a[..m]) && multiset(a[..m]) == old(multiset(a[..m]))
    ensures a[m..] == old(a[m..])
  {
    hide SinksAt, IsHeap, Later;
    ghost var s, rest := a[..m], a[m..];
    if m == 0 {
      EmptyHeap(s);
      return;
    }
    var i := 0;
    while 2 * i + 1 < m
      invariant 0 <= i < m == |s| && s == a[..m] && SinksAt(s, i) && a[m..] == rest
      invariant multiset(s) == old(multiset(a[..m]))
    {
      var c := 2 * i + 1;
      if c + 1 < m && Later(a[c], a[c + 1]) {
        c := c + 1;
      }
      SmallerOfTwo(s, i, c);
      if !Later(a[i], a[c]) {
        SinkDone(s, i, c);
        return;
      }
      SinkOne(s, i, c);
      SwapKeepsEntries(s, i, c);
      a[i], a[c] := a[c], a[i];
      s, i := Swapped(s, i, c), c;
    }
    SinkDone(s, i, i);
  }

  lemma {:induction false} EmptyHeap(s: seq<HeapEntry>)
    requires s == []
    ensures IsHeap(s)
  {
  }

  lemma {:induction false} SmallerOfTwo(s: seq<HeapEntry>, i: nat, c: nat)
    requires 2 * i + 1 < |s|
    requires c == if 2 * i + 2 < |s| && Later(s[2 * i + 1], s[2 * i + 2]) then 2 * i + 2 else 2 * i + 1
    ensures IsSmallestChild(s, i, c)
  {
  }

  /** The first step of `pop_heap`: the front and the last entry change places. */
  method SwapEnds(a: array<HeapEntry>, n: nat)
    requires 0 < n <= a.Length && IsHeap(a[..n])
    modifies a
    ensures a[n - 1] == old(a[0]) && SinksAt(a[..n - 1], 0)
    ensures multiset(a[..n - 1]) + multiset{a[n - 1]} == old(multiset(a[..n]))
  {
    hide SinksAt, IsHeap, Later;
    ghost var s := a[..n];
    a[0], a[n - 1] := a[n - 1], a[0];
    EndsSwapped(s, a[..n]);
    assert a[..n][..n - 1] == a[..n - 1];
  }

  lemma {:induction false} EndsSwapped(s: seq<HeapEntry>, t: seq<HeapEntry>)
    requires IsHeap(s) && |s| == |t| > 0 && t[0] == s[|s| - 1] && t[|s| - 1] == s[0]
    requires forall k :: 0 < k < |s| - 1 ==> t[k] == s[k]
    ensures SinksAt(t[..|s| - 1], 0) && multiset(t[..|s| - 1]) + multiset{t[|s| - 1]} == multiset(s)
  {
    HeapLosesFront(s);
    SwapKeepsEntries(s, 0, |s| - 1);
    assert t == Swapped(s, 0, |s| - 1);
    assert t == t[..|s| - 1] + [t[|s| - 1]];
  }

  /** `pop_heap`: the front moves to the back, and the rest is a heap again. */
  method PopHeap(a: array<HeapEntry>, n: nat)
    requires 0 < n <= a.Length && IsHeap(a[..n])
    modifies a
    ensures a[n - 1] == old(a[0]) && IsHeap(a[..n - 1]) && multiset(a[..n]) == old(multiset(a[..n]))
  {
    hide SinksAt, IsHeap, Later;
    SwapEnds(a, n);
    ghost var front := a[n - 1..];
    SiftDown(a, n - 1);
    assert a[n - 1] == front[0];
    assert a[..n] == a[..n - 1] + [a[n - 1]];
  }

  // ---- The sorted list that the heap represents ----

  ghost predicate Earlier(a: HeapEntry, b: HeapEntry) {
    a.when < b.when || (a.when == b.when && a.sequence < b.sequence)
  }

  ghost predicate SortedEntries(es: seq<HeapEntry>) {
    forall i, j :: 0 <= i < j < |es| ==> Earlier(es[i], es[j])
  }

  ghost predicate Before(es: seq<HeapEntry>, next: nat) {
    forall i :: 0 <= i < |es| ==> es[i].sequence < next
  }

  ghost function TimersOf(es: seq<HeapEntry>): (ts: seq<Timer>)
    ensures |ts| == |es|
    ensures forall i :: 0 <= i < |es| ==> ts[i] == Timer(es[i].when, es[i].handle)
  {
    seq(|es|, i requires 0 <= i < |es| => Timer(es[i].when, es[i].handle))
  }

  ghost function InsertEntry(es: seq<HeapEntry>, x: HeapEntry): seq<HeapEntry> {
    if es == [] || es[|es| - 1].when <= x.when then es + [x]
    else InsertEntry(es[..|es| - 1], x) + [es[|es| - 1]]
  }

  lemma {:induction false} InsertEntryLaws(es: seq<HeapEntry>, x: HeapEntry)
    requires SortedEntries(es) && Before(es, x.sequence)
    ensures SortedEntries(InsertEntry(es, x)) && multiset(InsertEntry(es, x)) == multiset(es) + multiset{x}
    ensures forall e :: e in InsertEntry(es, x) ==> e in es || e == x
  {
    if es != [] && es[|es| - 1].when > x.when {
      var init, last := es[..|es| - 1], es[|es| - 1];
      InsertEntryLaws(init, x);
      assert es == init + [last];
      InsertEntrySorted(es, x, InsertEntry(init, x));
    }
  }

  lemma {:induction false} TimersOfAppend(es: seq<HeapEntry>, x: HeapEntry)
    ensures TimersOf(es + [x]) == TimersOf(es) + [Timer(x.when, x.handle)]
  {
  }

  /** Without the sequence numbers it is insertion behind every entry that is not due later. */
  lemma {:induction false} InsertEntryTimers(es: seq<HeapEntry>, x: HeapEntry)
    ensures TimersOf(InsertEntry(es, x)) == Insert(TimersOf(es), Timer(x.when, x.handle))
  {
    hide TimersOf;
    if es == [] || es[|es| - 1].when <= x.when {
      TimersOfAppend(es, x);
    } else {
      var init, last := es[..|es| - 1], es[|es| - 1];
      InsertEntryTimers(init, x);
      assert es == init + [last];
      TimersOfAppend(init, last);
      TimersOfAppend(InsertEntry(init, x), last);
      assert (TimersOf(init) + [Timer(last.when, last.handle)])[..|init|] == TimersOf(init);
    }
  }

  lemma {:induction false} InsertEntryBefore(es: seq<HeapEntry>, x: HeapEntry)
    requires Before(es, x.sequence) && forall e :: e in InsertEntry(es, x) ==> e in es || e == x
    ensures Before(InsertEntry(es, x), x.sequence + 1)
  {
    var r := InsertEntry(es, x);
    forall i | 0 <= i < |r| ensures r[i].sequence < x.sequence + 1 {
      assert r[i] in r;
    }
  }

  lemma {:induction false} InsertEntrySorted(es: seq<HeapEntry>, x: HeapEntry, r: seq<HeapEntry>)
    requires SortedEntries(es) && es != [] && es[|es| - 1].when > x.when
    requires SortedEntries(r) && forall e :: e in r ==> e in es[..|es| - 1] || e == x
    ensures SortedEntries(r + [es[|es| - 1]])
  {
    var last := es[|es| - 1];
    forall i | 0 <= i < |r| ensures Earlier(r[i], last) {
      assert r[i] in r;
    }
  }

  /** A heap and a sorted list with the same entries have the same front. */
  lemma {:induction false} FrontsAgree(heap: seq<HeapEntry>, es: seq<HeapEntry>)
    requires IsHeap(heap) && SortedEntries(es) && multiset(heap) == multiset(es) && heap != []
    ensures es != [] && heap[0] == es[0]
  {
    assert multiset(heap)[heap[0]] > 0;
    assert heap[0] in es;
    var i :| 0 <= i < |es| && es[i] == heap[0];
    assert multiset(es)[es[0]] > 0;
    assert es[0] in heap;
    var j :| 0 <= j < |heap| && heap[j] == es[0];
    FrontIsEarliest(heap, j);
  }

  lemma {:induction false} FrontsMatch(es: seq<HeapEntry>)
    ensures TimersOf(es) == [] <==> es == []
    ensures es != [] ==>
      TimersOf(es)[0] == Timer(es[0].when, es[0].handle) && TimersOf(es)[1..] == TimersOf(es[1..])
  {
  }

  /** The rest of a sorted list has the entries of the heap without its front. */
  lemma {:induction false} WithoutFront(heap: seq<HeapEntry>, es: seq<HeapEntry>, next: nat)
    requires Before(es, next)
    requires heap != [] && es != [] && multiset(heap) == multiset(es) && heap[|heap| - 1] == es[0] && SortedEntries(es)
    ensures multiset(heap[..|heap| - 1]) == multiset(es[1..]) && SortedEntries(es[1..])
    ensures Before(es[1..], next)
  {
    var init, rest := heap[..|heap| - 1], es[1..];
    assert heap == init + [es[0]];
    assert es == [es[0]] + rest;
    assert multiset(init) == multiset(init + [es[0]]) - multiset{es[0]};
    assert multiset(rest) == multiset([es[0]] + rest) - multiset{es[0]};
    forall i, j | 0 <= i < j < |es[1..]| ensures Earlier(es[1..][i], es[1..][j]) {
      assert Earlier(es[i + 1], es[j + 1]);
    }
  }

  /** Min-heap of (deadline, handle) entries with FIFO tiebreak.  `entries[..size]` is the vector; `model` is the
      sorted list of the same entries. */
  class TimerQueue {
    var entries: array<HeapEntry>
    var size: nat
    var nextSequence: nat
    ghost var model: seq<HeapEntry>

    ghost predicate Valid()
      reads this, entries
    {
      && size <= entries.Length && IsHeap(entries[..size])
      && SortedEntries(model) && Before(model, nextSequence)
      && multiset(entries[..size]) == multiset(model)
    }

    /** The pending timers in the order in which they will be popped. */
    ghost function Contents(): (ts: seq<Timer>)
      reads this
      ensures |ts| == |model|
    {
      TimersOf(model)
    }

    constructor ()
      ensures Valid() && Contents() == [] && fresh(entries)
    {
      entries, size, nextSequence, model := new HeapEntry[0], 0, 0, [];
    }

    lemma {:induction false} SizeOfModel()
      requires Valid()
      ensures |model| == size
    {
      assert |multiset(entries[..size])| == size;
      assert |multiset(model)| == |model|;
    }

    lemma {:induction false} FrontOfModel()
      requires Valid() && size > 0
      ensures model != [] && entries[0] == model[0]
    {
      FrontsAgree(entries[..size], model);
      assert entries[..size][0] == entries[0];
    }

    /** `push_back`, growing the array when it is full. */
    method Append(e: HeapEntry)
      requires size <= entries.Length
      modifies this`entries, this`size, entries
      ensures size == old(size) + 1 <= entries.Length && (entries == old(entries) || fresh(entries))
      ensures entries[..size] == old(entries[..size]) + [e] && entries[..size - 1] == old(entries[..size])
    {
      if size == entries.Length {
        var bigger := new HeapEntry[2 * size + 1];
        forall i | 0 <= i < size {
          bigger[i] := entries[i];
        }
        assert bigger[..size] == entries[..size];
        entries := bigger;
      }
      entries[size] := e;
      size := size + 1;
    }

    /** `push_back`, then `push_heap`. */
    method Push(e: HeapEntry)
      requires size <= entries.Length && IsHeap(entries[..size])
      modifies this`entries, this`size, entries
      ensures size == old(size) + 1 <= entries.Length && (entries == old(entries) || fresh(entries))
      ensures IsHeap(entries[..size]) && multiset(entries[..size]) == multiset(old(entries[..size])) + multiset{e}
    {
      hide IsHeap, Later;
      Append(e);
      PushHeap(entries, size);
    }

    /** Inserts behind every entry that is not due later. */
    method Schedule(when: int, handle: Handle)
      requires Valid()
      modifies this, entries
      ensures Valid() && (entries == old(entries) || fresh(entries))
      ensures Contents() == Insert(old(Contents()), Timer(when, handle))
    {
      hide IsHeap, Later, SortedEntries, InsertEntry, Insert, Before;
      var e := HeapEntry(when, handle, nextSequence);
      InsertEntryLaws(model, e);
      InsertEntryTimers(model, e);
      InsertEntryBefore(model, e);
      Push(e);
      nextSequence, model := nextSequence + 1, InsertEntry(model, e);
    }

    /** Pops the earliest entry if its deadline has elapsed. */
    method PopDue(now: int) returns (due: Option<Timer>)
      requires Valid()
      modifies this, entries
      ensures Valid() && entries == old(entries)
      ensures if old(Contents()) != [] && old(Contents())[0].when <= now
              then due == Some(old(Contents())[0]) && Contents() == old(Contents())[1..]
              else due == None && Contents() == old(Contents())
    {
      hide IsHeap, Later, SortedEntries, Before, TimersOf;
      SizeOfModel();
      FrontsMatch(model);
      if size == 0 {
        return None;
      }
      FrontOfModel();
      if entries[0].when > now {
        return None;
      }
      PopHeap(entries, size);
      var entry := entries[size - 1];
      WithoutFront(entries[..size], model, nextSequence);
      assert entries[..size][..size - 1] == entries[..size - 1];
      size, model := size - 1, model[1..];
      return Some(Timer(entry.when, entry.handle));
    }

    function NextDeadline(): (deadline: Option<int>)
      requires Valid()
      reads this, entries
      ensures deadline == if Contents() == [] then None else Some(Contents()[0].when)
    {
      SizeOfModel();
      if size == 0 then None
      else
        FrontOfModel();
        Some(entries[0].when)
    }

    function Size(): (n: nat)
      requires Valid()
      reads this, entries
      ensures n == |Contents()|
    {
      SizeOfModel();
      size
    }
  }
}
