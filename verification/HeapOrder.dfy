/** Two schedulers that agree on everything but the order of their heaps, and
    whose next iteration ends apart: what heap order decides when entries tie and
    one of them is stale. */
module HeapOrder {
  import opened SlotTime
  import opened Turns
  import opened LapViews
  import opened Staleness
  import opened Scheduler

  /** Entry 0 every 10 at phase 0, entry 1 every 100 at phase 20. */
  const PAIR: Fleet := Fleet([10, 100], [0, 20])

  /** Both idle and due at these instants, nothing queued, acked or reported. */
  function Quiet(first: int, second: int): View {
    View([first, second], [false, false], [false, false], [], [], [])
  }

  lemma PairSlots()
    ensures SlotAfter(1015, 10, 0) == 1020 && SlotAfter(1015, 100, 20) == 1020
    ensures SlotAfter(905, 10, 0) == 910 && SlotAfter(905, 100, 20) == 920
    ensures SlotAfter(1000, 10, 0) == 1010
  {
    SlotAfterIsTheOnlyOne(1020, 1015, 10, 0);
    SlotAfterIsTheOnlyOne(1020, 1015, 100, 20);
    SlotAfterIsTheOnlyOne(910, 905, 10, 0);
    SlotAfterIsTheOnlyOne(920, 905, 100, 20);
    SlotAfterIsTheOnlyOne(1010, 1000, 10, 0);
  }

  lemma PairStarts()
    ensures PAIR.Valid()
    ensures Initial(PAIR, 1015) == Quiet(1020, 1020) && Initial(PAIR, 905) == Quiet(910, 920)
  {
    PairSlots();
  }

  /** The first of two due entries, and then the second, is dispatched. */
  lemma FirstIsDispatched(v: View, top: nat)
    requires Consistent(PAIR, v) && v == Quiet(910, 920) && IsTop(v.next, top)
    ensures top == 0 && Judge(PAIR, v.next, 1015, top).Fired?
    ensures Iterated(PAIR, v, 1015, top) == View([1020, 920], [true, false], [false, false], [0], [], [])
  {
    PairSlots();
  }

  lemma SecondIsDispatched(v: View, top: nat)
    requires Consistent(PAIR, v) && v == View([1020, 920], [true, false], [false, false], [0], [], []) && IsTop(v.next, top)
    ensures top == 1 && Judge(PAIR, v.next, 1015, top).Fired?
    ensures Iterated(PAIR, v, 1015, top) == View([1020, 1020], [true, true], [false, false], [0, 1], [], [])
  {
    PairSlots();
  }

  /** At 1000 a top of entry 0 is stale, one of entry 1 is not. */
  lemma TheTopDecides(v: View)
    requires Consistent(PAIR, v) && v == Quiet(1020, 1020)
    ensures Judge(PAIR, v.next, 1000, 0).Reanchored? && Iterated(PAIR, v, 1000, 0) == Quiet(1010, 1020)
    ensures Judge(PAIR, v.next, 1000, 1).Armed?
  {
    assert OnPhase(1010, 10, 0);
    ReanchorsOne(PAIR, v.next, 1000, 0, 1010);
    assert v.next[0 := 1010] == [1010, 1020];
  }

  lemma DrainedWhenQuiet(v: View)
    requires Consistent(PAIR, v) && v.done == []
    ensures Drained(PAIR, v) == v
  {
  }

  lemma DrainedOfBoth(v: View)
    requires Consistent(PAIR, v) && v == View([1020, 1020], [true, true], [false, false], [], [0, 1], [])
    ensures Drained(PAIR, v) == Quiet(1020, 1020)
  {
    assert v.done[0] == 0 && v.done[1] == 1;
  }

  lemma EarliestInSnapshot(s: Scheduler, i: nat)
    requires s.Valid() && i < |s.entries| && IsTop(s.Snapshot().next, i)
    ensures s.IsEarliest(s.entries[i])
  {
    forall k | 0 <= k < |s.entries| ensures s.entries[i].next <= s.entries[k].next {
      assert s.Snapshot().next[i] <= s.Snapshot().next[k];
    }
  }

  /** Started between the slots, entry 0 is the root of the heap. */
  method Early() returns (a: Scheduler)
    ensures fresh(a) && fresh(a.heap) && fresh(a.entries) && a.Valid() && a.fleet == PAIR && |a.entries| == 2
    ensures a.Snapshot() == Quiet(1020, 1020) && a.heap[0].id == 0
  {
    PairStarts();
    a := new Scheduler(PAIR, 1015);
    EarliestInSnapshot(a, 0);
  }

  /** Entry 0 is due and dispatched. */
  method DispatchFirst(b: Scheduler)
    requires b.Valid() && b.fleet == PAIR && |b.entries| == 2 && b.Snapshot() == Quiet(910, 920)
    modifies b, b.heap, b.entries, b.done
    ensures b.Valid()
    ensures b.Snapshot() == View([1020, 920], [true, false], [false, false], [0], [], [])
  {
    ghost var v := b.Snapshot();
    var top, outcome := b.Iterate(1015, false);
    DrainedWhenQuiet(v);
    FirstIsDispatched(v, top);
  }

  /** Entry 1 is due and dispatched; tied with entry 0 now, it stays at the root. */
  method DispatchSecond(b: Scheduler)
    requires b.Valid() && b.fleet == PAIR && |b.entries| == 2
    requires b.Snapshot() == View([1020, 920], [true, false], [false, false], [0], [], [])
    modifies b, b.heap, b.entries, b.done
    ensures b.Valid()
    ensures b.Snapshot() == View([1020, 1020], [true, true], [false, false], [0, 1], [], []) && b.heap[0].id == 1
  {
    ghost var v := b.Snapshot();
    b.RootIsATop();
    ghost var root := b.heap[0];
    var top, outcome := b.Iterate(1015, false);
    DrainedWhenQuiet(v);
    SecondIsDispatched(v, top);
    EarliestInSnapshot(b, 1);
    assert root == b.entries[1];
  }

  /** Both entries are run and acked. */
  method RunBoth(b: Scheduler)
    requires b.Valid() && b.fleet == PAIR && |b.entries| == 2
    requires b.Snapshot() == View([1020, 1020], [true, true], [false, false], [0, 1], [], []) && b.heap[0].id == 1
    modifies b, b.entries, b.done
    ensures b.Valid() && b.Snapshot() == Quiet(1020, 1020) && b.heap[0].id == 1
  {
    ghost var v := b.Snapshot();
    b.work := [];
    b.SnapshotEquals(v.(work := []));
    b.Arrive([0, 1]);
    DrainedOfBoth(b.Snapshot());
    b.DrainDone();
  }

  /** Started earlier and stalled until 1015. */
  method Stalled() returns (b: Scheduler)
    ensures fresh(b) && fresh(b.heap) && fresh(b.entries) && b.Valid() && b.fleet == PAIR && |b.entries| == 2
    ensures b.Snapshot() == Quiet(1020, 1020) && b.heap[0].id == 1
  {
    PairStarts();
    b := new Scheduler(PAIR, 905);
    DispatchFirst(b);
    DispatchSecond(b);
    RunBoth(b);
  }

  /** What one iteration without acks makes of a scheduler's state, by branch. */
  ghost predicate OneIteration(f: Fleet, now: int, v: View, top: nat, outcome: Outcome, after: View) {
    && Consistent(f, v) && IsTop(v.next, top)
    && (Judge(f, v.next, now, top).Reanchored? ==> outcome.Again? && after == Iterated(f, v, now, top))
    && (Judge(f, v.next, now, top).Armed? ==> outcome == WaitFor(SatSub(v.next[top], now)) && after == v)
  }

  lemma ByBranch(f: Fleet, now: int, v: View, top: nat, outcome: Outcome, after: View)
    requires Comes(f, now, v, Turn([], [], top), outcome, after) && v.done == [] && !outcome.Return?
    ensures OneIteration(f, now, v, top, outcome, after)
  {
    assert v.done + [] == [];
    assert Found(f, v, [], []) == v;
  }

  lemma NothingDone(s: Scheduler)
    requires s.Valid() && s.Snapshot().done == []
    ensures s.done == []
  {
    assert |Ids(s.done)| == 0;
  }

  method IterateOnce(s: Scheduler, now: int) returns (top: nat, outcome: Outcome)
    requires s.Valid() && s.entries != [] && s.done == []
    modifies s, s.heap, s.entries
    ensures s.Valid() && OneIteration(s.fleet, now, old(s.Snapshot()), top, outcome, s.Snapshot())
    ensures top == old(s.heap[0].id)
  {
    ghost var before := s.Snapshot();
    top, outcome := s.IterateAfter([], [], now, false);
    ByBranch(s.fleet, now, before, top, outcome, s.Snapshot());
  }

  lemma EntryZeroNotices(v: View, outcome: Outcome, after: View)
    requires OneIteration(PAIR, 1000, v, 0, outcome, after) && v == Quiet(1020, 1020)
    ensures outcome.Again? && after == Quiet(1010, 1020)
  {
    TheTopDecides(v);
  }

  lemma EntryOneOverlooks(v: View, outcome: Outcome, after: View)
    requires OneIteration(PAIR, 1000, v, 1, outcome, after) && v == Quiet(1020, 1020)
    ensures outcome == WaitFor(20) && after == Quiet(1020, 1020)
  {
    TheTopDecides(v);
  }

  /** Entry 0 is at the root when the clock has stepped back to 1000. */
  method EarlyNotices() returns (a: Scheduler, ghost before: View, outcome: Outcome)
    ensures a.Valid() && before == Quiet(1020, 1020)
    ensures OneIteration(PAIR, 1000, before, 0, outcome, a.Snapshot())
  {
    a := Early();
    before := a.Snapshot();
    NothingDone(a);
    var top;
    top, outcome := IterateOnce(a, 1000);
  }

  /** Entry 1 is. */
  method StalledOverlooks() returns (b: Scheduler, ghost before: View, outcome: Outcome)
    ensures b.Valid() && before == Quiet(1020, 1020)
    ensures OneIteration(PAIR, 1000, before, 1, outcome, b.Snapshot())
  {
    b := Stalled();
    before := b.Snapshot();
    NothingDone(b);
    var top;
    top, outcome := IterateOnce(b, 1000);
  }

  /** The same fleet, the same slots, flags, queues and reports; yet one iteration
      after a step back to 1000 finds one entry on top of the one heap and
      re-anchors, and the other on top of the other and waits. */
  method EndApart() returns (a: Scheduler, outcomeA: Outcome, b: Scheduler, outcomeB: Outcome, ghost before: View)
    ensures a.Valid() && OneIteration(PAIR, 1000, before, 0, outcomeA, a.Snapshot())
    ensures b.Valid() && OneIteration(PAIR, 1000, before, 1, outcomeB, b.Snapshot())
    ensures outcomeA.Again? && a.Snapshot() == Quiet(1010, 1020)
    ensures outcomeB == WaitFor(20) && b.Snapshot() == before == Quiet(1020, 1020)
  {
    a, before, outcomeA := EarlyNotices();
    ghost var va := a.Snapshot();
    EntryZeroNotices(before, outcomeA, va);
    ghost var beforeB;
    b, beforeB, outcomeB := StalledOverlooks();
    EntryOneOverlooks(beforeB, outcomeB, b.Snapshot());
    assert a.Snapshot() == va;
  }
}
