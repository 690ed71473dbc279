/** The scheduler goroutine: a binary min-heap of entries keyed by `next`, and
    the loop that drains acks, re-anchors, arms the timer, or processes the top. */
module Scheduler {
  import opened Common
  import opened SlotTime
  import opened Turns
  import opened LapViews
  import opened Flights
  import opened Staleness

  class Entry {
    const id: nat
    const interval: int
    const phase: int
    var next: int
    var inflight: bool
    var started: bool

    constructor (id: nat, interval: int, phase: int)
      ensures this.id == id && this.interval == interval && this.phase == phase
      ensures !inflight && !started
    {
      this.id := id;
      this.interval := interval;
      this.phase := phase;
      next := 0;
      inflight := false;
      started := false;
    }
  }

  /** What an iteration leaves the goroutine to do: go round again, wait for the
      timer (or an ack), or return because the context was cancelled. */
  datatype Outcome = Again | WaitFor(delay: int) | Return

  ghost function Ids(es: seq<Entry>): (ids: seq<nat>)
    ensures |ids| == |es| && forall i :: 0 <= i < |es| ==> ids[i] == es[i].id
  {
    seq(|es|, i requires 0 <= i < |es| => es[i].id)
  }

  /** A due entry is reported as skipped, or marked in flight and queued; on the
      cancelled path it is only marked. */
  ghost function Judged(v: View, top: nat, returned: bool): View
    requires top < |v.inflight| == |v.started|
  {
    if returned then v.(inflight := v.inflight[top := true])
    else if v.inflight[top] then v.(skips := v.skips + [Skip(top, if v.started[top] then PriorRunStarted else PriorRunQueued)])
    else v.(inflight := v.inflight[top := true], work := v.work + [top])
  }

  ghost function Initial(f: Fleet, start: int): View
    requires f.Valid()
  {
    var n := |f.intervals|;
    View(seq(n, i requires 0 <= i < n => SlotAfter(start, f.intervals[i], f.phases[i])),
         seq(n, _ => false), seq(n, _ => false), [], [], [])
  }

  lemma DistinctCountsOnce<T>(s: seq<T>, i: nat)
    requires Distinct(s) && i < |s|
    ensures multiset(s)[s[i]] == 1
  {
    assert s == s[..i] + [s[i]] + s[i + 1..];
  }

  lemma RepeatedCountsTwice<T>(s: seq<T>, i: nat, j: nat)
    requires i < j < |s| && s[i] == s[j]
    ensures multiset(s)[s[i]] >= 2
  {
    assert s == s[..j] + [s[j]] + s[j + 1..];
    assert s[i] == s[..j][i] && s[i] in multiset(s[..j]);
  }

  /** Position `k` of a binary heap hangs below position `p`. */
  predicate IsChild(p: int, k: int) {
    k == 2 * p + 1 || k == 2 * p + 2
  }

  /** What comes of one iteration: it goes round again, waits for its top, or
      returns with its top marked in flight but neither queued nor advanced. */
  ghost predicate Comes(f: Fleet, now: int, before: View, t: Turn, outcome: Outcome, after: View) {
    && Consistent(f, before) && AreMarks(before, t.marks) && AreEntries(t.acks, |before.next|) && IsTop(before.next, t.top)
    && var v := Found(f, before, t.marks, t.acks);
      match outcome
      case Again => TurnStep(f, now, before, t, after)
      case WaitFor(delay) => Judge(f, v.next, now, t.top).Armed? && delay == SatSub(v.next[t.top], now) > 0 && after == v
      case Return =>
        !v.inflight[t.top] && Judge(f, v.next, now, t.top).Fired? && after == v.(inflight := v.inflight[t.top := true])
  }

  lemma ComesIsARound(f: Fleet, now: int, before: View, t: Turn, outcome: Outcome, after: View)
    requires Comes(f, now, before, t, outcome, after) && !outcome.Return?
    ensures RoundStep(f, before, Round(now, t), after)
    ensures after.next == AfterTurn(f, before.next, now, t.top)
  {
    if outcome.Again? {
      TurnKeepsConsistent(f, now, before, t, after);
    }
  }

  /** A burst from one state to another. */
  ghost predicate Leads(f: Fleet, now: int, views: seq<View>, turns: seq<Turn>, from: View, to: View) {
    IsBurst(f, now, views, turns) && Consistent(f, to) && views[0] == from && views[|turns|] == to
  }

  /** Closer to the end of the lap. */
  ghost predicate Nearer(f: Fleet, now: int, v: View, w: View) {
    && Consistent(f, v) && Consistent(f, w)
    && (|| Due(w.next, now) < Due(v.next, now)
        || (Due(w.next, now) == Due(v.next, now) && Unsettled(f, w.next, now) < Unsettled(f, v.next, now)))
  }

  /** A burst, longer by one iteration, is closer to its end. */
  lemma BurstGoesOn(f: Fleet, now: int, views: seq<View>, turns: seq<Turn>, from: View, v: View, t: Turn, w: View)
    requires Leads(f, now, views, turns, from, v) && Comes(f, now, v, t, Again, w)
    ensures Leads(f, now, views + [w], turns + [t], from, w) && Nearer(f, now, v, w)
  {
    BurstGrows(f, now, views, turns, t, w);
    TurnKeepsConsistent(f, now, v, t, w);
    IterationMakesProgress(f, v.next, now, t.top);
  }

  /** What the whole lap amounts to, once it waits or returns. */
  lemma LapIsOver(f: Fleet, now: int, views: seq<View>, turns: seq<Turn>, last: Turn, outcome: Outcome, after: View)
    requires IsBurst(f, now, views, turns) && Comes(f, now, views[|turns|], last, outcome, after)
    ensures Processed(views[0], now, Judgements(f, now, views, turns, |turns|), views[|turns|])
    ensures IsService(f, views, RoundsOf(now, turns))
    ensures outcome.WaitFor? ==>
      && Lists(JudgedEntries(Judgements(f, now, views, turns, |turns|)), Due(views[0].next, now))
      && SlotsSettled(f, views[0].next, now, views[|turns|].next)
  {
    BurstProcesses(f, now, views, turns, |turns|);
    BurstIsService(f, now, views, turns);
    if outcome.WaitFor? {
      LapKeepsItsPromise(f, now, views, turns, last.top);
    }
  }

  lemma HistoryFromStart(f: Fleet, start: int)
    requires f.Valid()
    ensures Fits(f, Initial(f, start).next) && IsHistory(f, History(start, [], [Initial(f, start).next]))
  {
    HistoryBegins(f, start, Initial(f, start).next);
  }

  /** `h`, longer by one iteration. */
  lemma HistoryOneLonger(f: Fleet, h: History, now: int, before: View, t: Turn, outcome: Outcome, after: View)
    requires IsHistory(f, h) && h.next[|h.readings|] == before.next
    requires Comes(f, now, before, t, outcome, after) && !outcome.Return?
    ensures IsHistory(f, Longer(h, Reading(now, t.top), after.next))
  {
    ComesIsARound(f, now, before, t, outcome, after);
    HistoryGoesOn(f, h, Reading(now, t.top), after.next);
  }

  /** What comes in before iteration number `t`. */
  function Before(comings: seq<seq<nat>>, t: nat): seq<nat> {
    if t < |comings| then comings[t] else []
  }

  /** What the loop meets: a clock reading for each iteration, and the marks and
      acks that come in before it. */
  datatype Script = Script(readings: seq<int>, marks: seq<seq<nat>>, acks: seq<seq<nat>>)

  /** A record of iterations: their slots as a history, and all of them as a
      service. */
  datatype Log = Log(h: History, views: seq<View>, rounds: seq<Round>)

  /** The record is of the first iterations that the script calls for. */
  ghost predicate Records(f: Fleet, log: Log, start: int, script: Script) {
    && IsHistory(f, log.h) && log.h.start == start && IsService(f, log.views, log.rounds)
    && |log.h.readings| == |log.rounds| <= |script.readings|
    && log.h.next[|log.rounds|] == log.views[|log.rounds|].next
    && forall k :: 0 <= k < |log.rounds| ==>
      && log.rounds[k] == Round(script.readings[k], Turn(Before(script.marks, k), Before(script.acks, k), log.rounds[k].turn.top))
      && log.h.readings[k] == Reading(script.readings[k], log.rounds[k].turn.top)
  }

  function Extended(log: Log, r: Round, after: View): Log {
    Log(Longer(log.h, Reading(r.now, r.turn.top), after.next), log.views + [after], log.rounds + [r])
  }

  lemma RecordGrows(f: Fleet, log: Log, start: int, script: Script, top: nat, outcome: Outcome, after: View)
    requires Records(f, log, start, script) && |log.rounds| < |script.readings| && !outcome.Return?
    requires var k := |log.rounds|;
      Comes(f, script.readings[k], log.views[k], Turn(Before(script.marks, k), Before(script.acks, k), top), outcome, after)
    ensures var k := |log.rounds|;
      Records(f, Extended(log, Round(script.readings[k], Turn(Before(script.marks, k), Before(script.acks, k), top)), after), start, script)
    ensures after.done == []
  {
    var k := |log.rounds|;
    var t := Turn(Before(script.marks, k), Before(script.acks, k), top);
    HistoryOneLonger(f, log.h, script.readings[k], log.views[k], t, outcome, after);
    ComesIsARound(f, script.readings[k], log.views[k], t, outcome, after);
    ServiceGrows(f, log.views, log.rounds, Round(script.readings[k], t), after);
    OneRound(f, log.views[k], Round(script.readings[k], t), after, top);
  }

  /** Whoever is queued twice has been acked in between. */
  ghost predicate NeverOverlaps(views: seq<View>, rounds: seq<Round>) {
    forall e: nat, i: nat, k: nat :: i < k < |rounds| && QueuedAt(views, i, e) && QueuedAt(views, k, e) ==>
      exists r :: i < r <= k && e in rounds[r].turn.acks
  }

  lemma ServiceNeverOverlaps(f: Fleet, views: seq<View>, rounds: seq<Round>)
    requires IsService(f, views, rounds)
    ensures NeverOverlaps(views, rounds)
  {
    forall e: nat, i: nat, k: nat | i < k < |rounds| && QueuedAt(views, i, e) && QueuedAt(views, k, e)
      ensures exists r :: i < r <= k && e in rounds[r].turn.acks
    {
      QueuedAgainOnlyAfterAck(f, views, rounds, i, k, e);
    }
  }

  /** The last reading of a history found its top in the future. */
  ghost predicate JustArmed(f: Fleet, h: History)
    requires IsHistory(f, h)
  {
    h.readings != [] && ArmsAt(f, h, |h.readings| - 1)
  }

  lemma JustArmedIsClose(f: Fleet, h: History)
    requires IsHistory(f, h) && StepsBackOnlyWhileArmed(f, h) && JustArmed(f, h)
    ensures Close(f, h.next[|h.readings|])
  {
    ArmedSlotsAreClose(f, h, |h.readings| - 1);
    assert h.next[|h.readings|] == h.next[|h.readings| - 1];
  }

  /** One entry per target, on its first slot after `start`. */
  method FirstEntries(f: Fleet, start: int) returns (es: seq<Entry>)
    requires f.Valid()
    ensures |es| == |f.intervals| && fresh(es)
    ensures forall k :: 0 <= k < |es| ==> es[k].id == k && es[k].interval == f.intervals[k] && es[k].phase == f.phases[k]
    ensures forall k :: 0 <= k < |es| ==> !es[k].inflight && !es[k].started
    ensures forall k :: 0 <= k < |es| ==> es[k].next == SlotAfter(start, f.intervals[k], f.phases[k])
  {
    es := [];
    for i := 0 to |f.intervals|
      invariant |es| == i && fresh(es)
      invariant forall k :: 0 <= k < i ==> es[k].id == k && es[k].interval == f.intervals[k] && es[k].phase == f.phases[k]
      invariant forall k :: 0 <= k < i ==> !es[k].inflight && !es[k].started
      invariant forall k :: 0 <= k < i ==> es[k].next == SlotAfter(start, f.intervals[k], f.phases[k])
    {
      var e := new Entry(i, f.intervals[i], f.phases[i]);
      e.next := SlotAfter(start, e.interval, e.phase);
      es := es + [e];
    }
  }

  class Scheduler {
    ghost const fleet: Fleet
    const entries: seq<Entry>
    const heap: array<Entry>
    var work: seq<Entry>
    var done: seq<Entry>
    var skipped: nat
    var skips: seq<Skip>

    /** Start of `schedule`: every entry on its first slot after `start`, in
        heap order; nothing in flight, queued or counted. */
    constructor (f: Fleet, start: int)
      requires f.Valid()
      ensures Valid() && fleet == f && fresh(heap) && fresh(entries)
      ensures Snapshot() == Initial(f, start)
      ensures heap.Length > 0 && IsEarliest(entries[0]) ==> heap[0] == entries[0]
    {
      var es := FirstEntries(f, start);
      fleet := f;
      entries := es;
      heap := new Entry[|es|](k requires 0 <= k < |es| => es[k]);
      work, done, skips, skipped := [], [], [], 0;
      new;
      assert heap[..] == entries;
      assert OnPhases();
      Heapify();
      SnapshotIsInitial(start);
    }

    /** The fixed shape: entries in order, the heap a permutation of them. */
    ghost predicate Shape()
      reads this, heap
    {
      && fleet.Valid()
      && |entries| == |fleet.intervals| == heap.Length
      && (forall i :: 0 <= i < |entries| ==>
            entries[i].id == i && entries[i].interval == fleet.intervals[i] && entries[i].phase == fleet.phases[i])
      && multiset(heap[..]) == multiset(entries)
    }

    ghost predicate OnPhases()
      reads this, entries
    {
      forall i :: 0 <= i < |entries| && 0 < entries[i].interval ==> OnPhase(entries[i].next, entries[i].interval, entries[i].phase)
    }

    /** Heap order below every position at or after `from`. */
    ghost predicate OrderedFrom(from: int)
      reads this, heap, heap[..]
    {
      forall p, k :: IsChild(p, k) && 0 <= p && from <= p && k < heap.Length ==> heap[p].next <= heap[k].next
    }

    /** No key in the heap is smaller. */
    ghost predicate IsLeast(e: Entry)
      reads heap, heap[..], e
    {
      forall x :: x in multiset(heap[..]) ==> e.next <= x.next
    }

    ghost predicate Valid()
      reads this, heap, heap[..], entries
    {
      && Shape()
      && OnPhases()
      && OrderedFrom(0)
      && |skips| == skipped
      && forall i :: 0 <= i < |done| ==> done[i] in entries
    }

    ghost function Snapshot(): (v: View)
      reads this, entries
      requires fleet.Valid() && |entries| == |fleet.intervals|
    {
      View(
        seq(|entries|, i requires 0 <= i < |entries| reads this, entries => entries[i].next),
        seq(|entries|, i requires 0 <= i < |entries| reads this, entries => entries[i].inflight),
        seq(|entries|, i requires 0 <= i < |entries| reads this, entries => entries[i].started),
        Ids(work),
        Ids(done),
        skips)
    }

    lemma SnapshotIsConsistent()
      requires Valid()
      ensures Consistent(fleet, Snapshot()) && |Snapshot().next| == |entries|
    {
      forall i | 0 <= i < |done| ensures Snapshot().done[i] < |entries| {
        var k :| 0 <= k < |entries| && entries[k] == done[i];
      }
    }

    lemma HeapHoldsTheEntries()
      requires Shape()
      ensures forall k :: 0 <= k < heap.Length ==> heap[k] in entries
      ensures forall i :: 0 <= i < |entries| ==> entries[i] in heap[..]
    {
      forall k | 0 <= k < heap.Length ensures heap[k] in entries {
        assert heap[k] in multiset(heap[..]);
      }
      forall i | 0 <= i < |entries| ensures entries[i] in heap[..] {
        assert entries[i] in multiset(entries);
      }
    }

    /** The root of an ordered heap has the least key. */
    lemma {:induction false} RootIsLeast(k: nat)
      requires OrderedFrom(0) && k < heap.Length
      ensures heap[0].next <= heap[k].next
    {
      if k > 0 {
        assert IsChild((k - 1) / 2, k);
        RootIsLeast((k - 1) / 2);
      }
    }

    lemma RootIsATop()
      requires Valid() && heap.Length > 0
      ensures heap[0] in entries && IsTop(Snapshot().next, heap[0].id)
    {
      HeapHoldsTheEntries();
      SnapshotIsConsistent();
      forall i | 0 <= i < |entries| ensures heap[0].next <= entries[i].next {
        var k: nat :| k < heap.Length && heap[k] == entries[i];
        RootIsLeast(k);
      }
    }

    /** No entry has a smaller key. */
    ghost predicate IsEarliest(e: Entry)
      reads this, entries, e
    {
      forall i :: 0 <= i < |entries| ==> e.next <= entries[i].next
    }

    lemma EarliestIsLeast(e: Entry)
      requires Shape() && IsEarliest(e)
      ensures IsLeast(e)
    {
      forall x | x in multiset(heap[..]) ensures e.next <= x.next {
        assert x in multiset(entries);
        var i :| 0 <= i < |entries| && entries[i] == x;
      }
    }

    /** Entries are pairwise distinct, so the heap holds the root only once. */
    lemma RootIsAlone(k: nat)
      requires Shape() && 0 < k < heap.Length
      ensures heap[k] != heap[0]
    {
      if heap[k] == heap[0] {
        HeapHoldsTheEntries();
        RepeatedCountsTwice(heap[..], 0, k);
        var i :| 0 <= i < |entries| && entries[i] == heap[0];
        DistinctCountsOnce(entries, i);
      }
    }

    lemma SnapshotEquals(v: View)
      requires Valid()
      requires |v.next| == |v.inflight| == |v.started| == |entries|
      requires forall i :: 0 <= i < |entries| ==> entries[i].next == v.next[i]
      requires forall i :: 0 <= i < |entries| ==> entries[i].inflight == v.inflight[i]
      requires forall i :: 0 <= i < |entries| ==> entries[i].started == v.started[i]
      requires Ids(work) == v.work && Ids(done) == v.done && skips == v.skips
      ensures Snapshot() == v
    {
    }

    lemma SnapshotIsInitial(start: int)
      requires Valid() && work == [] && done == [] && skips == []
      requires forall k :: 0 <= k < |entries| ==> !entries[k].inflight && !entries[k].started
      requires forall k :: 0 <= k < |entries| ==> entries[k].next == SlotAfter(start, fleet.intervals[k], fleet.phases[k])
      ensures Snapshot() == Initial(fleet, start)
    {
      SnapshotEquals(Initial(fleet, start));
    }

    lemma IdsTellEntriesApart()
      requires Valid()
      ensures forall i :: 0 <= i < |entries| ==> (entries[i] in done <==> i in Ids(done))
    {
      forall i | 0 <= i < |entries| && i in Ids(done) ensures entries[i] in done {
        var k :| 0 <= k < |done| && Ids(done)[k] == i;
        var m :| 0 <= m < |entries| && entries[m] == done[k];
      }
      forall i | 0 <= i < |entries| && entries[i] in done ensures i in Ids(done) {
        var k :| 0 <= k < |done| && done[k] == entries[i];
        assert Ids(done)[k] == i;
      }
    }

    method Swap(i: nat, j: nat)
      requires i < heap.Length && j < heap.Length
      modifies heap
      ensures heap[i] == old(heap[j]) && heap[j] == old(heap[i])
      ensures forall k :: 0 <= k < heap.Length && k != i && k != j ==> heap[k] == old(heap[k])
      ensures multiset(heap[..]) == old(multiset(heap[..]))
    {
      heap[i], heap[j] := heap[j], heap[i];
    }

    /** Heap order at or after `from`, but for position `i` and its children; the
        parent of `i` is no later than those. */
    ghost predicate OrderedBut(from: int, i: int)
      reads this, heap, heap[..]
    {
      && (forall p, k :: IsChild(p, k) && 0 <= p && from <= p && k < heap.Length && p != i ==> heap[p].next <= heap[k].next)
      && (forall p, k :: IsChild(p, i) && IsChild(i, k) && 0 <= p && from <= p && k < heap.Length ==> heap[p].next <= heap[k].next)
    }

    /** One step of sifting down: swap with the lesser child if that is earlier. */
    method Sink(ghost from: nat, i: nat) returns (j: nat)
      requires from <= i < heap.Length && OrderedBut(from, i)
      modifies heap
      ensures multiset(heap[..]) == old(multiset(heap[..]))
      ensures forall k :: 0 <= k < i ==> heap[k] == old(heap[k])
      ensures i <= j < heap.Length
      ensures j == i ==> OrderedFrom(from) && heap[i] == old(heap[i])
      ensures j > i ==> OrderedBut(from, j) && heap[i] == old(heap[j]) && heap[i].next < old(heap[i].next)
    {
      var n := heap.Length;
      if 2 * i + 1 >= n {
        return i;
      }
      j := 2 * i + 1;
      if j + 1 < n && heap[j + 1].next < heap[j].next {
        j := j + 1;
      }
      assert forall k :: IsChild(i, k) && k < n ==> heap[j].next <= heap[k].next;
      if heap[j].next >= heap[i].next {
        return i;
      }
      assert IsChild(i, j);
      Swap(i, j);
    }

    /** Sift the element at `from` down. Only positions move, no key changes; a
        least element stays. */
    method Down(from: nat)
      requires from < heap.Length && OrderedFrom(from + 1)
      modifies heap
      ensures OrderedFrom(from)
      ensures multiset(heap[..]) == old(multiset(heap[..]))
      ensures forall k :: 0 <= k < from ==> heap[k] == old(heap[k])
      ensures old(IsLeast(heap[from])) ==> heap[from] == old(heap[from])
    {
      var i := from;
      while true
        invariant from <= i < heap.Length && OrderedBut(from, i)
        invariant multiset(heap[..]) == old(multiset(heap[..]))
        invariant forall k :: 0 <= k < from ==> heap[k] == old(heap[k])
        invariant old(IsLeast(heap[from])) ==> i == from && heap[from] == old(heap[from])
        decreases heap.Length - i
      {
        var j := Sink(from, i);
        if j == i {
          break;
        }
        assert heap[i] in multiset(heap[..]);
        i := j;
      }
    }

    /** `heap.Init`: sift down every inner position, last first. A least entry
        that is at the root already stays there. */
    method Init()
      modifies heap
      ensures OrderedFrom(0)
      ensures multiset(heap[..]) == old(multiset(heap[..]))
      ensures heap.Length > 0 && old(IsLeast(heap[0])) ==> heap[0] == old(heap[0])
    {
      var i := heap.Length / 2;
      while i > 0
        invariant 0 <= i <= heap.Length / 2
        invariant OrderedFrom(i)
        invariant multiset(heap[..]) == old(multiset(heap[..]))
        invariant heap.Length > 0 && old(IsLeast(heap[0])) ==> heap[0] == old(heap[0])
      {
        i := i - 1;
        Down(i);
      }
    }

    /** `heap.Init` on entries and heap in one order. */
    method Heapify()
      requires Shape() && heap[..] == entries && OnPhases() && |skips| == skipped && done == []
      modifies heap
      ensures Valid()
      ensures heap.Length > 0 && IsEarliest(entries[0]) ==> heap[0] == entries[0]
    {
      if heap.Length > 0 && IsEarliest(heap[0]) {
        EarliestIsLeast(heap[0]);
      }
      Init();
    }

    /** `heap.Fix` at the root, whose key has grown: sift it down. */
    method Fix()
      requires Shape() && heap.Length > 0 && OrderedFrom(1)
      modifies heap
      ensures Shape() && OrderedFrom(0)
      ensures IsEarliest(old(heap[0])) ==> heap[0] == old(heap[0])
    {
      if IsEarliest(heap[0]) {
        EarliestIsLeast(heap[0]);
      }
      Down(0);
    }

    /** The entry's run, or its cancelled dispatch, is over. */
    method Finish(e: Entry)
      modifies e`inflight, e`started
      ensures !e.inflight && !e.started
    {
      e.inflight := false;
      e.started := false;
    }

    /** Receive until `done` is empty. */
    method TakeAcks()
      modifies this`done, done
      ensures done == []
      ensures forall e :: e in old(done) ==> !e.inflight && !e.started && e.next == old(e.next)
    {
      ghost var acks := done;
      ghost var taken := 0;
      while done != []
        invariant taken <= |acks| && done == acks[taken..]
        invariant forall e :: e in acks ==> e.next == old(e.next)
        invariant forall k :: 0 <= k < taken ==> !acks[k].inflight && !acks[k].started
        decreases |done|
      {
        Finish(done[0]);
        done := done[1..];
        taken := taken + 1;
      }
    }

    method DrainDone()
      requires Valid()
      modifies this`done, done
      ensures Valid() && Consistent(fleet, old(Snapshot()))
      ensures Snapshot() == Drained(fleet, old(Snapshot()))
    {
      SnapshotIsConsistent();
      IdsTellEntriesApart();
      ghost var v := Snapshot();
      TakeAcks();
      assert forall i :: 0 <= i < |entries| ==> entries[i].next == v.next[i];
      assert OrderedFrom(0) by {
        HeapHoldsTheEntries();
      }
      SnapshotEquals(Drained(fleet, v));
    }

    /** Count the missed slot and report why it was missed. */
    method RecordSkip(e: Entry)
      modifies this`skipped, this`skips
      ensures skipped == old(skipped) + 1
      ensures skips == old(skips) + [Skip(e.id, if e.started then PriorRunStarted else PriorRunQueued)]
    {
      skipped := skipped + 1;
      var kind := PriorRunQueued;
      if e.started {
        kind := PriorRunStarted;
      }
      skips := skips + [Skip(e.id, kind)];
    }

    /** The slot the re-anchor pass leaves an entry with. */
    ghost function Moved(e: Entry, now: int): int
      reads e
      requires 0 < e.interval && 0 <= e.phase < e.interval
    {
      if IsStale(e.next, now, e.interval) then SlotAfter(now, e.interval, e.phase) else e.next
    }

    /** One pass over the heap, in heap positions. */
    method ReanchorStale(now: int)
      requires Shape()
      modifies entries`next
      ensures forall i :: 0 <= i < |entries| ==> entries[i].next == old(Moved(entries[i], now))
    {
      HeapHoldsTheEntries();
      for k := 0 to heap.Length
        invariant forall j :: 0 <= j < k ==> heap[j].next == old(Moved(heap[j], now))
        invariant forall i :: 0 <= i < |entries| ==> entries[i].next == old(entries[i].next) || entries[i].next == old(Moved(entries[i], now))
      {
        var x := heap[k];
        StaleIsMoreThanOneIntervalAway(x.next, now, x.interval);
        if IsStale(x.next, now, x.interval) {
          x.next := SlotAfter(now, x.interval, x.phase);
        }
      }
      forall i | 0 <= i < |entries| ensures entries[i].next == old(Moved(entries[i], now)) {
        var k :| 0 <= k < heap.Length && heap[k] == entries[i];
      }
    }

    /** The stale branch of an iteration. */
    method Reanchor(now: int)
      requires Valid()
      modifies heap, entries`next
      ensures Valid() && Consistent(fleet, old(Snapshot()))
      ensures Snapshot() == old(Snapshot()).(next := Turns.Reanchor(fleet, old(Snapshot()).next, now))
    {
      SnapshotIsConsistent();
      ghost var v := Snapshot();
      ReanchorStale(now);
      Init();
      SnapshotEquals(v.(next := Turns.Reanchor(fleet, v.next, now)));
    }

    /** The jump of a processed slot, as the source computes it. */
    method MoveSlot(e: Entry, now: int)
      requires 0 < e.interval <= MAX_INT64 && 0 <= e.phase < e.interval
      requires e.next <= now && OnPhase(e.next, e.interval, e.phase)
      modifies e`next
      ensures e.next == SlotAfter(now, e.interval, e.phase)
    {
      ghost var before := e.next;
      var k := Wrap64(SatSub(now, e.next) / e.interval + 1);
      e.next := e.next + Wrap64(k * e.interval);
      if e.next <= now {
        e.next := SlotAfter(now, e.interval, e.phase);
      }
      assert e.next == Advance(before, now, e.interval, e.phase);
      AdvanceIsSlotAfter(before, now, e.interval, e.phase);
    }

    /** The tail of a due iteration: advance the root's slot and re-sink it. A
        root that is still earliest stays. */
    method AdvanceRoot(now: int)
      requires Valid() && heap.Length > 0 && heap[0].next <= now
      requires heap[0] in entries
      modifies heap, entries`next
      ensures Valid() && Consistent(fleet, old(Snapshot()))
      ensures Snapshot() == old(Snapshot()).(next := Fire(fleet, old(Snapshot()).next, now, old(heap[0]).id))
      ensures IsEarliest(old(heap[0])) ==> heap[0] == old(heap[0])
    {
      SnapshotIsConsistent();
      ghost var v := Snapshot();
      var e := heap[0];
      MoveSlot(e, now);
      forall k | 0 < k < heap.Length ensures heap[k] != e {
        RootIsAlone(k);
      }
      assert OrderedFrom(1);
      Fix();
      SnapshotEquals(v.(next := Fire(fleet, v.next, now, e.id)));
    }

    /** The judgement of a due root. `cancelled` says whether the dispatch select
        takes the context's arm: then the entry stays marked in flight, in no
        queue, with its slot not advanced. */
    method JudgeRoot(cancelled: bool) returns (returned: bool)
      requires Valid() && heap.Length > 0 && heap[0] in entries
      modifies this`work, this`skipped, this`skips, heap[0]
      ensures Valid() && Consistent(fleet, old(Snapshot()))
      ensures returned == (cancelled && !old(heap[0].inflight))
      ensures Snapshot() == Judged(old(Snapshot()), heap[0].id, returned)
      ensures heap[0].inflight && heap[0].started == old(heap[0].started)
    {
      SnapshotIsConsistent();
      ghost var v := Snapshot();
      var e := heap[0];
      returned := false;
      if e.inflight {
        RecordSkip(e);
      } else {
        e.inflight := true;
        if cancelled {
          returned := true;
        } else {
          work := work + [e];
          assert Ids(work) == v.work + [e.id];
        }
      }
      SnapshotEquals(Judged(v, e.id, returned));
    }

    /** One round of the loop, up to the point where it would block or return. */
    method Iterate(now: int, cancelled: bool) returns (top: nat, outcome: Outcome)
      requires Valid() && entries != []
      modifies this`work, this`done, this`skipped, this`skips, heap, entries, done
      ensures Valid() && Consistent(fleet, old(Snapshot()))
      ensures IsTop(old(Snapshot()).next, top)
      ensures var v := Drained(fleet, old(Snapshot()));
        match outcome
        case Again => !Judge(fleet, v.next, now, top).Armed? && Snapshot() == Iterated(fleet, v, now, top)
        case WaitFor(delay) => Judge(fleet, v.next, now, top).Armed? && delay == SatSub(v.next[top], now) > 0 && Snapshot() == v
        case Return => cancelled && !v.inflight[top] && Judge(fleet, v.next, now, top).Fired? && Snapshot() == Judged(v, top, true)
      ensures !cancelled ==> !outcome.Return?
      ensures Judge(fleet, old(Snapshot()).next, now, top).Fired? ==> Snapshot().inflight[top]
      ensures top == old(heap[0].id)
      ensures outcome.Again? && Judge(fleet, old(Snapshot()).next, now, top).Fired? && IsEarliest(old(heap[0])) ==>
        heap[0] == old(heap[0])
    {
      DrainDone();
      RootIsATop();
      SnapshotIsConsistent();
      var e := heap[0];
      top := e.id;
      if IsStale(e.next, now, e.interval) {
        Reanchor(now);
        return top, Again;
      }
      var delay := SatSub(e.next, now);
      if delay > 0 {
        return top, WaitFor(delay);
      }
      var returned := JudgeRoot(cancelled);
      if returned {
        return top, Return;
      }
      AdvanceRoot(now);
      outcome := Again;
    }


    /** Workers ack these entries. */
    method Arrive(acks: seq<nat>)
      requires Valid() && AreEntries(acks, |entries|)
      modifies this`done
      ensures Valid() && Snapshot() == old(Snapshot()).(done := old(Snapshot()).done + acks)
      ensures Consistent(fleet, old(Snapshot())) && |old(Snapshot()).next| == |entries|
    {
      SnapshotIsConsistent();
      ghost var v := Snapshot();
      var more := seq(|acks|, i requires 0 <= i < |acks| => entries[acks[i]]);
      done := done + more;
      assert Ids(done) == v.done + acks;
      SnapshotEquals(v.(done := v.done + acks));
    }

    /** Workers mark these entries started. */
    method Mark(marks: seq<nat>)
      requires Valid() && AreEntries(marks, |entries|)
      modifies entries`started
      ensures Valid() && Consistent(fleet, old(Snapshot())) && |old(Snapshot()).next| == |entries|
      ensures Snapshot() == Marked(fleet, old(Snapshot()), marks)
    {
      SnapshotIsConsistent();
      ghost var v := Snapshot();
      for k := 0 to |marks|
        invariant forall i :: 0 <= i < |entries| ==> (entries[i].started <==> v.started[i] || i in marks[..k])
      {
        entries[marks[k]].started := true;
        assert marks[..k + 1] == marks[..k] + [marks[k]];
      }
      assert marks[..|marks|] == marks;
      SnapshotEquals(Marked(fleet, v, marks));
    }

    /** One round of the loop, after workers have marked some entries and some acks
        have come in. */
    method IterateAfter(marks: seq<nat>, acks: seq<nat>, now: int, cancelled: bool) returns (top: nat, outcome: Outcome)
      requires Valid() && entries != [] && AreMarks(Snapshot(), marks) && AreEntries(acks, |entries|)
      modifies this`work, this`done, this`skipped, this`skips, heap, entries, done
      ensures Valid() && Consistent(fleet, old(Snapshot())) && |old(Snapshot()).next| == |entries|
      ensures Comes(fleet, now, old(Snapshot()), Turn(marks, acks, top), outcome, Snapshot())
      ensures Snapshot().done == [] && |Snapshot().next| == |entries|
      ensures top == old(heap[0].id) && (!cancelled ==> !outcome.Return?)
    {
      Mark(marks);
      Arrive(acks);
      top, outcome := Iterate(now, cancelled);
    }

    /** Marks and acks name entries; the first marks are not of entries acked
        already. */
    ghost predicate MayCome(marks: seq<seq<nat>>, acks: seq<seq<nat>>)
      requires Valid()
      reads this, heap, heap[..], entries
    {
      && AreMarks(Snapshot(), Before(marks, 0))
      && (forall t: nat :: AreEntries(Before(marks, t), |entries|))
      && (forall t: nat :: AreEntries(Before(acks, t), |entries|))
    }

    /** Iterate at one clock reading until the loop waits, or returns because a
        dispatch select took the context's arm. Workers may mark entries, acks may
        come in, and the context may be cancelled, before any iteration. */
    method Lap(now: int, marks: seq<seq<nat>>, arrivals: seq<seq<nat>>, cancels: seq<bool>)
      returns (outcome: Outcome, ghost views: seq<View>, ghost turns: seq<Turn>, ghost last: Turn)
      requires Valid() && entries != [] && MayCome(marks, arrivals)
      modifies this`work, this`done, this`skipped, this`skips, heap, entries, done
      ensures Valid() && IsBurst(fleet, now, views, turns) && views[0] == old(Snapshot())
      ensures !outcome.Again? && Comes(fleet, now, views[|turns|], last, outcome, Snapshot())
      ensures Processed(views[0], now, Judgements(fleet, now, views, turns, |turns|), views[|turns|])
      ensures IsService(fleet, views, RoundsOf(now, turns))
      ensures outcome.WaitFor? ==>
        && Lists(JudgedEntries(Judgements(fleet, now, views, turns, |turns|)), Due(views[0].next, now))
        && SlotsSettled(fleet, views[0].next, now, views[|turns|].next)
      ensures outcome.Return? ==> exists t :: 0 <= t < |cancels| && cancels[t]
    {
      SnapshotIsConsistent();
      views, turns, last, outcome := [Snapshot()], [], Turn([], [], 0), Again;
      ghost var v := Snapshot();
      var t := 0;
      while outcome.Again?
        invariant Valid() && Leads(fleet, now, views, turns, old(Snapshot()), v)
        invariant if outcome.Again? then v == Snapshot() else Comes(fleet, now, v, last, outcome, Snapshot())
        invariant outcome.Again? ==> AreMarks(v, Before(marks, t))
        invariant outcome.Return? ==> 0 < t <= |cancels| && cancels[t - 1]
        invariant forall i :: 0 <= i < |done| ==> done[i] in entries
        decreases Due(v.next, now), Unsettled(fleet, v.next, now), outcome.Again?
      {
        outcome, last, views, turns, v := LapOnce(now, marks, arrivals, t, t < |cancels| && cancels[t], views, turns, old(Snapshot()));
        t := t + 1;
      }
      LapIsOver(fleet, now, views, turns, last, outcome, Snapshot());
    }

    /** One iteration of a lap. */
    method LapOnce(now: int, marks: seq<seq<nat>>, arrivals: seq<seq<nat>>, t: nat, cancelled: bool,
                   ghost views: seq<View>, ghost turns: seq<Turn>, ghost from: View)
      returns (outcome: Outcome, ghost last: Turn, ghost longer: seq<View>, ghost more: seq<Turn>, ghost v: View)
      requires Valid() && entries != [] && AreMarks(Snapshot(), Before(marks, t))
      requires AreEntries(Before(arrivals, t), |entries|) && AreEntries(Before(marks, t + 1), |entries|)
      requires Leads(fleet, now, views, turns, from, Snapshot())
      modifies this`work, this`done, this`skipped, this`skips, heap, entries, done
      ensures Valid() && Leads(fleet, now, longer, more, from, v) && (!cancelled ==> !outcome.Return?)
      ensures if outcome.Again? then v == Snapshot() && AreMarks(v, Before(marks, t + 1)) && Nearer(fleet, now, old(Snapshot()), v)
        else v == old(Snapshot()) && Comes(fleet, now, v, last, outcome, Snapshot())
    {
      v := Snapshot();
      var top;
      top, outcome := IterateAfter(Before(marks, t), Before(arrivals, t), now, cancelled);
      last, longer, more := Turn(Before(marks, t), Before(arrivals, t), top), views, turns;
      if outcome.Again? {
        BurstGoesOn(fleet, now, views, turns, from, v, last, Snapshot());
        v := Snapshot();
        longer, more := views + [v], turns + [last];
      }
    }

    /** The loop over many readings of the clock. Its slots make a history in the
        sense of `Staleness`, so if the clock stepped back only while the timer was
        armed and it is armed now, the slots are close. And it is a service in the
        sense of `Flights`: no target ever overlaps itself. */
    method Serve(ghost start: int, script: Script) returns (ghost log: Log)
      requires Valid() && entries != [] && Snapshot().next == Initial(fleet, start).next && MayCome(script.marks, script.acks)
      modifies this`work, this`done, this`skipped, this`skips, heap, entries, done
      ensures Valid() && Records(fleet, log, start, script) && |log.rounds| == |script.readings|
      ensures log.views[0] == old(Snapshot()) && log.views[|log.rounds|] == Snapshot()
      ensures NeverOverlaps(log.views, log.rounds)
      ensures StepsBackOnlyWhileArmed(fleet, log.h) && JustArmed(fleet, log.h) ==> Close(fleet, Snapshot().next)
    {
      HistoryFromStart(fleet, start);
      SnapshotIsConsistent();
      log := Log(History(start, [], [Snapshot().next]), [Snapshot()], []);
      for k := 0 to |script.readings|
        invariant Valid() && Records(fleet, log, start, script) && |log.rounds| == k
        invariant log.views[0] == old(Snapshot()) && log.views[k] == Snapshot()
        invariant AreMarks(Snapshot(), Before(script.marks, k))
        invariant forall i :: 0 <= i < |done| ==> done[i] in entries
      {
        log := ServeOnce(log, start, script, k);
      }
      ServiceNeverOverlaps(fleet, log.views, log.rounds);
      if StepsBackOnlyWhileArmed(fleet, log.h) && JustArmed(fleet, log.h) {
        JustArmedIsClose(fleet, log.h);
      }
    }

    /** One iteration more. */
    method ServeOnce(ghost log: Log, ghost start: int, script: Script, k: nat) returns (ghost longer: Log)
      requires Valid() && entries != [] && k < |script.readings|
      requires AreMarks(Snapshot(), Before(script.marks, k)) && AreEntries(Before(script.acks, k), |entries|)
      requires Records(fleet, log, start, script) && |log.rounds| == k && log.views[k] == Snapshot()
      modifies this`work, this`done, this`skipped, this`skips, heap, entries, done
      ensures Valid() && Snapshot().done == [] && |Snapshot().next| == |entries|
      ensures Records(fleet, longer, start, script) && |longer.rounds| == k + 1
      ensures longer.views[0] == log.views[0] && longer.views[k + 1] == Snapshot()
    {
      SnapshotIsConsistent();
      var top, outcome := IterateAfter(Before(script.marks, k), Before(script.acks, k), script.readings[k], false);
      RecordGrows(fleet, log, start, script, top, outcome, Snapshot());
      longer := Extended(log, Round(script.readings[k], Turn(Before(script.marks, k), Before(script.acks, k), top)), Snapshot());
    }
  }
}
