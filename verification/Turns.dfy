/** One scheduler iteration ("turn") and one burst of iterations at a frozen
    clock ("lap"), on plain values: `next[i]` is entry i's slot, and the heap
    top is any entry with a minimal slot. */
module Turns {
  import opened SlotTime

  /** The immutable schedule data of every entry. */
  datatype Fleet = Fleet(intervals: seq<int>, phases: seq<int>) {
    ghost predicate Valid() {
      && |intervals| == |phases|
      && forall i :: 0 <= i < |intervals| ==> 0 < intervals[i] <= MAX_INT64 && 0 <= phases[i] < intervals[i]
    }
  }

  /** A configured target: its interval and the 64-bit hash of its URL. */
  datatype Target = Target(interval: Duration, hash: nat)

  type Duration = d: int | MIN_INT64 <= d <= MAX_INT64

  datatype Built = Panic | Made(fleet: Fleet)

  function PhaseOf(hash: nat, interval: int): (phase: int)
    requires interval > 0
    ensures 0 <= phase < interval && OnPhase(hash, interval, phase)
  {
    FloorIsMultiple(hash, interval);
    hash % interval
  }

  function IntervalOf(interval: Duration, default: Duration): (iv: Duration)
    requires default > 0
    ensures iv > 0
  {
    if interval <= 0 then default else interval
  }

  /** `New`: a target without an interval gets the default one, its phase is its
      hash modulo that, and every fleet made this way is a valid one. */
  function New(targets: seq<Target>, default: Duration): (b: Built)
    ensures b.Panic? <==> default <= 0
    ensures b.Made? ==> b.fleet.Valid() && |b.fleet.intervals| == |targets|
    ensures b.Made? ==> forall i :: 0 <= i < |targets| ==>
      b.fleet.intervals[i] == if targets[i].interval <= 0 then default else targets[i].interval
    ensures b.Made? ==> forall i :: 0 <= i < |targets| ==>
      b.fleet.intervals[i] > 0 && b.fleet.phases[i] == targets[i].hash % b.fleet.intervals[i]
  {
    if default <= 0 then Panic
    else
      var intervals := seq(|targets|, i requires 0 <= i < |targets| => IntervalOf(targets[i].interval, default));
      var phases := seq(|targets|, i requires 0 <= i < |targets| => PhaseOf(targets[i].hash, IntervalOf(targets[i].interval, default)));
      Made(Fleet(intervals, phases))
  }

  /** `next` assigns every entry of the fleet one of its own slots. */
  ghost predicate Fits(f: Fleet, next: seq<int>) {
    && f.Valid()
    && |next| == |f.intervals|
    && forall i :: 0 <= i < |next| ==> OnPhase(next[i], f.intervals[i], f.phases[i])
  }

  ghost predicate IsTop(next: seq<int>, top: nat) {
    && top < |next|
    && forall i :: 0 <= i < |next| ==> next[top] <= next[i]
  }

  ghost predicate StaleAt(f: Fleet, next: seq<int>, now: int, i: nat)
    requires Fits(f, next) && i < |next|
  {
    IsStale(next[i], now, f.intervals[i])
  }

  datatype Verdict = Reanchored | Armed | Fired

  /** The branch an iteration takes at clock reading `now` with heap top `top`. */
  ghost function Judge(f: Fleet, next: seq<int>, now: int, top: nat): Verdict
    requires Fits(f, next) && top < |next|
  {
    if StaleAt(f, next, now, top) then Reanchored
    else if SatSub(next[top], now) > 0 then Armed
    else Fired
  }

  ghost function Fire(f: Fleet, next: seq<int>, now: int, top: nat): (r: seq<int>)
    requires Fits(f, next) && top < |next| && next[top] <= now
    ensures Fits(f, r)
    ensures r == next[top := SlotAfter(now, f.intervals[top], f.phases[top])]
  {
    AdvanceIsSlotAfter(next[top], now, f.intervals[top], f.phases[top]);
    next[top := Advance(next[top], now, f.intervals[top], f.phases[top])]
  }

  /** The re-anchor pass over the whole heap. */
  ghost function Reanchor(f: Fleet, next: seq<int>, now: int): (r: seq<int>)
    requires Fits(f, next)
    ensures Fits(f, r)
    ensures forall i :: 0 <= i < |next| ==>
      r[i] == if StaleAt(f, next, now, i) then SlotAfter(now, f.intervals[i], f.phases[i]) else next[i]
  {
    seq(|next|, i requires 0 <= i < |next| =>
      if StaleAt(f, next, now, i) then SlotAfter(now, f.intervals[i], f.phases[i]) else next[i])
  }

  ghost function AfterTurn(f: Fleet, next: seq<int>, now: int, top: nat): (r: seq<int>)
    requires Fits(f, next) && top < |next|
    ensures Fits(f, r)
  {
    match Judge(f, next, now, top)
    case Reanchored => Reanchor(f, next, now)
    case Armed => next
    case Fired => Fire(f, next, now, top)
  }

  // ------------------------------------------------------------------- laps

  ghost function Due(next: seq<int>, now: int): set<nat> {
    set i: nat | i < |next| && next[i] <= now
  }

  /** Every due entry on its first slot after `now`, every other one untouched. */
  ghost function FireAll(f: Fleet, next: seq<int>, now: int): (r: seq<int>)
    requires Fits(f, next)
    ensures Fits(f, r)
    ensures forall i :: 0 <= i < |next| ==>
      r[i] == if next[i] <= now then SlotAfter(now, f.intervals[i], f.phases[i]) else next[i]
  {
    seq(|next|, i requires 0 <= i < |next| =>
      if next[i] <= now then SlotAfter(now, f.intervals[i], f.phases[i]) else next[i])
  }

  /** `tops` are the heap tops of successive iterations at one clock reading,
      the last of which arms the timer. Ties may be broken in any way. */
  ghost predicate IsLap(f: Fleet, next: seq<int>, now: int, tops: seq<nat>)
    requires Fits(f, next)
    decreases |tops|
  {
    && tops != []
    && IsTop(next, tops[0])
    && if |tops| == 1 then Judge(f, next, now, tops[0]).Armed?
       else !Judge(f, next, now, tops[0]).Armed? && IsLap(f, AfterTurn(f, next, now, tops[0]), now, tops[1..])
  }

  /** The slots when the lap arms its timer. */
  ghost function LapEnd(f: Fleet, next: seq<int>, now: int, tops: seq<nat>): (r: seq<int>)
    requires Fits(f, next) && IsLap(f, next, now, tops)
    ensures Fits(f, r)
    decreases |tops|
  {
    if |tops| == 1 then next else LapEnd(f, AfterTurn(f, next, now, tops[0]), now, tops[1..])
  }

  lemma NothingDue(f: Fleet, next: seq<int>, now: int, top: nat)
    requires Fits(f, next) && IsTop(next, top) && next[top] > now
    ensures Due(next, now) == {} && FireAll(f, next, now) == next
  {
  }

  lemma FiringOne(f: Fleet, next: seq<int>, now: int, top: nat)
    requires Fits(f, next) && top < |next| && next[top] <= now
    ensures Due(Fire(f, next, now, top), now) == Due(next, now) - {top}
    ensures |Due(Fire(f, next, now, top), now)| == |Due(next, now)| - 1
    ensures FireAll(f, Fire(f, next, now, top), now) == FireAll(f, next, now)
  {
    var fired := Fire(f, next, now, top);
    assert Due(fired, now) == Due(next, now) - {top};
    assert top in Due(next, now);
  }

  lemma ReanchoringSettles(f: Fleet, next: seq<int>, now: int, top: nat)
    requires Fits(f, next) && IsTop(next, top) && next[top] > now
    ensures forall i :: 0 <= i < |next| ==> Reanchor(f, next, now)[i] > now && !StaleAt(f, Reanchor(f, next, now), now, i)
  {
    forall i | 0 <= i < |next|
      ensures Reanchor(f, next, now)[i] > now && !StaleAt(f, Reanchor(f, next, now), now, i)
    {
      StaleIsMoreThanOneIntervalAway(Reanchor(f, next, now)[i], now, f.intervals[i]);
    }
  }

  /** Lap theorem, first half. From any slots at all, stale or not, the first
      |Due| iterations process every due entry exactly once. */
  lemma {:induction false} LapProcessesDueOnce(f: Fleet, next: seq<int>, now: int, tops: seq<nat>)
    requires Fits(f, next) && IsLap(f, next, now, tops)
    ensures |Due(next, now)| < |tops|
    ensures forall t :: t in tops[..|Due(next, now)|] <==> t in Due(next, now)
    ensures forall i, j :: 0 <= i < j < |Due(next, now)| ==> tops[i] != tops[j]
    decreases |tops|
  {
    var top, k := tops[0], |Due(next, now)|;
    if Judge(f, next, now, top).Fired? {
      FiringOne(f, next, now, top);
      LapProcessesDueOnce(f, Fire(f, next, now, top), now, tops[1..]);
      PrependFresh(top, tops, k, Due(next, now));
    } else {
      NothingDue(f, next, now, top);
    }
  }

  /** Prefixing a listing of `all - {top}` with `top` lists `all`. */
  lemma PrependFresh(top: nat, tops: seq<nat>, k: nat, all: set<nat>)
    requires 0 < k < |tops| && top == tops[0] && top in all
    requires forall t :: t in tops[1..][..k - 1] <==> t in all - {top}
    requires forall i, j :: 0 <= i < j < k - 1 ==> tops[1..][i] != tops[1..][j]
    ensures forall t :: t in tops[..k] <==> t in all
    ensures forall i, j :: 0 <= i < j < k ==> tops[i] != tops[j]
  {
    var rest := tops[1..];
    assert tops[..k] == [top] + rest[..k - 1];
    forall t: nat ensures t in tops[..k] <==> t in all {
      assert t in tops[..k] <==> t == top || t in rest[..k - 1];
      assert t in tops[1..][..k - 1] <==> t in all - {top};
    }
    forall i, j | 0 <= i < j < k ensures tops[i] != tops[j] {
      assert tops[j] == rest[j - 1];
      if i == 0 {
        assert rest[j - 1] == rest[..k - 1][j - 1];
        assert rest[j - 1] in all - {top};
      } else {
        assert tops[i] == rest[i - 1];
      }
    }
  }

  /** Lap theorem, second half. The iteration after that looks at a top of
      `FireAll`, and this top alone decides whether one re-anchor pass follows
      before the timer is armed. A lap therefore takes |Due| + 1 or |Due| + 2
      iterations. */
  lemma {:induction false} LapEndsAfterDue(f: Fleet, next: seq<int>, now: int, tops: seq<nat>)
    requires Fits(f, next) && IsLap(f, next, now, tops)
    ensures |Due(next, now)| < |tops|
    ensures IsTop(FireAll(f, next, now), tops[|Due(next, now)|])
    ensures StaleAt(f, FireAll(f, next, now), now, tops[|Due(next, now)|]) ==>
      && |tops| == |Due(next, now)| + 2
      && LapEnd(f, next, now, tops) == Reanchor(f, FireAll(f, next, now), now)
    ensures !StaleAt(f, FireAll(f, next, now), now, tops[|Due(next, now)|]) ==>
      && |tops| == |Due(next, now)| + 1
      && LapEnd(f, next, now, tops) == FireAll(f, next, now)
    decreases |tops|
  {
    var top := tops[0];
    match Judge(f, next, now, top)
    case Armed =>
      NothingDue(f, next, now, top);
    case Reanchored =>
      NothingDue(f, next, now, top);
      ReanchoringSettles(f, next, now, top);
      assert Judge(f, Reanchor(f, next, now), now, tops[1..][0]).Armed?;
    case Fired =>
      FiringOne(f, next, now, top);
      LapEndsAfterDue(f, Fire(f, next, now, top), now, tops[1..]);
  }

  lemma FireAllKeepsFreshness(f: Fleet, next: seq<int>, now: int)
    requires Fits(f, next)
    requires forall i :: 0 <= i < |next| ==> !StaleAt(f, next, now, i)
    ensures forall i :: 0 <= i < |next| ==> !StaleAt(f, FireAll(f, next, now), now, i)
  {
    forall i | 0 <= i < |next| ensures !StaleAt(f, FireAll(f, next, now), now, i) {
      assert !StaleAt(f, next, now, i);
      StaleIsMoreThanOneIntervalAway(FireAll(f, next, now)[i], now, f.intervals[i]);
    }
  }

  /** With no stale entry the outcome does not depend on how ties are broken. */
  lemma LapWithoutStaleEntries(f: Fleet, next: seq<int>, now: int, tops: seq<nat>)
    requires Fits(f, next) && IsLap(f, next, now, tops)
    requires forall i :: 0 <= i < |next| ==> !StaleAt(f, next, now, i)
    ensures LapEnd(f, next, now, tops) == FireAll(f, next, now)
    ensures |tops| == |Due(next, now)| + 1
  {
    LapEndsAfterDue(f, next, now, tops);
    FireAllKeepsFreshness(f, next, now);
  }

  // ---------------------------------------------------- the linear-scan lap

  /** The lowest index holding a minimal slot. */
  ghost function ScanTop(next: seq<int>): (m: nat)
    requires next != []
    ensures IsTop(next, m)
    ensures forall i :: 0 <= i < m ==> next[m] < next[i]
  {
    if |next| == 1 then 0
    else
      var m := ScanTop(next[..|next| - 1]);
      if next[|next| - 1] < next[m] then |next| - 1 else m
  }

  /** The shadow scheduler of the fuzz tests: scan for the minimum, no heap. */
  ghost function ScanLap(f: Fleet, next: seq<int>, now: int): (r: seq<int>)
    requires Fits(f, next) && next != []
    ensures Fits(f, r)
    decreases Due(next, now), if Judge(f, next, now, ScanTop(next)).Reanchored? then 1 else 0
  {
    var m := ScanTop(next);
    match Judge(f, next, now, m)
    case Armed => next
    case Reanchored =>
      NothingDue(f, next, now, m);
      ReanchoringSettles(f, next, now, m);
      assert Due(Reanchor(f, next, now), now) == {};
      ScanLap(f, Reanchor(f, next, now), now)
    case Fired =>
      FiringOne(f, next, now, m);
      ScanLap(f, Fire(f, next, now, m), now)
  }

  /** The tops a linear scan picks: one particular way of breaking ties. */
  lemma {:induction false} ScanLapIsALap(f: Fleet, next: seq<int>, now: int) returns (tops: seq<nat>)
    requires Fits(f, next) && next != []
    ensures IsLap(f, next, now, tops) && LapEnd(f, next, now, tops) == ScanLap(f, next, now)
    decreases Due(next, now), if Judge(f, next, now, ScanTop(next)).Reanchored? then 1 else 0
  {
    var m := ScanTop(next);
    if Judge(f, next, now, m).Armed? {
      return [m];
    }
    if Judge(f, next, now, m).Reanchored? {
      NothingDue(f, next, now, m);
      ReanchoringSettles(f, next, now, m);
      assert Due(Reanchor(f, next, now), now) == {};
    } else {
      FiringOne(f, next, now, m);
    }
    var rest := ScanLapIsALap(f, AfterTurn(f, next, now, m), now);
    tops := [m] + rest;
    assert tops[1..] == rest;
  }

  /** Refinement: with no stale entry, every heap order ends where the linear
      scan ends. */
  lemma EveryLapIsTheScanLap(f: Fleet, next: seq<int>, now: int, tops: seq<nat>)
    requires Fits(f, next) && IsLap(f, next, now, tops)
    requires forall i :: 0 <= i < |next| ==> !StaleAt(f, next, now, i)
    ensures LapEnd(f, next, now, tops) == ScanLap(f, next, now)
  {
    var scanned := ScanLapIsALap(f, next, now);
    LapWithoutStaleEntries(f, next, now, tops);
    LapWithoutStaleEntries(f, next, now, scanned);
  }

  // ------------------------------------------------- when heap order matters

  /** All tops of `next` agree on the guard. */
  ghost predicate TopsAgree(f: Fleet, next: seq<int>, now: int)
    requires Fits(f, next)
  {
    forall s, t :: IsTop(next, s) && IsTop(next, t) ==> (StaleAt(f, next, now, s) <==> StaleAt(f, next, now, t))
  }

  lemma LapOfNothingDue(f: Fleet, next: seq<int>, now: int, top: nat) returns (tops: seq<nat>)
    requires Fits(f, next) && IsTop(next, top) && next[top] > now
    ensures IsLap(f, next, now, tops) && tops[0] == top
  {
    tops := [top];
    if Judge(f, next, now, top).Reanchored? {
      ReanchoringSettles(f, next, now, top);
      var again := ScanTop(Reanchor(f, next, now));
      tops := [top, again];
      assert tops[1..] == [again];
      assert Judge(f, Reanchor(f, next, now), now, again).Armed?;
    }
  }

  /** A lap whose deciding iteration looks at the given top of `FireAll`. */
  lemma {:induction false} LapDecidedBy(f: Fleet, next: seq<int>, now: int, top: nat) returns (tops: seq<nat>)
    requires Fits(f, next) && IsTop(FireAll(f, next, now), top)
    ensures IsLap(f, next, now, tops) && |Due(next, now)| < |tops| && tops[|Due(next, now)|] == top
    decreases Due(next, now)
  {
    var m := ScanTop(next);
    StaleIsMoreThanOneIntervalAway(next[m], now, f.intervals[m]);
    if next[m] <= now {
      FiringOne(f, next, now, m);
      var rest := LapDecidedBy(f, Fire(f, next, now, m), now, top);
      tops := [m] + rest;
      assert tops[1..] == rest;
    } else {
      NothingDue(f, next, now, m);
      tops := LapOfNothingDue(f, next, now, top);
    }
  }

  lemma AgreeingTopsEndAlike(f: Fleet, next: seq<int>, now: int, a: seq<nat>, b: seq<nat>)
    requires Fits(f, next) && TopsAgree(f, FireAll(f, next, now), now)
    requires IsLap(f, next, now, a) && IsLap(f, next, now, b)
    ensures LapEnd(f, next, now, a) == LapEnd(f, next, now, b)
  {
    LapEndsAfterDue(f, next, now, a);
    LapEndsAfterDue(f, next, now, b);
  }

  lemma DisagreeingTopsEndApart(f: Fleet, next: seq<int>, now: int, s: nat, t: nat) returns (a: seq<nat>, b: seq<nat>)
    requires Fits(f, next) && IsTop(FireAll(f, next, now), s) && IsTop(FireAll(f, next, now), t)
    requires StaleAt(f, FireAll(f, next, now), now, s) && !StaleAt(f, FireAll(f, next, now), now, t)
    ensures IsLap(f, next, now, a) && IsLap(f, next, now, b)
    ensures LapEnd(f, next, now, a) != LapEnd(f, next, now, b)
  {
    a := LapDecidedBy(f, next, now, s);
    b := LapDecidedBy(f, next, now, t);
    LapEndsAfterDue(f, next, now, a);
    LapEndsAfterDue(f, next, now, b);
    StaleIsMoreThanOneIntervalAway(FireAll(f, next, now)[s], now, f.intervals[s]);
    assert LapEnd(f, next, now, a)[s] != LapEnd(f, next, now, b)[s];
  }

  /** Two laps from the same slots can end differently exactly when the entries
      tied at the top disagree on the guard. */
  lemma HeapOrderMattersIffTopsDisagree(f: Fleet, next: seq<int>, now: int)
    requires Fits(f, next)
    ensures TopsAgree(f, FireAll(f, next, now), now) <==>
      forall a, b :: IsLap(f, next, now, a) && IsLap(f, next, now, b) ==> LapEnd(f, next, now, a) == LapEnd(f, next, now, b)
  {
    var fired := FireAll(f, next, now);
    if TopsAgree(f, fired, now) {
      forall a, b | IsLap(f, next, now, a) && IsLap(f, next, now, b)
        ensures LapEnd(f, next, now, a) == LapEnd(f, next, now, b)
      {
        AgreeingTopsEndAlike(f, next, now, a, b);
      }
    } else {
      var s: nat, t: nat :| IsTop(fired, s) && IsTop(fired, t) && StaleAt(f, fired, now, s) && !StaleAt(f, fired, now, t);
      var a, b := DisagreeingTopsEndApart(f, next, now, s, t);
    }
  }
}
