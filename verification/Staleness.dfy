/** How far apart the slots of two entries can drift over a whole run of the
    scheduler, with the wall clock stepping back any number of times. */
module Staleness {
  import opened SlotTime
  import opened Turns

  /** What one iteration read: the clock, and which entry was on top. */
  datatype Reading = Reading(now: int, top: nat)

  /** A run of scheduler iterations from the instant `start` at which the slots
      were first computed; `next[k]` is the state before iteration k. */
  datatype History = History(start: int, readings: seq<Reading>, next: seq<seq<int>>)

  ghost predicate IsHistory(f: Fleet, h: History) {
    && f.Valid()
    && |h.next| == |h.readings| + 1
    && (forall k :: 0 <= k < |h.next| ==> Fits(f, h.next[k]))
    && (forall i :: 0 <= i < |h.next[0]| ==> h.next[0][i] == SlotAfter(h.start, f.intervals[i], f.phases[i]))
    && (forall k :: 0 <= k < |h.readings| ==>
          && IsTop(h.next[k], h.readings[k].top)
          && h.next[k + 1] == AfterTurn(f, h.next[k], h.readings[k].now, h.readings[k].top))
  }

  ghost predicate ArmsAt(f: Fleet, h: History, k: nat)
    requires IsHistory(f, h) && k < |h.readings|
  {
    Judge(f, h.next[k], h.readings[k].now, h.readings[k].top).Armed?
  }

  ghost predicate GuardPassesAt(f: Fleet, h: History, k: nat)
    requires IsHistory(f, h) && k < |h.readings|
  {
    !Judge(f, h.next[k], h.readings[k].now, h.readings[k].top).Reanchored?
  }

  /** The clock reading that precedes iteration k. */
  ghost function LastReading(h: History, k: nat): int
    requires k <= |h.readings|
  {
    if k == 0 then h.start else h.readings[k - 1].now
  }

  /** The wall clock steps back only while the timer is armed: between two
      iterations of one due burst it does not decrease. */
  ghost predicate StepsBackOnlyWhileArmed(f: Fleet, h: History)
    requires IsHistory(f, h)
  {
    forall k :: 0 <= k < |h.readings| && (k == 0 || !ArmsAt(f, h, k - 1)) ==> LastReading(h, k) <= h.readings[k].now
  }

  /** Saturation hides staleness for an interval of exactly MAX_INT64. */
  ghost predicate Bounded(f: Fleet, i: nat)
    requires f.Valid() && i < |f.intervals|
  {
    f.intervals[i] < MAX_INT64
  }

  /** No entry is a full interval or more behind another. */
  ghost predicate Close(f: Fleet, next: seq<int>)
    requires Fits(f, next)
  {
    forall x, y :: 0 <= x < |next| && 0 <= y < |next| && Bounded(f, x) ==> next[x] - next[y] < f.intervals[x]
  }

  /** `Close` except against entries already overtaken by the clock: what holds
      in the middle of a due burst. */
  ghost predicate CloseFrom(f: Fleet, next: seq<int>, last: int)
    requires Fits(f, next)
  {
    forall x, y :: 0 <= x < |next| && 0 <= y < |next| && Bounded(f, x) ==>
      next[x] - f.intervals[x] < next[y] || next[x] - f.intervals[x] <= last
  }

  lemma TurnKeepsCloseFrom(f: Fleet, next: seq<int>, last: int, now: int, top: nat)
    requires Fits(f, next) && IsTop(next, top) && CloseFrom(f, next, last)
    requires last <= now || Close(f, next)
    ensures CloseFrom(f, AfterTurn(f, next, now, top), now)
    ensures Judge(f, next, now, top).Armed? ==> Close(f, next)
  {
    var after := AfterTurn(f, next, now, top);
    forall x, y | 0 <= x < |next| && 0 <= y < |next| && Bounded(f, x)
      ensures after[x] - f.intervals[x] < after[y] || after[x] - f.intervals[x] <= now
      ensures Judge(f, next, now, top).Armed? ==> next[x] - next[y] < f.intervals[x]
    {
      StaleIsMoreThanOneIntervalAway(next[x], now, f.intervals[x]);
      assert next[top] <= next[x] && next[top] <= next[y];
      assert next[x] - f.intervals[x] < next[y] || next[x] - f.intervals[x] <= now;
      if Judge(f, next, now, top).Reanchored? {
        assert StaleAt(f, next, now, x) ==> after[x] == SlotAfter(now, f.intervals[x], f.phases[x]);
      }
    }
  }

  lemma {:induction false} HistoryKeepsCloseFrom(f: Fleet, h: History, k: nat)
    requires IsHistory(f, h) && StepsBackOnlyWhileArmed(f, h) && k <= |h.readings|
    ensures CloseFrom(f, h.next[k], LastReading(h, k))
    ensures k > 0 && ArmsAt(f, h, k - 1) ==> Close(f, h.next[k])
  {
    if k > 0 {
      HistoryKeepsCloseFrom(f, h, k - 1);
      TurnKeepsCloseFrom(f, h.next[k - 1], LastReading(h, k - 1), h.readings[k - 1].now, h.readings[k - 1].top);
    }
  }

  /** At every armed state of every run, however often the clock stepped back
      while armed, any entry's slot is less than its own interval after any
      other entry's slot. */
  lemma ArmedSlotsAreClose(f: Fleet, h: History, k: nat)
    requires IsHistory(f, h) && StepsBackOnlyWhileArmed(f, h) && k < |h.readings|
    requires ArmsAt(f, h, k)
    ensures Close(f, h.next[k])
  {
    HistoryKeepsCloseFrom(f, h, k);
    TurnKeepsCloseFrom(f, h.next[k], LastReading(h, k), h.readings[k].now, h.readings[k].top);
  }

  /** The O(1) guard is enough: whenever the top passes it, every entry is due
      within its own interval plus the top's. */
  lemma TopGuardBoundsEveryEntry(f: Fleet, h: History, k: nat, x: nat)
    requires IsHistory(f, h) && StepsBackOnlyWhileArmed(f, h) && k < |h.readings|
    requires GuardPassesAt(f, h, k)
    requires x < |f.intervals| && Bounded(f, x) && Bounded(f, h.readings[k].top)
    ensures h.next[k][x] - h.readings[k].now <= f.intervals[x] + f.intervals[h.readings[k].top]
  {
    HistoryKeepsCloseFrom(f, h, k);
    var t := h.readings[k].top;
    StaleIsMoreThanOneIntervalAway(h.next[k][t], h.readings[k].now, f.intervals[t]);
    assert h.next[k][x] - f.intervals[x] < h.next[k][t] || h.next[k][x] - f.intervals[x] <= LastReading(h, k);
    if k > 0 && ArmsAt(f, h, k - 1) {
      assert h.next[k][x] - h.next[k][t] < f.intervals[x];
    } else {
      assert LastReading(h, k) <= h.readings[k].now;
    }
  }

  /** Both hypotheses are needed. A backward step inside a due burst, after one
      entry of a long stall was advanced and before the other was, leaves the
      first stale behind a fresh top. */
  lemma StepBackInsideABurstBreaksTheBound(f: Fleet, h: History)
    requires f == Fleet([10, 10], [5, 6]) && h.start == 0
    requires h.readings == [Reading(10000, 0), Reading(7, 1), Reading(7, 1)]
    requires h.next == [[5, 6], [10005, 6], [10005, 16], [10005, 16]]
    ensures IsHistory(f, h) && !StepsBackOnlyWhileArmed(f, h) && ArmsAt(f, h, 2)
    ensures h.next[2][0] - h.readings[2].now > 900 * f.intervals[0]
  {
    var s := h.next;
    FirstBurstTurn(f, s[0], s[1]);
    SecondBurstTurn(f, s[1], s[2]);
    assert IsHistory(f, h);
    assert !ArmsAt(f, h, 0) && LastReading(h, 1) > h.readings[1].now;
  }

  lemma FirstBurstTurn(f: Fleet, before: seq<int>, after: seq<int>)
    requires f == Fleet([10, 10], [5, 6]) && before == [5, 6] && after == [10005, 6]
    ensures Fits(f, before) && before[0] == SlotAfter(0, 10, 5) && before[1] == SlotAfter(0, 10, 6)
    ensures IsTop(before, 0) && Judge(f, before, 10000, 0).Fired? && AfterTurn(f, before, 10000, 0) == after
  {
    SlotAfterIsTheOnlyOne(5, 0, 10, 5);
    SlotAfterIsTheOnlyOne(6, 0, 10, 6);
    SlotAfterIsTheOnlyOne(10005, 10000, 10, 5);
    assert Fits(f, before);
  }

  lemma SecondBurstTurn(f: Fleet, before: seq<int>, after: seq<int>)
    requires f == Fleet([10, 10], [5, 6]) && before == [10005, 6] && after == [10005, 16]
    ensures Fits(f, before) && IsTop(before, 1) && AfterTurn(f, before, 7, 1) == after
    ensures Fits(f, after) && IsTop(after, 1) && Judge(f, after, 7, 1).Armed?
  {
    SlotAfterIsTheOnlyOne(16, 7, 10, 6);
    assert Fits(f, before);
  }

  /** So is `Bounded`: an entry x whose interval is MAX_INT64 never looks stale,
      so once the clock is more than the top's interval further back than x can
      express, the re-anchor pass for top y leaves x a full interval behind. */
  lemma LongestIntervalBreaksTheBound(f: Fleet, next: seq<int>, now: int, x: nat, y: nat)
    requires Fits(f, next) && IsTop(next, y) && x < |next|
    requires !Bounded(f, x) && Bounded(f, y) && next[y] - now > f.intervals[y]
    requires next[x] - now >= MAX_INT64 + f.intervals[y]
    ensures Judge(f, next, now, y).Reanchored?
    ensures AfterTurn(f, next, now, y)[x] - AfterTurn(f, next, now, y)[y] >= f.intervals[x]
  {
    StaleIsMoreThanOneIntervalAway(next[x], now, f.intervals[x]);
    StaleIsMoreThanOneIntervalAway(next[y], now, f.intervals[y]);
  }

  // ------------------------------------------------------ runs, one step at a time

  lemma HistoryBegins(f: Fleet, start: int, next: seq<int>)
    requires Fits(f, next)
    requires forall i :: 0 <= i < |next| ==> start < next[i] <= start + f.intervals[i]
    ensures IsHistory(f, History(start, [], [next]))
  {
    forall i | 0 <= i < |next| ensures next[i] == SlotAfter(start, f.intervals[i], f.phases[i]) {
      SlotAfterIsTheOnlyOne(next[i], start, f.intervals[i], f.phases[i]);
    }
  }

  function Longer(h: History, r: Reading, after: seq<int>): History {
    History(h.start, h.readings + [r], h.next + [after])
  }

  lemma HistoryGoesOn(f: Fleet, h: History, r: Reading, after: seq<int>)
    requires IsHistory(f, h) && IsTop(h.next[|h.readings|], r.top)
    requires after == AfterTurn(f, h.next[|h.readings|], r.now, r.top)
    ensures IsHistory(f, Longer(h, r, after))
  {
    var n, longer := |h.readings|, Longer(h, r, after);
    forall k | 0 <= k < |longer.next| ensures Fits(f, longer.next[k]) {
      assert k <= n ==> longer.next[k] == h.next[k];
    }
    forall k | 0 <= k < |longer.readings|
      ensures IsTop(longer.next[k], longer.readings[k].top)
      ensures longer.next[k + 1] == AfterTurn(f, longer.next[k], longer.readings[k].now, longer.readings[k].top)
    {
      assert k < n ==> longer.next[k] == h.next[k] && longer.next[k + 1] == h.next[k + 1] && longer.readings[k] == h.readings[k];
    }
  }

  /** A pass that moves one entry. */
  lemma ReanchorsOne(f: Fleet, next: seq<int>, now: int, e: nat, slot: int)
    requires Fits(f, next) && e < |next| && StaleAt(f, next, now, e)
    requires forall i :: 0 <= i < |next| && i != e ==> !StaleAt(f, next, now, i)
    requires now < slot <= now + f.intervals[e] && OnPhase(slot, f.intervals[e], f.phases[e])
    ensures AfterTurn(f, next, now, e) == next[e := slot]
  {
    SlotAfterIsTheOnlyOne(slot, now, f.intervals[e], f.phases[e]);
  }

  /** Arm at the start, then step back to `now` while armed. */
  lemma ArmThenStepBack(f: Fleet, start: int, s: seq<int>, top: nat, now: int, after: seq<int>) returns (h: History)
    requires Fits(f, s) && IsTop(s, top)
    requires forall i :: 0 <= i < |s| ==> start < s[i] <= start + f.intervals[i]
    requires after == AfterTurn(f, s, now, top)
    ensures h == History(start, [Reading(start, top), Reading(now, top)], [s, s, after])
    ensures IsHistory(f, h) && StepsBackOnlyWhileArmed(f, h) && ArmsAt(f, h, 0)
  {
    HistoryBegins(f, start, s);
    h := History(start, [], [s]);
    assert Judge(f, s, start, top).Armed?;
    HistoryGoesOn(f, h, Reading(start, top), s);
    h := Longer(h, Reading(start, top), s);
    HistoryGoesOn(f, h, Reading(now, top), after);
    h := Longer(h, Reading(now, top), after);
  }

  /** After that, one more iteration at the same reading that arms. */
  lemma ThenArm(f: Fleet, h: History, top: nat) returns (longer: History)
    requires IsHistory(f, h) && StepsBackOnlyWhileArmed(f, h) && |h.readings| == 2
    requires IsTop(h.next[2], top) && Judge(f, h.next[2], h.readings[1].now, top).Armed?
    ensures longer == Longer(h, Reading(h.readings[1].now, top), h.next[2])
    ensures IsHistory(f, longer) && StepsBackOnlyWhileArmed(f, longer) && ArmsAt(f, longer, 2)
    ensures ArmsAt(f, longer, 0) <==> ArmsAt(f, h, 0)
  {
    longer := Longer(h, Reading(h.readings[1].now, top), h.next[2]);
    HistoryGoesOn(f, h, Reading(h.readings[1].now, top), h.next[2]);
    assert longer.next[0] == h.next[0] && longer.next[1] == h.next[1];
    assert longer.readings[0] == h.readings[0] && longer.readings[1] == h.readings[1];
    assert forall k :: 0 <= k < 2 ==> (ArmsAt(f, longer, k) <==> ArmsAt(f, h, k)) && LastReading(longer, k) == LastReading(h, k);
  }

  /** Two entries, due at `a` and `b` first after `start`. */
  predicate IsPair(f: Fleet, iv0: int, ph0: int, iv1: int, ph1: int, a: int, b: int, start: int) {
    && f == Fleet([iv0, iv1], [ph0, ph1])
    && 0 <= ph0 < iv0 <= MAX_INT64 && 0 <= ph1 < iv1 <= MAX_INT64
    && start < a <= start + iv0 && OnPhase(a, iv0, ph0)
    && start < b <= start + iv1 && OnPhase(b, iv1, ph1)
  }

  /** A step back to `now` that the first entry, on top, notices: it moves to
      `slot`, and the other entry is passed over. */
  lemma PairNotices(f: Fleet, iv0: int, ph0: int, iv1: int, ph1: int, a: int, b: int, start: int, now: int, slot: int)
    returns (h: History)
    requires IsPair(f, iv0, ph0, iv1, ph1, a, b, start) && a <= b
    requires IsStale(a, now, iv0) && !IsStale(b, now, iv1)
    requires now < slot <= now + iv0 && OnPhase(slot, iv0, ph0)
    ensures h == History(start, [Reading(start, 0), Reading(now, 0)], [[a, b], [a, b], [slot, b]])
    ensures IsHistory(f, h) && StepsBackOnlyWhileArmed(f, h) && ArmsAt(f, h, 0)
  {
    ReanchorsOne(f, [a, b], now, 0, slot);
    h := ArmThenStepBack(f, start, [a, b], 0, now, [slot, b]);
  }

  /** A step back that the second entry, on top, does not notice. */
  lemma PairDoesNotNotice(f: Fleet, iv0: int, ph0: int, iv1: int, ph1: int, a: int, b: int, start: int, now: int)
    returns (h: History)
    requires IsPair(f, iv0, ph0, iv1, ph1, a, b, start) && b <= a && 0 < SatSub(b, now) <= iv1
    ensures h == History(start, [Reading(start, 1), Reading(now, 1)], [[a, b], [a, b], [a, b]])
    ensures IsHistory(f, h) && StepsBackOnlyWhileArmed(f, h) && ArmsAt(f, h, 0)
  {
    h := ArmThenStepBack(f, start, [a, b], 1, now, [a, b]);
  }

  /** `Bounded` is needed in a run that steps back only while armed, too: at
      start 100, entry 0 is due at 110 and entry 1, with the longest interval,
      at 100 + MAX_INT64; the clock steps back to 80, only entry 0 is
      re-anchored, and at the next armed state entry 1 is more than its own
      interval behind it. */
  lemma LongestIntervalBreaksAnArmedState(f: Fleet) returns (h: History)
    requires f == Fleet([10, MAX_INT64], [0, 100])
    ensures IsHistory(f, h) && StepsBackOnlyWhileArmed(f, h)
    ensures h.start == 100 && h.readings == [Reading(100, 0), Reading(80, 0), Reading(80, 0)]
    ensures ArmsAt(f, h, 0) && ArmsAt(f, h, 2) && h.next[2] == [90, MAX_INT64 + 100]
    ensures h.next[2][1] - h.next[2][0] > MAX_INT64
  {
    h := PairNotices(f, 10, 0, MAX_INT64, 100, 110, MAX_INT64 + 100, 100, 80, 90);
    h := ThenArm(f, h, 0);
  }

  // --------------------------------------------------------- ties and heap order

  /** Two runs of the same two entries with the same clock readings: started at
      15, both entries are due at 20; then the clock steps back to 0. Whichever
      of the tied entries is on top decides whether the step is noticed. */
  lemma HeapOrderCanMatter(f: Fleet) returns (a: History, b: History)
    requires f == Fleet([10, 100], [0, 20])
    ensures IsHistory(f, a) && StepsBackOnlyWhileArmed(f, a)
    ensures a == History(15, [Reading(15, 0), Reading(0, 0)], [[20, 20], [20, 20], [10, 20]])
    ensures IsHistory(f, b) && StepsBackOnlyWhileArmed(f, b)
    ensures b == History(15, [Reading(15, 1), Reading(0, 1)], [[20, 20], [20, 20], [20, 20]])
  {
    a := PairNotices(f, 10, 0, 100, 20, 20, 20, 15, 0, 10);
    b := PairDoesNotNotice(f, 10, 0, 100, 20, 20, 20, 15, 0);
  }
}
