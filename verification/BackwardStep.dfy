/** How long a single backward step of the wall clock can delay an entry.

    The timer runs on the monotonic clock, so it is measured in nanoseconds
    elapsed since the step, while slots are wall-clock instants. */
module BackwardStep {
  import opened SlotTime
  import opened Turns

  /** The wall clock read `before`, then stepped back by `back`. */
  datatype Scene = Scene(fleet: Fleet, before: int, back: nat) {
    /** The wall clock `elapsed` nanoseconds after the step. */
    function Wall(elapsed: int): int { before - back + elapsed }
  }

  datatype Timer = Stopped | ArmedUntil(deadline: int)

  /** `processed` holds the entries whose slot came up since the step; `judged`
      says whether the scheduler has looked at the clock since. */
  datatype State = State(next: seq<int>, elapsed: int, timer: Timer, processed: set<nat>, judged: bool)

  /** Time passes while the scheduler waits; a done ack or the timer wakes it;
      a woken scheduler iterates, in no time, until it arms the timer again. */
  datatype Action = Elapse(span: nat) | Wake | Iterate(top: nat)

  /** Armed, nothing overdue, no stale entry: the state hit by the step. */
  ghost predicate IsStart(sc: Scene, s: State) {
    && Fits(sc.fleet, s.next) && s.next != []
    && (forall i :: 0 <= i < |s.next| ==> sc.before <= s.next[i] <= sc.before + sc.fleet.intervals[i])
    && s == State(s.next, 0, ArmedUntil(s.next[ScanTop(s.next)] - sc.before), {}, false)
  }

  ghost predicate Enabled(sc: Scene, s: State, a: Action)
    requires Fits(sc.fleet, s.next)
  {
    match a
    case Elapse(span) => s.timer.ArmedUntil? && s.elapsed + span <= s.timer.deadline
    case Wake => s.timer.ArmedUntil?
    case Iterate(top) => s.timer.Stopped? && IsTop(s.next, top)
  }

  ghost function Apply(sc: Scene, s: State, a: Action): (r: State)
    requires Fits(sc.fleet, s.next) && Enabled(sc, s, a)
    ensures Fits(sc.fleet, r.next) && |r.next| == |s.next|
  {
    match a
    case Elapse(span) => s.(elapsed := s.elapsed + span)
    case Wake => s.(timer := Stopped)
    case Iterate(top) =>
      var now := sc.Wall(s.elapsed);
      var r := s.(next := AfterTurn(sc.fleet, s.next, now, top), judged := true);
      match Judge(sc.fleet, s.next, now, top)
      case Reanchored => r
      case Armed => r.(timer := ArmedUntil(s.elapsed + SatSub(s.next[top], now)))
      case Fired => r.(processed := s.processed + {top})
  }

  ghost predicate IsRun(sc: Scene, states: seq<State>, actions: seq<Action>) {
    && |states| == |actions| + 1
    && IsStart(sc, states[0])
    && (forall k :: 0 <= k < |states| ==> Fits(sc.fleet, states[k].next))
    && (forall k :: 0 <= k < |actions| ==>
          Enabled(sc, states[k], actions[k]) && states[k + 1] == Apply(sc, states[k], actions[k]))
  }

  /** `longest` bounds every interval of the fleet, and saturation blinds none. */
  ghost predicate LongestIs(f: Fleet, longest: int) {
    && 0 < longest < MAX_INT64
    && forall i :: 0 <= i < |f.intervals| ==> f.intervals[i] <= longest
  }

  function Min(a: int, b: int): int { if a <= b then a else b }

  /** What delays an entry beyond its own interval, at worst. */
  function Delay(sc: Scene, longest: int): int { Min(sc.back, longest) }

  /** No slot is earlier than the pending deadline, and time has not passed it. */
  ghost predicate TimerIsEarliest(s: State, shift: int) {
    s.timer.ArmedUntil? ==>
      s.elapsed <= s.timer.deadline && forall i :: 0 <= i < |s.next| ==> s.timer.deadline <= s.next[i] - shift
  }

  ghost predicate Inv(sc: Scene, s: State, longest: int)
    requires Fits(sc.fleet, s.next)
  {
    && s.next != []
    && 0 <= s.elapsed
    && if s.judged then
         && TimerIsEarliest(s, sc.Wall(0))
         && forall i :: 0 <= i < |s.next| && i !in s.processed ==>
              sc.Wall(s.elapsed) <= s.next[i] <= sc.Wall(0) + sc.fleet.intervals[i] + Delay(sc, longest)
       else
         && TimerIsEarliest(s, sc.before)
         && s.processed == {}
         && forall i :: 0 <= i < |s.next| ==> s.elapsed <= s.next[i] - sc.before <= sc.fleet.intervals[i]
  }

  lemma IterateKeepsInv(sc: Scene, s: State, top: nat, longest: int)
    requires Fits(sc.fleet, s.next) && LongestIs(sc.fleet, longest) && Inv(sc, s, longest)
    requires Enabled(sc, s, Iterate(top))
    ensures Inv(sc, Apply(sc, s, Iterate(top)), longest)
  {
    var now := sc.Wall(s.elapsed);
    var r := Apply(sc, s, Iterate(top));
    StaleIsMoreThanOneIntervalAway(s.next[top], now, sc.fleet.intervals[top]);
    forall i | 0 <= i < |r.next| && i !in r.processed
      ensures sc.Wall(r.elapsed) <= r.next[i] <= sc.Wall(0) + sc.fleet.intervals[i] + Delay(sc, longest)
    {
      StaleIsMoreThanOneIntervalAway(s.next[i], now, sc.fleet.intervals[i]);
      assert s.next[top] <= s.next[i];
      assert i !in s.processed;
      if Judge(sc.fleet, s.next, now, top).Reanchored? {
        assert r.next[i] == if StaleAt(sc.fleet, s.next, now, i) then SlotAfter(now, sc.fleet.intervals[i], sc.fleet.phases[i]) else s.next[i];
      }
    }
  }

  lemma StepKeepsInv(sc: Scene, s: State, a: Action, longest: int)
    requires Fits(sc.fleet, s.next) && LongestIs(sc.fleet, longest) && Inv(sc, s, longest)
    requires Enabled(sc, s, a)
    ensures Inv(sc, Apply(sc, s, a), longest)
  {
    if a.Iterate? {
      IterateKeepsInv(sc, s, a.top, longest);
    }
  }

  lemma {:induction false} RunKeepsInv(sc: Scene, states: seq<State>, actions: seq<Action>, k: nat, longest: int)
    requires IsRun(sc, states, actions) && k <= |actions| && LongestIs(sc.fleet, longest)
    ensures Inv(sc, states[k], longest)
  {
    if k > 0 {
      RunKeepsInv(sc, states, actions, k - 1, longest);
      StepKeepsInv(sc, states[k - 1], actions[k - 1], longest);
    }
  }

  /** After a step back by s, no entry stays unprocessed for longer than its own
      interval plus min(s, longest interval), whether or not the heap top turns
      out stale and whenever acks wake the scheduler early. */
  lemma EveryEntryIsProcessedInTime(sc: Scene, states: seq<State>, actions: seq<Action>, k: nat, longest: int, i: nat)
    requires IsRun(sc, states, actions) && k <= |actions| && LongestIs(sc.fleet, longest)
    requires i < |sc.fleet.intervals|
    ensures states[k].elapsed > sc.fleet.intervals[i] + Min(sc.back, longest) ==> i in states[k].processed
  {
    RunKeepsInv(sc, states, actions, k, longest);
  }

  // ------------------------------------------------- exactly one interval, when

  /** Iteration number `k` re-anchors. */
  ghost predicate ReanchorsAt(sc: Scene, states: seq<State>, actions: seq<Action>, k: nat)
    requires IsRun(sc, states, actions)
  {
    && k < |actions| && actions[k].Iterate? && actions[k].top < |states[k].next|
    && Judge(sc.fleet, states[k].next, sc.Wall(states[k].elapsed), actions[k].top).Reanchored?
  }

  /** What holds from a re-anchor at `since` on: an unprocessed entry keeps the
      slot it had then, and a processed one had that slot behind it. */
  ghost predicate Settled(sc: Scene, s: State, anchored: State)
    requires Fits(sc.fleet, s.next) && Fits(sc.fleet, anchored.next)
  {
    && anchored.elapsed <= s.elapsed && s.judged
    && forall i :: 0 <= i < |s.next| ==>
         && (i !in s.processed ==> s.next[i] == anchored.next[i])
         && (i in s.processed ==> i in anchored.processed || anchored.next[i] <= sc.Wall(s.elapsed))
  }

  ghost predicate NothingFar(sc: Scene, s: State)
    requires Fits(sc.fleet, s.next)
  {
    forall i :: 0 <= i < |s.next| ==> s.next[i] <= sc.Wall(s.elapsed) + sc.fleet.intervals[i]
  }

  lemma StepKeepsSettled(sc: Scene, s: State, a: Action, anchored: State)
    requires Fits(sc.fleet, s.next) && Fits(sc.fleet, anchored.next)
    requires Settled(sc, s, anchored) && NothingFar(sc, anchored) && Enabled(sc, s, a)
    ensures Settled(sc, Apply(sc, s, a), anchored)
  {
    if a.Iterate? {
      var now, r := sc.Wall(s.elapsed), Apply(sc, s, a);
      forall i | 0 <= i < |r.next|
        ensures i !in r.processed ==> r.next[i] == anchored.next[i]
        ensures i in r.processed ==> i in anchored.processed || anchored.next[i] <= sc.Wall(r.elapsed)
      {
        if i !in s.processed {
          StaleIsMoreThanOneIntervalAway(s.next[i], now, sc.fleet.intervals[i]);
          assert s.next[i] == anchored.next[i];
        }
      }
    }
  }

  lemma ReanchorSettles(sc: Scene, s: State, top: nat, longest: int)
    requires Fits(sc.fleet, s.next) && LongestIs(sc.fleet, longest)
    requires s.timer.Stopped? && IsTop(s.next, top) && Judge(sc.fleet, s.next, sc.Wall(s.elapsed), top).Reanchored?
    ensures NothingFar(sc, Apply(sc, s, Iterate(top))) && Apply(sc, s, Iterate(top)).elapsed == s.elapsed
    ensures Settled(sc, Apply(sc, s, Iterate(top)), Apply(sc, s, Iterate(top)))
  {
    var r := Apply(sc, s, Iterate(top));
    forall i | 0 <= i < |r.next| ensures r.next[i] <= sc.Wall(r.elapsed) + sc.fleet.intervals[i] {
      StaleIsMoreThanOneIntervalAway(s.next[i], sc.Wall(s.elapsed), sc.fleet.intervals[i]);
    }
  }

  lemma {:induction false} RunStaysSettled(sc: Scene, states: seq<State>, actions: seq<Action>, w: nat, k: nat, longest: int)
    requires IsRun(sc, states, actions) && LongestIs(sc.fleet, longest)
    requires ReanchorsAt(sc, states, actions, w) && w < k <= |actions|
    ensures NothingFar(sc, states[w + 1]) && states[w + 1].elapsed == states[w].elapsed
    ensures Settled(sc, states[k], states[w + 1])
    decreases k
  {
    ReanchorSettles(sc, states[w], actions[w].top, longest);
    if k > w + 1 {
      RunStaysSettled(sc, states, actions, w, k - 1, longest);
      StepKeepsSettled(sc, states[k - 1], actions[k - 1], states[w + 1]);
    }
  }

  /** From a re-anchor, every entry is processed within exactly one interval of
      its own, whatever the length of the step. */
  lemma OneIntervalFromTheReanchor(sc: Scene, states: seq<State>, actions: seq<Action>, w: nat, k: nat, longest: int, i: nat)
    requires IsRun(sc, states, actions) && LongestIs(sc.fleet, longest) && i < |sc.fleet.intervals|
    requires ReanchorsAt(sc, states, actions, w) && w < k <= |actions|
    ensures states[k].elapsed > states[w].elapsed + sc.fleet.intervals[i] ==> i in states[k].processed
  {
    RunStaysSettled(sc, states, actions, w, k, longest);
    RunKeepsInv(sc, states, actions, k, longest);
  }

  /** The scheduler's first look at the clock after the step. */
  ghost predicate FirstLook(sc: Scene, states: seq<State>, actions: seq<Action>, w: nat)
    requires IsRun(sc, states, actions)
  {
    w < |actions| && actions[w].Iterate? && !states[w].judged
  }

  /** A look that re-anchors leaves every entry, moved or not, on its first slot
      from then on. */
  lemma ReanchorPutsAll(sc: Scene, states: seq<State>, actions: seq<Action>, w: nat, longest: int, i: nat)
    requires IsRun(sc, states, actions) && LongestIs(sc.fleet, longest) && i < |sc.fleet.intervals|
    requires ReanchorsAt(sc, states, actions, w)
    ensures states[w + 1].next[i] == SlotAfter(sc.Wall(states[w].elapsed), sc.fleet.intervals[i], sc.fleet.phases[i])
    ensures states[w + 1].processed == states[w].processed && states[w + 1].elapsed == states[w].elapsed
    ensures states[w + 1].next[i] != states[w].next[i] ==> states[w].next[i] > sc.Wall(states[w].elapsed) + sc.fleet.intervals[i]
  {
    var now, iv, ph := sc.Wall(states[w].elapsed), sc.fleet.intervals[i], sc.fleet.phases[i];
    assert states[w + 1] == Apply(sc, states[w], actions[w]);
    StaleIsMoreThanOneIntervalAway(states[w].next[i], now, iv);
    assert now < states[w].next[actions[w].top] <= states[w].next[i];
    if !StaleAt(sc.fleet, states[w].next, now, i) {
      SlotAfterIsTheOnlyOne(states[w].next[i], now, iv, ph);
    }
  }

  /** After a step longer than the longest interval, the first look finds every
      entry stale. */
  lemma LongStepReanchorsEverything(sc: Scene, states: seq<State>, actions: seq<Action>, w: nat, longest: int)
    requires IsRun(sc, states, actions) && LongestIs(sc.fleet, longest) && sc.back > longest
    requires FirstLook(sc, states, actions, w)
    ensures ReanchorsAt(sc, states, actions, w) && states[w].processed == states[w + 1].processed == {}
    ensures forall i :: 0 <= i < |sc.fleet.intervals| ==>
      && StaleAt(sc.fleet, states[w].next, sc.Wall(states[w].elapsed), i)
      && states[w + 1].next[i] == SlotAfter(sc.Wall(states[w].elapsed), sc.fleet.intervals[i], sc.fleet.phases[i])
  {
    RunKeepsInv(sc, states, actions, w, longest);
    var now := sc.Wall(states[w].elapsed);
    forall i | 0 <= i < |sc.fleet.intervals| ensures StaleAt(sc.fleet, states[w].next, now, i) {
      StaleIsMoreThanOneIntervalAway(states[w].next[i], now, sc.fleet.intervals[i]);
    }
    forall i: nat | i < |sc.fleet.intervals|
      ensures states[w + 1].next[i] == SlotAfter(now, sc.fleet.intervals[i], sc.fleet.phases[i])
    {
      ReanchorPutsAll(sc, states, actions, w, longest, i);
    }
  }

  /** No state of the run has waited for entry `i` longer than its interval,
      counted from the step. */
  ghost predicate InOneInterval(sc: Scene, states: seq<State>, i: nat)
    requires i < |sc.fleet.intervals|
  {
    forall k :: 0 <= k < |states| && states[k].elapsed > sc.fleet.intervals[i] ==> i in states[k].processed
  }

  /** A run that goes on past one interval passes it in a state in which an entry
      that was unprocessed until then still is. */
  lemma {:induction false} PassesTheInterval(sc: Scene, states: seq<State>, actions: seq<Action>, i: nat, k: nat)
    requires IsRun(sc, states, actions) && i < |sc.fleet.intervals| && k <= |actions|
    requires states[k].elapsed > sc.fleet.intervals[i] && InOneInterval(sc, states, i)
    ensures exists m: nat :: m <= k && states[m].elapsed <= sc.fleet.intervals[i] && i in states[m].processed
  {
    if k > 0 {
      if states[k - 1].elapsed > sc.fleet.intervals[i] {
        PassesTheInterval(sc, states, actions, i, k - 1);
      } else {
        assert i in states[k].processed;
        assert actions[k - 1].Elapse?;
        assert states[k - 1].processed == states[k].processed;
      }
    }
  }

  lemma {:induction false} NotJudgedBefore(sc: Scene, states: seq<State>, actions: seq<Action>, k: nat, w: nat)
    requires IsRun(sc, states, actions) && k <= w <= |actions| && !states[w].judged
    ensures !states[k].judged
    decreases w
  {
    if k < w {
      assert states[w] == Apply(sc, states[w - 1], actions[w - 1]);
      NotJudgedBefore(sc, states, actions, k, w - 1);
    }
  }

  /** Entry `i` has the slot that an earlier re-anchor gives. */
  ghost predicate AnchoredBefore(sc: Scene, states: seq<State>, actions: seq<Action>, k: nat, i: nat)
    requires IsRun(sc, states, actions) && k <= |actions| && i < |sc.fleet.intervals|
  {
    exists w: nat :: w < k && ReanchorsAt(sc, states, actions, w)
      && states[k].next[i] == SlotAfter(sc.Wall(states[w].elapsed), sc.fleet.intervals[i], sc.fleet.phases[i])
  }

  lemma ActionOfRun(sc: Scene, states: seq<State>, actions: seq<Action>, k: nat)
    requires IsRun(sc, states, actions) && k < |actions|
    ensures Fits(sc.fleet, states[k].next) && Enabled(sc, states[k], actions[k])
    ensures states[k + 1] == Apply(sc, states[k], actions[k]) && |states[k].next| == |sc.fleet.intervals|
  {
  }

  lemma UnprocessedStays(sc: Scene, s: State, a: Action, i: nat)
    requires Fits(sc.fleet, s.next) && Enabled(sc, s, a) && i < |s.next| && i !in Apply(sc, s, a).processed
    ensures i !in s.processed
    ensures (a.Iterate? && Judge(sc.fleet, s.next, sc.Wall(s.elapsed), a.top).Reanchored?) || Apply(sc, s, a).next[i] == s.next[i]
  {
  }

  /** An entry still unprocessed has its old slot, or the one a re-anchor gave it. */
  lemma {:induction false} SlotIsOldOrAnchored(sc: Scene, states: seq<State>, actions: seq<Action>, k: nat, longest: int, i: nat)
    requires IsRun(sc, states, actions) && LongestIs(sc.fleet, longest) && k <= |actions| && i < |sc.fleet.intervals|
    requires i !in states[k].processed
    ensures states[k].next[i] == states[0].next[i] || AnchoredBefore(sc, states, actions, k, i)
  {
    if k > 0 {
      ActionOfRun(sc, states, actions, k - 1);
      UnprocessedStays(sc, states[k - 1], actions[k - 1], i);
      SlotIsOldOrAnchored(sc, states, actions, k - 1, longest, i);
      if ReanchorsAt(sc, states, actions, k - 1) {
        ReanchorPutsAll(sc, states, actions, k - 1, longest, i);
      } else {
        assert states[k].next[i] == states[k - 1].next[i];
      }
    }
  }

  lemma NearSlotIsNotMoved(sc: Scene, s: State, a: Action, i: nat)
    requires Fits(sc.fleet, s.next) && Enabled(sc, s, a) && i < |s.next| && i !in Apply(sc, s, a).processed
    requires 0 <= s.elapsed && s.next[i] <= sc.Wall(0) + sc.fleet.intervals[i]
    ensures i !in s.processed && Apply(sc, s, a).next[i] == s.next[i]
  {
    StaleIsMoreThanOneIntervalAway(s.next[i], sc.Wall(s.elapsed), sc.fleet.intervals[i]);
  }

  /** An entry that is no more than its interval ahead of the stepped clock is
      never moved before it is processed. */
  lemma {:induction false} NearSlotStays(sc: Scene, states: seq<State>, actions: seq<Action>, k: nat, longest: int, i: nat)
    requires IsRun(sc, states, actions) && LongestIs(sc.fleet, longest) && k <= |actions| && i < |sc.fleet.intervals|
    requires i !in states[k].processed && states[0].next[i] <= sc.Wall(0) + sc.fleet.intervals[i]
    ensures states[k].next[i] == states[0].next[i]
  {
    if k > 0 {
      ActionOfRun(sc, states, actions, k - 1);
      RunKeepsInv(sc, states, actions, k - 1, longest);
      UnprocessedStays(sc, states[k - 1], actions[k - 1], i);
      NearSlotStays(sc, states, actions, k - 1, longest, i);
      NearSlotIsNotMoved(sc, states[k - 1], actions[k - 1], i);
    }
  }

  lemma ProcessingWhenDue(sc: Scene, s: State, a: Action, i: nat)
    requires Fits(sc.fleet, s.next) && Enabled(sc, s, a) && i < |s.next|
    requires i in Apply(sc, s, a).processed && i !in s.processed
    ensures s.next[i] <= sc.Wall(s.elapsed)
  {
  }

  /** A processed entry was processed when its slot of that moment had come. */
  lemma {:induction false} ProcessedWhenDue(sc: Scene, states: seq<State>, actions: seq<Action>, k: nat, i: nat)
    returns (p: nat)
    requires IsRun(sc, states, actions) && k <= |actions| && i < |sc.fleet.intervals| && i in states[k].processed
    ensures p < k && i !in states[p].processed && states[p].next[i] <= sc.Wall(states[p].elapsed)
  {
    assert k > 0;
    if i in states[k - 1].processed {
      p := ProcessedWhenDue(sc, states, actions, k - 1, i);
    } else {
      p := k - 1;
      ActionOfRun(sc, states, actions, p);
      ProcessingWhenDue(sc, states[p], actions[p], i);
    }
  }

  lemma {:induction false} TimePasses(sc: Scene, states: seq<State>, actions: seq<Action>, j: nat, k: nat)
    requires IsRun(sc, states, actions) && j <= k <= |actions|
    ensures states[j].elapsed <= states[k].elapsed
    decreases k
  {
    if j < k {
      TimePasses(sc, states, actions, j, k - 1);
      ActionOfRun(sc, states, actions, k - 1);
    }
  }

  lemma NextSlotIsAnIntervalAway(first: int, slot: int, interval: int, phase: int)
    requires interval > 0 && OnPhase(first, interval, phase) && OnPhase(slot, interval, phase) && first < slot
    ensures slot >= first + interval
  {
    if slot < first + interval {
      SlotsAreSpaced(first, slot, interval, phase);
    }
  }

  /** Some look re-anchors before the entry's first slot on the stepped-back
      clock has gone by. */
  ghost predicate WokenInTime(sc: Scene, states: seq<State>, actions: seq<Action>, i: nat)
    requires IsRun(sc, states, actions) && i < |sc.fleet.intervals|
  {
    exists w: nat :: ReanchorsAt(sc, states, actions, w) &&
      sc.Wall(states[w].elapsed) < SlotAfter(sc.Wall(0), sc.fleet.intervals[i], sc.fleet.phases[i])
  }

  lemma NearIsInTime(sc: Scene, states: seq<State>, actions: seq<Action>, longest: int, i: nat)
    requires IsRun(sc, states, actions) && LongestIs(sc.fleet, longest) && i < |sc.fleet.intervals|
    requires states[0].next[i] <= sc.Wall(0) + sc.fleet.intervals[i]
    ensures InOneInterval(sc, states, i)
  {
    forall k | 0 <= k < |states| && states[k].elapsed > sc.fleet.intervals[i] ensures i in states[k].processed {
      RunKeepsInv(sc, states, actions, k, longest);
      if i !in states[k].processed {
        NearSlotStays(sc, states, actions, k, longest, i);
      }
    }
  }

  lemma WokenIsInTime(sc: Scene, states: seq<State>, actions: seq<Action>, w: nat, longest: int, i: nat)
    requires IsRun(sc, states, actions) && LongestIs(sc.fleet, longest) && i < |sc.fleet.intervals|
    requires ReanchorsAt(sc, states, actions, w)
    requires sc.Wall(states[w].elapsed) < SlotAfter(sc.Wall(0), sc.fleet.intervals[i], sc.fleet.phases[i])
    ensures InOneInterval(sc, states, i)
  {
    var iv, ph := sc.fleet.intervals[i], sc.fleet.phases[i];
    RunKeepsInv(sc, states, actions, w, longest);
    ReanchorPutsAll(sc, states, actions, w, longest, i);
    SlotAfterIsTheOnlyOne(SlotAfter(sc.Wall(0), iv, ph), sc.Wall(states[w].elapsed), iv, ph);
    forall k | 0 <= k < |states| && states[k].elapsed > iv ensures i in states[k].processed {
      if k <= w {
        TimePasses(sc, states, actions, k, w);
      } else {
        RunStaysSettled(sc, states, actions, w, k, longest);
        RunKeepsInv(sc, states, actions, k, longest);
      }
    }
  }

  lemma InTimeIsNearOrWoken(sc: Scene, states: seq<State>, actions: seq<Action>, last: nat, longest: int, i: nat)
    requires IsRun(sc, states, actions) && LongestIs(sc.fleet, longest) && i < |sc.fleet.intervals|
    requires last <= |actions| && states[last].elapsed > sc.fleet.intervals[i] && InOneInterval(sc, states, i)
    ensures states[0].next[i] <= sc.Wall(0) + sc.fleet.intervals[i] || WokenInTime(sc, states, actions, i)
  {
    var iv, ph := sc.fleet.intervals[i], sc.fleet.phases[i];
    PassesTheInterval(sc, states, actions, i, last);
    var m: nat :| m <= last && states[m].elapsed <= iv && i in states[m].processed;
    var p := ProcessedWhenDue(sc, states, actions, m, i);
    TimePasses(sc, states, actions, p, m);
    SlotIsOldOrAnchored(sc, states, actions, p, longest, i);
    if states[p].next[i] != states[0].next[i] {
      var w: nat :| w < p && ReanchorsAt(sc, states, actions, w) && states[p].next[i] == SlotAfter(sc.Wall(states[w].elapsed), iv, ph);
      var first := SlotAfter(sc.Wall(0), iv, ph);
      if first <= sc.Wall(states[w].elapsed) {
        NextSlotIsAnIntervalAway(first, states[p].next[i], iv, ph);
      }
    }
  }

  /** The exact condition, for a step of any length and whatever the looks find.
      In a run that goes on for longer than an entry's interval, the entry is
      processed within one interval of the step if and only if its slot was no
      further than that from the stepped clock to begin with, or some look
      re-anchors before its first slot on the stepped clock has gone by. */
  lemma OneIntervalIff(sc: Scene, states: seq<State>, actions: seq<Action>, last: nat, longest: int, i: nat)
    requires IsRun(sc, states, actions) && LongestIs(sc.fleet, longest) && i < |sc.fleet.intervals|
    requires last <= |actions| && states[last].elapsed > sc.fleet.intervals[i]
    ensures InOneInterval(sc, states, i) <==>
      states[0].next[i] <= sc.Wall(0) + sc.fleet.intervals[i] || WokenInTime(sc, states, actions, i)
  {
    if InOneInterval(sc, states, i) {
      InTimeIsNearOrWoken(sc, states, actions, last, longest, i);
    } else if states[0].next[i] <= sc.Wall(0) + sc.fleet.intervals[i] {
      NearIsInTime(sc, states, actions, longest, i);
    } else if WokenInTime(sc, states, actions, i) {
      var w: nat :| ReanchorsAt(sc, states, actions, w) &&
        sc.Wall(states[w].elapsed) < SlotAfter(sc.Wall(0), sc.fleet.intervals[i], sc.fleet.phases[i]);
      WokenIsInTime(sc, states, actions, w, longest, i);
    }
  }

  /** When the promise for a stale top holds. If the first look after the step
      finds the top stale, an entry is processed within one interval of the step
      if and only if its first slot on the stepped-back clock has not gone by at
      that look. */
  lemma OneIntervalIffWokenInTime(sc: Scene, states: seq<State>, actions: seq<Action>, w: nat, last: nat, longest: int, i: nat)
    requires IsRun(sc, states, actions) && LongestIs(sc.fleet, longest) && i < |sc.fleet.intervals|
    requires FirstLook(sc, states, actions, w) && ReanchorsAt(sc, states, actions, w)
    requires last <= |actions| && states[last].elapsed > sc.fleet.intervals[i]
    ensures InOneInterval(sc, states, i) <==>
      sc.Wall(states[w].elapsed) < SlotAfter(sc.Wall(0), sc.fleet.intervals[i], sc.fleet.phases[i])
  {
    var iv, ph := sc.fleet.intervals[i], sc.fleet.phases[i];
    var first, slot := SlotAfter(sc.Wall(0), iv, ph), states[w + 1].next[i];
    OneIntervalIff(sc, states, actions, last, longest, i);
    RunKeepsInv(sc, states, actions, w, longest);
    ReanchorPutsAll(sc, states, actions, w, longest, i);
    if states[0].next[i] <= sc.Wall(0) + iv {
      NearSlotStays(sc, states, actions, w + 1, longest, i);
      if first <= sc.Wall(states[w].elapsed) {
        NextSlotIsAnIntervalAway(first, slot, iv, ph);
      }
    } else if WokenInTime(sc, states, actions, i) {
      var v: nat :| ReanchorsAt(sc, states, actions, v) && sc.Wall(states[v].elapsed) < first;
      if v < w {
        NotJudgedBefore(sc, states, actions, v + 1, w);
      } else {
        TimePasses(sc, states, actions, w, v);
      }
    }
  }

  lemma Extend(sc: Scene, states: seq<State>, actions: seq<Action>, a: Action) returns (longer: seq<State>)
    requires IsRun(sc, states, actions) && Enabled(sc, states[|actions|], a)
    ensures IsRun(sc, longer, actions + [a]) && longer == states + [Apply(sc, states[|actions|], a)]
  {
    longer := states + [Apply(sc, states[|actions|], a)];
  }

  /** The timer runs out, the first look finds its top stale ... */
  lemma LookStale(sc: Scene, s: State, top: nat) returns (states: seq<State>, actions: seq<Action>)
    requires IsStart(sc, s) && IsTop(s.next, top)
    requires Judge(sc.fleet, s.next, sc.Wall(s.next[top] - sc.before), top).Reanchored?
    ensures IsRun(sc, states, actions) && states[0] == s && |actions| == 3
    ensures FirstLook(sc, states, actions, 2) && ReanchorsAt(sc, states, actions, 2)
    ensures states[3] == Apply(sc, s.(elapsed := s.next[top] - sc.before, timer := Stopped), Iterate(top))
  {
    var wait := s.next[top] - sc.before;
    actions, states := [], [s];
    states := Extend(sc, states, actions, Elapse(wait));
    actions := actions + [Elapse(wait)];
    states := Extend(sc, states, actions, Wake);
    actions := actions + [Wake];
    assert states[2] == s.(elapsed := wait, timer := Stopped);
    states := Extend(sc, states, actions, Iterate(top));
    actions := actions + [Iterate(top)];
  }

  /** ... and arms again for the top's new slot, and some more time passes. */
  lemma ArmAndWait(sc: Scene, states: seq<State>, actions: seq<Action>, top: nat, more: nat)
    returns (longer: seq<State>, further: seq<Action>)
    requires IsRun(sc, states, actions)
    requires var s := states[|actions|];
      && s.timer.Stopped? && IsTop(s.next, top) && top !in s.processed
      && sc.Wall(s.elapsed) + more < s.next[top] <= sc.Wall(s.elapsed) + sc.fleet.intervals[top]
    ensures IsRun(sc, longer, further) && |further| == |actions| + 2 && actions <= further && states <= longer
    ensures longer[|further|].elapsed == states[|actions|].elapsed + more && top !in longer[|further|].processed
  {
    longer := Extend(sc, states, actions, Iterate(top));
    further := actions + [Iterate(top)];
    longer := Extend(sc, longer, further, Elapse(more));
    further := further + [Elapse(more)];
  }

  lemma WaitOutTheTimer(sc: Scene, s: State, top: nat, moved: State, more: nat)
    returns (states: seq<State>, actions: seq<Action>)
    requires IsStart(sc, s) && IsTop(s.next, top)
    requires Judge(sc.fleet, s.next, sc.Wall(s.next[top] - sc.before), top).Reanchored?
    requires moved == Apply(sc, s.(elapsed := s.next[top] - sc.before, timer := Stopped), Iterate(top))
    requires IsTop(moved.next, top)
    requires sc.Wall(moved.elapsed) + more < moved.next[top] <= sc.Wall(moved.elapsed) + sc.fleet.intervals[top]
    ensures IsRun(sc, states, actions) && states[0] == s
    ensures FirstLook(sc, states, actions, 2) && ReanchorsAt(sc, states, actions, 2)
    ensures states[|actions|].elapsed == s.next[top] - sc.before + more && top !in states[|actions|].processed
  {
    var looked, acts := LookStale(sc, s, top);
    states, actions := ArmAndWait(sc, looked, acts, top, more);
    assert states[2] == looked[2] && actions[2] == acts[2];
  }

  /** The wait can exceed one interval even when the step is longer than the
      longest interval: the armed timer runs out first, and only then is the
      entry re-anchored to a slot up to one more interval away. */
  lemma OneIntervalIsNotEnough(sc: Scene, s: State) returns (states: seq<State>, actions: seq<Action>)
    requires sc == Scene(Fleet([10], [0]), 0, 1003)
    requires IsStart(sc, s) && s.next[0] == 10
    ensures IsRun(sc, states, actions) && states[0] == s
    ensures states[|actions|].elapsed == 12 && 0 !in states[|actions|].processed
  {
    var moved := Apply(sc, s.(elapsed := 10, timer := Stopped), Iterate(0));
    SlotAfterIsTheOnlyOne(-990, -993, 10, 0);
    assert moved.next[0] == -990;
    states, actions := WaitOutTheTimer(sc, s, 0, moved, 2);
  }

  /** Nor does it take a step longer than the longest interval: with intervals 10
      and 1000 a step of 503 finds the top stale at the first look, 10 after the
      step, and the top is still unprocessed 12 after it. */
  lemma OneIntervalIsNotEnoughForAStaleTop(sc: Scene, s: State) returns (states: seq<State>, actions: seq<Action>)
    requires sc == Scene(Fleet([10, 1000], [0, 500]), 0, 503)
    requires IsStart(sc, s) && s.next == [10, 500]
    ensures IsRun(sc, states, actions) && states[0] == s && sc.back < sc.fleet.intervals[1]
    ensures FirstLook(sc, states, actions, 2) && ReanchorsAt(sc, states, actions, 2)
    ensures states[|actions|].elapsed == 12 && 0 !in states[|actions|].processed
  {
    var moved := StaleTopMoves(sc, s);
    states, actions := WaitOutTheTimer(sc, s, 0, moved, 2);
  }

  lemma StaleTopMoves(sc: Scene, s: State) returns (moved: State)
    requires sc == Scene(Fleet([10, 1000], [0, 500]), 0, 503) && s.next == [10, 500] && Fits(sc.fleet, s.next)
    ensures IsTop(s.next, 0) && Judge(sc.fleet, s.next, sc.Wall(10), 0).Reanchored?
    ensures moved == Apply(sc, s.(elapsed := 10, timer := Stopped), Iterate(0)) && moved.next == [-490, 500]
  {
    moved := Apply(sc, s.(elapsed := 10, timer := Stopped), Iterate(0));
    SlotAfterIsTheOnlyOne(-490, -493, 10, 0);
    assert moved.next == [-490, 500];
  }
}
