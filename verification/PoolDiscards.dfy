/** Which dispatches are discarded at shutdown, told at the moment of the
    cancellation; and with it, when the documented accounting is exact. */
module PoolDiscards {
  import opened Pool
  import opened PoolAccounting
  import opened PoolRuns

  /** Some worker has dequeued entry `e` and not yet looked at the context. */
  ghost predicate Held(s: State, e: nat) {
    exists w :: 0 <= w < |s.workers| && s.workers[w] == Busy(e, Stage.Held)
  }

  /** Dispatched, and nobody has looked at the context for it yet. */
  ghost predicate Waits(s: State, e: nat) { e in s.work || Held(s, e) }

  ghost predicate DiscardedOrWaits(s: State, e: nat)
    requires e < |s.entries|
  {
    s.entries[e].discarded > 0 || Waits(s, e)
  }

  predicate Dispatches(s: State, step: Step, e: nat) {
    step == Schedule(Enqueue) && s.control == Dispatching(e)
  }

  lemma SchedulerKeepsWaiting(c: Config, s: State, step: SchedulerStep, e: nat)
    requires SchedulerEnabled(c, s, step) && e < |s.entries|
    ensures var t := SchedulerApply(c, s, step);
      && t.workers == s.workers && t.entries[e].discarded == s.entries[e].discarded
      && (e in t.work <==> e in s.work || Dispatches(s, Schedule(step), e))
  {
  }

  lemma WorkerKeepsDiscards(c: Config, s: State, w: nat, step: WorkerStep, e: nat)
    requires WorkerEnabled(c, s, w, step) && e < |s.entries| && !step.SeeCancelled?
    ensures WorkerApply(c, s, w, step).entries[e].discarded == s.entries[e].discarded
  {
  }

  /** Dequeuing moves an entry from the queue to a worker that holds it. */
  lemma TakeKeepsWaiting(c: Config, s: State, w: nat, e: nat)
    requires WorkerEnabled(c, s, w, Take)
    ensures Waits(WorkerApply(c, s, w, Take), e) <==> Waits(s, e)
  {
    var t := WorkerApply(c, s, w, Take);
    assert t.workers[w] == Busy(s.work[0], Stage.Held);
    if Held(s, e) {
      var v :| 0 <= v < |s.workers| && s.workers[v] == Busy(e, Stage.Held);
      assert t.workers[v] == s.workers[v];
    }
    if Held(t, e) && e != s.work[0] {
      var v :| 0 <= v < |t.workers| && t.workers[v] == Busy(e, Stage.Held);
      assert s.workers[v] == t.workers[v];
    }
    assert s.work == [s.work[0]] + t.work;
  }

  /** A worker that sees the cancellation discards what it holds. */
  lemma DiscardKeepsDoom(c: Config, s: State, w: nat, e: nat)
    requires WorkerEnabled(c, s, w, SeeCancelled) && e < |s.entries|
    ensures DiscardedOrWaits(WorkerApply(c, s, w, SeeCancelled), e) <==> DiscardedOrWaits(s, e)
  {
    var t := WorkerApply(c, s, w, SeeCancelled);
    if s.workers[w].e == e {
      assert s.workers[w] == Busy(e, Stage.Held);
      assert t.entries[e].discarded == s.entries[e].discarded + 1;
    } else {
      OtherHolders(s, t, w, e);
    }
  }

  lemma OtherHolders(s: State, t: State, w: nat, e: nat)
    requires w < |s.workers| == |t.workers| && t.workers == s.workers[w := t.workers[w]]
    requires s.workers[w] != Busy(e, Stage.Held) && t.workers[w] != Busy(e, Stage.Held)
    ensures Held(t, e) <==> Held(s, e)
  {
    if Held(s, e) {
      var v :| 0 <= v < |s.workers| && s.workers[v] == Busy(e, Stage.Held);
      assert t.workers[v] == s.workers[v];
    }
    if Held(t, e) {
      var v :| 0 <= v < |t.workers| && t.workers[v] == Busy(e, Stage.Held);
      assert s.workers[v] == t.workers[v];
    }
  }

  lemma OtherWorkKeepsWaiting(c: Config, s: State, w: nat, step: WorkerStep, e: nat)
    requires WorkerEnabled(c, s, w, step) && !step.Take? && !step.SeeCancelled? && !step.SeeAlive?
    ensures WorkerApply(c, s, w, step).work == s.work && (Held(WorkerApply(c, s, w, step), e) <==> Held(s, e))
  {
    OtherHolders(s, WorkerApply(c, s, w, step), w, e);
  }

  lemma RunKeepsWaiting(c: Config, s: State, step: RunStep, e: nat)
    requires RunEnabled(c, s, step) && e < |s.entries| && (s.life.Fresh? ==> s.workers == [])
    ensures DiscardedOrWaits(RunApply(c, s, step), e) <==> DiscardedOrWaits(s, e)
  {
    var t := RunApply(c, s, step);
    if step.Start? {
      assert !Held(t, e) && !Held(s, e);
    } else {
      assert t.workers == s.workers;
    }
  }

  /** Once cancelled, an entry stays doomed or not, unless it is dispatched. */
  lemma StepKeepsDoom(c: Config, s: State, step: Step, e: nat)
    requires Inv(c, s) && Enabled(c, s, step) && s.cancelled && e < |s.entries|
    ensures DiscardedOrWaits(Apply(c, s, step), e) <==> DiscardedOrWaits(s, e) || Dispatches(s, step, e)
  {
    match step
    case Schedule(k) => SchedulerKeepsWaiting(c, s, k, e);
    case Run(k) => RunKeepsWaiting(c, s, k, e);
    case Work(w, k) =>
      if k.Take? {
        TakeKeepsWaiting(c, s, w, e);
        WorkerKeepsDiscards(c, s, w, k, e);
      } else if k.SeeCancelled? {
        DiscardKeepsDoom(c, s, w, e);
      } else {
        OtherWorkKeepsWaiting(c, s, w, k, e);
        WorkerKeepsDiscards(c, s, w, k, e);
      }
  }

  /** Nothing is discarded before the cancellation. */
  lemma {:induction false} NoDiscardUncancelled(c: Config, states: seq<State>, steps: seq<Step>, k: nat, e: nat)
    requires IsRun(c, states, steps) && k <= |steps| && e < c.targets && !states[k].cancelled
    ensures |states[k].entries| == c.targets && states[k].entries[e].discarded == 0
  {
    InvAlways(c, states, steps, k);
    if k > 0 {
      StepOfRun(c, states, steps, k - 1);
      CancelStays(c, states[k - 1], steps[k - 1]);
      NoDiscardUncancelled(c, states, steps, k - 1, e);
      NoDiscardHere(c, states[k - 1], steps[k - 1], e);
    }
  }

  lemma CancelStays(c: Config, s: State, step: Step)
    requires Enabled(c, s, step)
    ensures s.cancelled ==> Apply(c, s, step).cancelled
  {
  }

  lemma NoDiscardHere(c: Config, s: State, step: Step, e: nat)
    requires Enabled(c, s, step) && e < |s.entries| && !s.cancelled
    ensures Apply(c, s, step).entries[e].discarded == s.entries[e].discarded
  {
    match step
    case Schedule(k) => SchedulerKeepsWaiting(c, s, k, e);
    case Work(w, k) => WorkerKeepsDiscards(c, s, w, k, e);
    case Run(k) =>
  }

  /** Step `t` cancels the context for the first time. */
  ghost predicate CancelsAt(c: Config, states: seq<State>, steps: seq<Step>, t: nat)
    requires IsRun(c, states, steps)
  {
    t < |steps| && steps[t] == Run(Cancel) && !states[t].cancelled
  }

  /** Entry `e` is dispatched by a step after `t` and before `k`. */
  ghost predicate DispatchedSince(states: seq<State>, steps: seq<Step>, t: nat, k: nat, e: nat)
    requires k <= |steps| < |states|
  {
    exists i :: t < i < k && Dispatches(states[i], steps[i], e)
  }

  lemma RightAfterCancel(c: Config, states: seq<State>, steps: seq<Step>, t: nat, e: nat)
    requires IsRun(c, states, steps) && CancelsAt(c, states, steps, t) && e < c.targets
    ensures |states[t + 1].entries| == c.targets && states[t + 1].cancelled
    ensures DiscardedOrWaits(states[t + 1], e) <==> Waits(states[t], e)
  {
    StepOfRun(c, states, steps, t);
    NoDiscardUncancelled(c, states, steps, t, e);
    assert states[t + 1] == states[t].(cancelled := true);
  }

  lemma OneStepLater(c: Config, states: seq<State>, steps: seq<Step>, k: nat, e: nat)
    requires IsRun(c, states, steps) && k < |steps| && e < c.targets && states[k].cancelled
    ensures |states[k].entries| == |states[k + 1].entries| == c.targets && states[k + 1].cancelled
    ensures DiscardedOrWaits(states[k + 1], e) <==> DiscardedOrWaits(states[k], e) || Dispatches(states[k], steps[k], e)
  {
    StepOfRun(c, states, steps, k);
    InvAlways(c, states, steps, k);
    CancelStays(c, states[k], steps[k]);
    StepKeepsDoom(c, states[k], steps[k], e);
  }

  lemma {:induction false} DoomedAtCancel(c: Config, states: seq<State>, steps: seq<Step>, t: nat, k: nat, e: nat)
    requires IsRun(c, states, steps) && CancelsAt(c, states, steps, t) && t < k <= |steps| && e < c.targets
    ensures |states[k].entries| == c.targets && states[k].cancelled
    ensures DiscardedOrWaits(states[k], e) <==> Waits(states[t], e) || DispatchedSince(states, steps, t, k, e)
    decreases k
  {
    if k == t + 1 {
      RightAfterCancel(c, states, steps, t, e);
    } else {
      DoomedAtCancel(c, states, steps, t, k - 1, e);
      OneStepLater(c, states, steps, k - 1, e);
      SinceGrows(states, steps, t, k - 1, e);
    }
  }

  lemma SinceGrows(states: seq<State>, steps: seq<Step>, t: nat, k: nat, e: nat)
    requires t < k < |steps| < |states|
    ensures DispatchedSince(states, steps, t, k + 1, e) <==>
      DispatchedSince(states, steps, t, k, e) || Dispatches(states[k], steps[k], e)
  {
  }

  /** A dispatch of an entry was discarded by a Run that has returned cleanly if
      and only if, when the context was cancelled, the entry was queued or held
      by a worker that had not looked, or it was dispatched after that. */
  lemma DiscardedIffWaiting(c: Config, states: seq<State>, steps: seq<Step>, t: nat, k: nat, e: nat)
    requires IsRun(c, states, steps) && CancelsAt(c, states, steps, t) && t < k <= |steps| && e < c.targets
    requires states[k].life == Returned(Clean) && c.workers > 0
    ensures |states[k].entries| == c.targets
    ensures states[k].entries[e].discarded > 0 <==> Waits(states[t], e) || DispatchedSince(states, steps, t, k, e)
  {
    InvAlways(c, states, steps, k);
    DoomedAtCancel(c, states, steps, t, k, e);
    var s := states[k];
    assert s.workers[0].Exited? && s.work == [];
    assert !Held(s, e);
  }

  /** Hence the exact condition of the documented accounting, in terms of the
      moment of the cancellation: with nothing dropped and the channel drained,
      an entry's results equal its slots if and only if it was not waiting then
      and was not dispatched any more. */
  lemma AccountingIsExactIffNotWaiting(c: Config, states: seq<State>, steps: seq<Step>, t: nat, k: nat, e: nat)
    requires IsRun(c, states, steps) && CancelsAt(c, states, steps, t) && t < k <= |steps| && e < c.targets
    requires states[k].life == Returned(Clean) && c.workers > 0 && states[k].results == [] && states[k].dropped == 0
    ensures |states[k].entries| == c.targets
    ensures Count(states[k].received, OfEntry(e)) == states[k].entries[e].slots <==>
      !Waits(states[t], e) && !DispatchedSince(states, steps, t, k, e)
  {
    DocumentedEqualityIffNothingDiscarded(c, states, steps, k, e);
    DiscardedIffWaiting(c, states, steps, t, k, e);
  }
}
