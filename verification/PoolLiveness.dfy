/** Nobody waits for the consumer: at every reachable state the scheduler, every
    worker with an entry in hand, and a cancelled Run each have a step to take
    that needs nobody to receive a result. */
module PoolLiveness {
  import opened Pool
  import opened PoolRuns

  /** The steps that move the runner along by itself: not the canceller's, not
      the consumer's, not a refused second call, and not one more try at a
      publish, which changes nothing here. */
  predicate IsOwnStep(step: Step) {
    match step
    case Schedule(_) => true
    case Work(_, t) => !t.Publish?
    case Run(t) => !t.Cancel? && !t.Receive? && !t.RunAgain?
  }

  /** The scheduler never blocks but in its armed (or, without targets, parked)
      wait; and the armed wait ends with the timer. */
  lemma SchedulerNeverBlocks(c: Config, states: seq<State>, steps: seq<Step>, k: nat) returns (step: SchedulerStep)
    requires IsRun(c, states, steps) && k <= |steps|
    requires !states[k].control.NotStarted? && !states[k].control.Stopped?
    requires states[k].control.Parked? ==> states[k].cancelled
    ensures SchedulerEnabled(c, states[k], step)
    ensures states[k].cancelled && (states[k].control.Parked? || states[k].control.Armed? || states[k].control.Dispatching?) ==>
      SchedulerApply(c, states[k], step).control.Stopped?
  {
    InvAlways(c, states, steps, k);
    SendersFindRoom(c, states, steps, k);
    var s := states[k];
    match s.control
    case Parked => step := QuitParked;
    case Draining => step := if s.done == [] then DrainEnd else DrainOne;
    case Judging => step := Arm;
    case Armed => step := if s.cancelled then QuitArmed else TimerWake;
    case Dispatching(_) => step := if s.cancelled then QuitDispatch else Enqueue;
    case Classifying(_) => step := Classify;
    case SkipReporting(_) => step := if |s.results| < c.capacity then SendSkip else SkipFindsFull;
    case SkipLosing(_) => step := CountSkipDrop;
    case Advancing(_) => step := Advance;
  }

  /** A worker with an entry never blocks, however full Results() is; and once
      `work` is closed an idle one has something to do, too. */
  lemma WorkerNeverBlocks(c: Config, states: seq<State>, steps: seq<Step>, k: nat, w: nat) returns (step: WorkerStep)
    requires IsRun(c, states, steps) && k <= |steps| && w < |states[k].workers| && !states[k].workers[w].Exited?
    requires states[k].workers[w].Receiving? ==> states[k].work != [] || WorkClosed(states[k])
    ensures WorkerEnabled(c, states[k], w, step) && !step.Publish?
  {
    InvAlways(c, states, steps, k);
    SendersFindRoom(c, states, steps, k);
    var s := states[k];
    match s.workers[w]
    case Receiving => step := if s.work != [] then Take else Exit;
    case Busy(e, stage) =>
      assert InHand(s, w);
      match stage {
        case Held => step := if s.cancelled then SeeCancelled else SeeAlive;
        case Cleared => step := MarkStarted;
        case Running => step := FinishRun(true);
        case Reporting(_) => step := if |s.results| < c.capacity then Send else FindFull;
        case Losing(_) => step := CountDrop;
        case Acking => step := Ack;
      }
  }

  /** Shutdown never deadlocks: a cancelled Run that has not returned has a step to
      take, whatever the consumer does or does not do. */
  lemma CancelledRunGoesOn(c: Config, states: seq<State>, steps: seq<Step>, k: nat) returns (step: Step)
    requires IsRun(c, states, steps) && k <= |steps|
    requires states[k].cancelled && !states[k].life.Returned?
    ensures Enabled(c, states[k], step) && IsOwnStep(step)
  {
    InvAlways(c, states, steps, k);
    var s := states[k];
    match s.life
    case Fresh => step := Run(if c.encoderOk then Start else RefuseConfig);
    case Serving =>
      if s.control.Stopped? {
        step := Run(CloseWork);
      } else {
        var t := SchedulerNeverBlocks(c, states, steps, k);
        step := Schedule(t);
      }
    case Waiting =>
      if AllExited(c, s) {
        step := Run(if c.bounded && !s.finished then NoticeFinished else CloseResults);
      } else {
        var w :| 0 <= w < |s.workers| && !s.workers[w].Exited?;
        var t := WorkerNeverBlocks(c, states, steps, k, w);
        step := Work(w, t);
      }
  }

  ghost predicate SchedulerIsOpen(c: Config, s: State) {
    && (s.control.Judging? ==>
          && SchedulerEnabled(c, s, SchedulerStep.Reanchor) && SchedulerEnabled(c, s, Arm)
          && forall e :: 0 <= e < |s.entries| ==> SchedulerEnabled(c, s, if s.entries[e].inflight then PickBusy(e) else PickIdle(e)))
    && (s.control.Armed? ==> SchedulerEnabled(c, s, TimerWake) && (s.done != [] ==> SchedulerEnabled(c, s, AckWake)))
    && (s.cancelled && s.control.Armed? ==> SchedulerEnabled(c, s, QuitArmed))
    && (s.cancelled && s.control.Dispatching? ==> SchedulerEnabled(c, s, QuitDispatch))
  }

  ghost predicate OthersAreOpen(c: Config, s: State) {
    && (forall w: nat :: InHand(s, w) && s.workers[w].stage.Running? ==>
          WorkerEnabled(c, s, w, Publish) && WorkerEnabled(c, s, w, FinishRun(true)) && WorkerEnabled(c, s, w, FinishRun(false)))
    && RunEnabled(c, s, Cancel) && (s.results != [] ==> RunEnabled(c, s, Receive))
    && (s.life.Waiting? && c.bounded ==> RunEnabled(c, s, GraceExpires))
  }

  lemma SchedulerBranches(c: Config, s: State)
    requires PoolPlacement.InRange(c, s)
    ensures SchedulerIsOpen(c, s)
  {
    if s.done != [] {
      assert s.done[0] < c.targets;
    }
  }

  lemma OtherBranches(c: Config, s: State)
    ensures OthersAreOpen(c, s)
  {
  }

  /** No branch is missing: a judgement may find any entry due, nothing due, or the
      top stale; a wait ends with the timer, an ack or the cancellation, whichever
      comes; a run may end either way; and the consumer, the canceller and the
      grace period come when they like. */
  lemma EveryBranchIsOpen(c: Config, states: seq<State>, steps: seq<Step>, k: nat)
    requires IsRun(c, states, steps) && k <= |steps|
    ensures SchedulerIsOpen(c, states[k]) && OthersAreOpen(c, states[k])
  {
    InvAlways(c, states, steps, k);
    SchedulerBranches(c, states[k]);
    OtherBranches(c, states[k]);
  }

  // -------------------------------------------------------------- going round

  /** How far the scheduler is from its next judgement. */
  function FromJudging(k: Control): nat {
    match k
    case Judging => 0
    case Draining => 1
    case Armed => 2
    case Advancing(_) => 2
    case Dispatching(_) => 3
    case SkipLosing(_) => 3
    case SkipReporting(_) => 4
    case Classifying(_) => 5
    case Parked => 6
    case NotStarted => 6
    case Stopped => 6
  }

  /** Every step of the scheduler takes it on: from a judgement into a wait, a
      dispatch, a skip or a new round, and from there, by way of a whole drain,
      closer to the next judgement, or out. With `done` bounded by the number of
      targets, it never goes long without one. */
  lemma SchedulerGoesRound(c: Config, s: State, step: SchedulerStep)
    requires SchedulerEnabled(c, s, step)
    ensures var t := SchedulerApply(c, s, step);
      || t.control.Stopped?
      || (s.control.Judging? && !t.control.Judging?)
      || (!s.control.Judging? && FromJudging(t.control) < FromJudging(s.control))
      || (s.control.Draining? && t.control.Draining? && |t.done| < |s.done|)
  {
  }

  /** Wherever a new round begins, all that has been acked by then is taken before
      the next judgement; an ack that ended the wait has been taken already. */
  lemma EveryRoundDrains(c: Config, s: State, step: SchedulerStep)
    requires SchedulerEnabled(c, s, step)
    requires step.Reanchor? || step.TimerWake? || step.AckWake? || step.Advance?
    ensures var t := SchedulerApply(c, s, step);
      && t.control.Draining? && (forall e :: e in t.acked <==> e in t.done)
      && (step.AckWake? ==> !t.entries[s.done[0]].inflight && !t.entries[s.done[0]].started && s.done == [s.done[0]] + t.done)
      && (!step.AckWake? ==> t.done == s.done)
  {
  }

  predicate OnlyWaits(k: Control) { k.NotStarted? || k.Parked? || k.Stopped? }

  lemma StepOnlyWaits(c: Config, s: State, step: Step)
    requires Enabled(c, s, step) && c.targets == 0 && OnlyWaits(s.control)
    ensures OnlyWaits(Apply(c, s, step).control)
  {
    match step
    case Schedule(k) => assert k.QuitParked?;
    case Work(w, k) => assert WorkerApply(c, s, w, k).control == s.control;
    case Run(k) =>
  }

  /** Without targets the scheduler only waits for the cancellation. */
  lemma {:induction false} NoTargetsOnlyWaits(c: Config, states: seq<State>, steps: seq<Step>, k: nat)
    requires IsRun(c, states, steps) && k <= |steps| && c.targets == 0
    ensures OnlyWaits(states[k].control) && (states[k].control.Stopped? ==> states[k].cancelled)
  {
    InvAlways(c, states, steps, k);
    if k > 0 {
      NoTargetsOnlyWaits(c, states, steps, k - 1);
      StepOfRun(c, states, steps, k - 1);
      StepOnlyWaits(c, states[k - 1], steps[k - 1]);
    }
  }

  // ------------------------------------------------------------ winding down

  /** The steps a worker is from its exit, once no more entries reach it. */
  function StagesLeft(w: Worker): nat {
    match w
    case Exited => 0
    case Receiving => 1
    case Busy(_, stage) =>
      match stage
      case Held => 7 case Cleared => 6 case Running => 5 case Reporting(_) => 4 case Losing(_) => 3 case Acking => 2
  }

  function AllStagesLeft(ws: seq<Worker>): nat {
    if ws == [] then 0 else StagesLeft(ws[0]) + AllStagesLeft(ws[1..])
  }

  lemma {:induction false} StagesChange(ws: seq<Worker>, w: nat, x: Worker)
    requires w < |ws|
    ensures AllStagesLeft(ws[w := x]) + StagesLeft(ws[w]) == AllStagesLeft(ws) + StagesLeft(x)
  {
    if w == 0 {
      assert ws[w := x][1..] == ws[1..];
    } else {
      StagesChange(ws[1..], w - 1, x);
      assert ws[w := x][1..] == ws[1..][w - 1 := x];
    }
  }

  /** Bounds the steps left before Run returns: the workers' on what they hold and
      on each entry still queued, and Run's own notice. */
  function LeftToDo(s: State): nat {
    7 * |s.work| + AllStagesLeft(s.workers) + if s.finished then 0 else 1
  }

  lemma WorkWindsDown(c: Config, s: State, w: nat, step: WorkerStep)
    requires WorkerEnabled(c, s, w, step) && !step.Publish?
    ensures LeftToDo(WorkerApply(c, s, w, step)) < LeftToDo(s)
  {
    StagesChange(s.workers, w, WorkerApply(c, s, w, step).workers[w]);
  }

  /** Once the scheduler has stopped and `work` is closed, every step that the
      runner takes by itself brings Run's return closer: with `CancelledRunGoesOn`,
      Run returns after boundedly many of them, provided that each check and
      each publish comes to an end. */
  lemma ShutdownWindsDown(c: Config, states: seq<State>, steps: seq<Step>, k: nat)
    requires IsRun(c, states, steps) && k < |steps| && states[k].life.Waiting? && IsOwnStep(steps[k])
    ensures states[k + 1].life.Returned? || (states[k + 1].life.Waiting? && LeftToDo(states[k + 1]) < LeftToDo(states[k]))
  {
    InvAlways(c, states, steps, k);
    StepOfRun(c, states, steps, k);
    match steps[k]
    case Work(w, t) => WorkWindsDown(c, states[k], w, t);
    case _ =>
  }
}
