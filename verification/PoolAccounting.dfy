/** Nothing is lost without being counted: every processed slot, dispatch, run
    and skip is accounted for at every reachable state. */
module PoolAccounting {
  import opened LapViews
  import opened Pool

  /** Which results a count is about. */
  datatype Tally = OfEntry(e: nat) | OfSkips | OfFailures | OfAll | Exactly(r: Result)

  function Matches(t: Tally, r: Result): nat {
    match t
    case OfEntry(e) => if r.entry == e then 1 else 0
    case OfSkips => if r.what.Missed? then 1 else 0
    case OfFailures => if r.what == Ran(false) then 1 else 0
    case OfAll => 1
    case Exactly(x) => if r == x then 1 else 0
  }

  function Count(rs: seq<Result>, t: Tally): nat {
    if rs == [] then 0 else Matches(t, rs[0]) + Count(rs[1..], t)
  }

  lemma {:induction false} CountAppend(rs: seq<Result>, r: Result, t: Tally)
    ensures Count(rs + [r], t) == Count(rs, t) + Matches(t, r)
  {
    if rs == [] {
      assert rs + [r] == [r];
    } else {
      CountAppend(rs[1..], r, t);
      assert (rs + [r])[1..] == rs[1..] + [r];
    }
  }

  lemma {:induction false} CountAllIsLength(rs: seq<Result>)
    ensures Count(rs, OfAll) == |rs|
  {
    if rs != [] {
      CountAllIsLength(rs[1..]);
    }
  }

  /** Which workers a count is about: those with entry `e` before its run is
      reported, those about to report, those about to count a lost result. */
  datatype HandTally = Unreported(e: nat) | InReport(t: Tally) | InLoss

  function Hit(w: Worker, h: HandTally): nat {
    if !w.Busy? then 0
    else match h
      case Unreported(e) => if w.e == e && (w.stage.Held? || w.stage.Cleared? || w.stage.Running?) then 1 else 0
      case InReport(t) => if w.stage.Reporting? then Matches(t, w.stage.r) else 0
      case InLoss => if w.stage.Losing? then 1 else 0
  }

  function Hands(ws: seq<Worker>, h: HandTally): nat {
    if ws == [] then 0 else Hit(ws[0], h) + Hands(ws[1..], h)
  }

  lemma {:induction false} HandsChange(ws: seq<Worker>, w: nat, x: Worker, h: HandTally)
    requires w < |ws|
    ensures Hands(ws[w := x], h) + Hit(ws[w], h) == Hands(ws, h) + Hit(x, h)
  {
    if w == 0 {
      assert ws[w := x][1..] == ws[1..];
    } else {
      HandsChange(ws[1..], w - 1, x, h);
      assert ws[w := x][1..] == ws[1..][w - 1 := x];
    }
  }

  lemma {:induction false} NobodyBusy(ws: seq<Worker>, h: HandTally)
    requires forall w :: 0 <= w < |ws| ==> !ws[w].Busy?
    ensures Hands(ws, h) == 0
  {
    if ws != [] {
      NobodyBusy(ws[1..], h);
    }
  }

  /** The scheduler's own unsent report. A count of exact results leaves it out
      until its kind is settled; for the other counts the kind does not matter. */
  function ControlReports(k: Control, t: Tally): nat {
    match k
    case Classifying(e) => if t.Exactly? then 0 else Matches(t, Result(e, Missed(PriorRunQueued)))
    case SkipReporting(r) => Matches(t, r)
    case _ => 0
  }

  /** Reports begun: received, buffered, lost, or in some sender's hands. */
  function Reports(s: State, t: Tally): nat {
    Count(s.received, t) + Count(s.results, t) + Count(s.lost, t) + Hands(s.workers, InReport(t)) + ControlReports(s.control, t)
  }

  /** A slot processed but not yet advanced. */
  function SlotInProgress(k: Control, e: nat): nat {
    match k
    case Classifying(d) => if d == e then 1 else 0
    case SkipReporting(r) => if r.entry == e then 1 else 0
    case SkipLosing(r) => if r.entry == e then 1 else 0
    case Advancing(d) => if d == e then 1 else 0
    case _ => 0
  }

  function LossInProgress(s: State): nat {
    Hands(s.workers, InLoss) + if s.control.SkipLosing? then 1 else 0
  }

  function TotalRuns(es: seq<Entry>): nat {
    if es == [] then 0 else es[0].runs + TotalRuns(es[1..])
  }

  lemma {:induction false} TotalRunsChange(es: seq<Entry>, e: nat, x: Entry)
    requires e < |es|
    ensures TotalRuns(es[e := x]) + es[e].runs == TotalRuns(es) + x.runs
  {
    if e == 0 {
      assert es[e := x][1..] == es[1..];
    } else {
      TotalRunsChange(es[1..], e - 1, x);
      assert es[e := x][1..] == es[1..][e - 1 := x];
    }
  }

  ghost predicate EntryBalanced(s: State, e: nat)
    requires e < |s.entries|
  {
    var x := s.entries[e];
    && x.slots + SlotInProgress(s.control, e) == x.skips + x.dispatches
    && x.dispatches == x.runs + x.discarded + multiset(s.work)[e] + Hands(s.workers, Unreported(e))
    && x.skips + x.runs == Reports(s, OfEntry(e))
  }

  /** Reports carry what their sender says they carry. */
  ghost predicate ReportsHonest(s: State) {
    && (forall w :: 0 <= w < |s.workers| && s.workers[w].Busy? && s.workers[w].stage.Reporting? ==> s.workers[w].stage.r.what.Ran?)
    && (s.control.SkipReporting? ==> s.control.r.what.Missed?)
  }

  // ------------------------------------------------------ conservation, step by step

  /** The skip report whose kind is about to be settled. */
  function Settled(s: State): Result {
    var e := if s.control.Classifying? then s.control.e else 0;
    Result(e, Missed(if e < |s.entries| && s.entries[e].started then PriorRunStarted else PriorRunQueued))
  }

  /** What a step adds to the reports begun. */
  function Begun(s: State, step: Step, t: Tally): nat
  {
    match step
    case Schedule(PickBusy(e)) => if t.Exactly? then 0 else Matches(t, Result(e, Missed(PriorRunQueued)))
    case Schedule(Classify) => if t.Exactly? then Matches(t, Settled(s)) else 0
    case Work(w, FinishRun(ok)) => if w < |s.workers| && s.workers[w].Busy? then Matches(t, Result(s.workers[w].e, Ran(ok))) else 0
    case _ => 0
  }

  predicate IsSkipStep(step: SchedulerStep) {
    step.PickBusy? || step.Classify? || step.SendSkip? || step.SkipFindsFull? || step.CountSkipDrop?
  }

  predicate IsDispatchStep(step: SchedulerStep) {
    step.PickIdle? || step.Enqueue? || step.QuitDispatch? || step.Advance?
  }

  lemma SkipStepConservesReports(c: Config, s: State, step: SchedulerStep, t: Tally)
    requires SchedulerEnabled(c, s, step) && IsSkipStep(step)
    ensures Reports(SchedulerApply(c, s, step), t) == Reports(s, t) + Begun(s, Schedule(step), t)
  {
    if step.SendSkip? {
      CountAppend(s.results, s.control.r, t);
    } else if step.SkipFindsFull? {
      CountAppend(s.lost, s.control.r, t);
    }
  }

  lemma OtherStepsReportNothing(c: Config, s: State, step: SchedulerStep)
    requires SchedulerEnabled(c, s, step) && !IsSkipStep(step)
    ensures var u := SchedulerApply(c, s, step);
      && u.received == s.received && u.results == s.results && u.lost == s.lost && u.workers == s.workers
      && forall t: Tally :: ControlReports(u.control, t) == ControlReports(s.control, t) == 0
  {
  }

  lemma SchedulerConservesReports(c: Config, s: State, step: SchedulerStep, t: Tally)
    requires SchedulerEnabled(c, s, step)
    ensures Reports(SchedulerApply(c, s, step), t) == Reports(s, t) + Begun(s, Schedule(step), t)
  {
    if IsSkipStep(step) {
      SkipStepConservesReports(c, s, step, t);
    } else {
      OtherStepsReportNothing(c, s, step);
    }
  }

  lemma HandingOverConservesReports(c: Config, s: State, w: nat, step: WorkerStep, t: Tally)
    requires WorkerEnabled(c, s, w, step) && (step.Send? || step.FindFull?)
    ensures Reports(WorkerApply(c, s, w, step), t) == Reports(s, t) + Begun(s, Work(w, step), t)
  {
    HandsChange(s.workers, w, WorkerApply(c, s, w, step).workers[w], InReport(t));
    CountAppend(if step.Send? then s.results else s.lost, s.workers[w].stage.r, t);
  }

  lemma OtherWorkConservesReports(c: Config, s: State, w: nat, step: WorkerStep, t: Tally)
    requires WorkerEnabled(c, s, w, step) && !step.Send? && !step.FindFull?
    ensures Reports(WorkerApply(c, s, w, step), t) == Reports(s, t) + Begun(s, Work(w, step), t)
  {
    HandsChange(s.workers, w, WorkerApply(c, s, w, step).workers[w], InReport(t));
  }

  lemma WorkerConservesReports(c: Config, s: State, w: nat, step: WorkerStep, t: Tally)
    requires WorkerEnabled(c, s, w, step)
    ensures Reports(WorkerApply(c, s, w, step), t) == Reports(s, t) + Begun(s, Work(w, step), t)
  {
    if step.Send? || step.FindFull? {
      HandingOverConservesReports(c, s, w, step, t);
    } else {
      OtherWorkConservesReports(c, s, w, step, t);
    }
  }

  lemma RunConservesReports(c: Config, s: State, step: RunStep, t: Tally)
    requires RunEnabled(c, s, step) && (s.life.Fresh? ==> s.workers == [] && s.control.NotStarted?)
    ensures Reports(RunApply(c, s, step), t) == Reports(s, t) + Begun(s, Run(step), t)
  {
    if step.Receive? {
      CountAppend(s.received, s.results[0], t);
    } else if step.Start? {
      NobodyBusy(RunApply(c, s, step).workers, InReport(t));
    }
  }

  /** No step loses or invents a report: only a judged skip and a finished run
      begin one, and everything else moves it along. */
  lemma ReportsAreConserved(c: Config, s: State, step: Step, t: Tally)
    requires Enabled(c, s, step) && (s.life.Fresh? ==> s.workers == [] && s.control.NotStarted?)
    ensures Reports(Apply(c, s, step), t) == Reports(s, t) + Begun(s, step, t)
  {
    match step
    case Schedule(k) => SchedulerConservesReports(c, s, k, t);
    case Work(w, k) => WorkerConservesReports(c, s, w, k, t);
    case Run(k) => RunConservesReports(c, s, k, t);
  }

  // ---------------------------------------------------------------- per entry

  lemma MultisetOfTail(q: seq<nat>, e: nat)
    requires q != []
    ensures multiset(q)[e] == multiset(q[1..])[e] + if q[0] == e then 1 else 0
  {
    assert q == [q[0]] + q[1..];
  }

  lemma SkipStepKeepsEntryBalanced(c: Config, s: State, step: SchedulerStep, e: nat)
    requires SchedulerEnabled(c, s, step) && e < |s.entries| && EntryBalanced(s, e) && IsSkipStep(step)
    ensures EntryBalanced(SchedulerApply(c, s, step), e)
  {
    SchedulerConservesReports(c, s, step, OfEntry(e));
  }

  lemma DispatchStepKeepsEntryBalanced(c: Config, s: State, step: SchedulerStep, e: nat)
    requires SchedulerEnabled(c, s, step) && e < |s.entries| && EntryBalanced(s, e) && IsDispatchStep(step)
    ensures EntryBalanced(SchedulerApply(c, s, step), e)
  {
    SchedulerConservesReports(c, s, step, OfEntry(e));
  }

  lemma WaitStepKeepsEntryBalanced(c: Config, s: State, step: SchedulerStep, e: nat)
    requires SchedulerEnabled(c, s, step) && e < |s.entries| && EntryBalanced(s, e)
    requires !IsSkipStep(step) && !IsDispatchStep(step)
    ensures EntryBalanced(SchedulerApply(c, s, step), e)
  {
    SchedulerConservesReports(c, s, step, OfEntry(e));
  }

  lemma SchedulerKeepsEntryBalanced(c: Config, s: State, step: SchedulerStep, e: nat)
    requires SchedulerEnabled(c, s, step) && e < |s.entries| && EntryBalanced(s, e)
    ensures EntryBalanced(SchedulerApply(c, s, step), e)
  {
    if IsSkipStep(step) {
      SkipStepKeepsEntryBalanced(c, s, step, e);
    } else if IsDispatchStep(step) {
      DispatchStepKeepsEntryBalanced(c, s, step, e);
    } else {
      WaitStepKeepsEntryBalanced(c, s, step, e);
    }
  }

  /** What a worker's step does to the counts of an entry that are not about
      reports. */
  lemma WorkerKeepsDispatches(c: Config, s: State, w: nat, step: WorkerStep, e: nat)
    requires WorkerEnabled(c, s, w, step) && e < |s.entries|
    ensures var t := WorkerApply(c, s, w, step); var x, y := s.entries[e], t.entries[e];
      && y.slots == x.slots && y.skips == x.skips && y.dispatches == x.dispatches && t.control == s.control
      && y.runs + y.discarded + multiset(t.work)[e] + Hands(t.workers, Unreported(e))
         == x.runs + x.discarded + multiset(s.work)[e] + Hands(s.workers, Unreported(e))
  {
    HandsChange(s.workers, w, WorkerApply(c, s, w, step).workers[w], Unreported(e));
    if step.Take? {
      MultisetOfTail(s.work, e);
    }
  }

  lemma WorkerKeepsEntryBalanced(c: Config, s: State, w: nat, step: WorkerStep, e: nat)
    requires WorkerEnabled(c, s, w, step) && e < |s.entries| && EntryBalanced(s, e)
    ensures EntryBalanced(WorkerApply(c, s, w, step), e)
  {
    WorkerConservesReports(c, s, w, step, OfEntry(e));
    WorkerKeepsDispatches(c, s, w, step, e);
  }

  lemma StartKeepsBalances(c: Config, s: State, h: HandTally)
    requires RunEnabled(c, s, Start) && s.workers == [] && s.control.NotStarted?
    ensures Hands(RunApply(c, s, Start).workers, h) == Hands(s.workers, h) == 0
    ensures SlotInProgress(RunApply(c, s, Start).control, 0) == SlotInProgress(s.control, 0) == 0
  {
    NobodyBusy(RunApply(c, s, Start).workers, h);
  }

  lemma OtherRunStepsKeepHands(c: Config, s: State, step: RunStep)
    requires RunEnabled(c, s, step) && !step.Start?
    ensures var t := RunApply(c, s, step);
      && t.workers == s.workers && t.control == s.control && t.entries == s.entries && t.work == s.work
      && t.skipped == s.skipped && t.dropped == s.dropped && t.lost == s.lost
  {
  }

  lemma RunKeepsEntryBalanced(c: Config, s: State, step: RunStep, e: nat)
    requires RunEnabled(c, s, step) && (s.life.Fresh? ==> s.workers == [] && s.control.NotStarted?)
    requires e < |s.entries| && EntryBalanced(s, e)
    ensures EntryBalanced(RunApply(c, s, step), e)
  {
    RunConservesReports(c, s, step, OfEntry(e));
    if step.Start? {
      StartKeepsBalances(c, s, Unreported(e));
    } else {
      OtherRunStepsKeepHands(c, s, step);
    }
  }

  // -------------------------------------------------------------- fleet-wide

  ghost predicate FleetBalanced(s: State) {
    && s.skipped == Reports(s, OfSkips)
    && s.skipped + TotalRuns(s.entries) == Reports(s, OfAll)
    && s.dropped + LossInProgress(s) == |s.lost|
    && ReportsHonest(s)
  }

  lemma SchedulerKeepsFleetBalanced(c: Config, s: State, step: SchedulerStep)
    requires SchedulerEnabled(c, s, step) && FleetBalanced(s)
    ensures FleetBalanced(SchedulerApply(c, s, step))
  {
    var t := SchedulerApply(c, s, step);
    SchedulerConservesReports(c, s, step, OfSkips);
    SchedulerConservesReports(c, s, step, OfAll);
    SchedulerKeepsTotalRuns(c, s, step);
  }

  lemma SchedulerKeepsTotalRuns(c: Config, s: State, step: SchedulerStep)
    requires SchedulerEnabled(c, s, step)
    ensures TotalRuns(SchedulerApply(c, s, step).entries) == TotalRuns(s.entries)
  {
    var t := SchedulerApply(c, s, step);
    match step
    case DrainOne => TotalRunsChange(s.entries, s.done[0], t.entries[s.done[0]]);
    case AckWake => TotalRunsChange(s.entries, s.done[0], t.entries[s.done[0]]);
    case PickIdle(e) => TotalRunsChange(s.entries, e, t.entries[e]);
    case PickBusy(e) => TotalRunsChange(s.entries, e, t.entries[e]);
    case Enqueue => TotalRunsChange(s.entries, s.control.e, t.entries[s.control.e]);
    case Advance => TotalRunsChange(s.entries, s.control.e, t.entries[s.control.e]);
    case _ =>
  }

  lemma WorkerKeepsFleetBalanced(c: Config, s: State, w: nat, step: WorkerStep)
    requires WorkerEnabled(c, s, w, step) && FleetBalanced(s)
    ensures FleetBalanced(WorkerApply(c, s, w, step))
  {
    var t := WorkerApply(c, s, w, step);
    WorkerConservesReports(c, s, w, step, OfSkips);
    WorkerConservesReports(c, s, w, step, OfAll);
    HandsChange(s.workers, w, t.workers[w], InLoss);
    if step.SeeCancelled? || step.MarkStarted? || step.FinishRun? {
      TotalRunsChange(s.entries, s.workers[w].e, t.entries[s.workers[w].e]);
    }
  }

  lemma StartKeepsFleetBalanced(c: Config, s: State)
    requires RunEnabled(c, s, Start) && s.workers == [] && s.control.NotStarted? && FleetBalanced(s)
    ensures FleetBalanced(RunApply(c, s, Start))
  {
    StartKeepsBalances(c, s, InReport(OfSkips));
    StartKeepsBalances(c, s, InReport(OfAll));
    StartKeepsBalances(c, s, InLoss);
  }

  lemma OtherRunStepsKeepFleetBalanced(c: Config, s: State, step: RunStep)
    requires RunEnabled(c, s, step) && !step.Start? && !s.life.Fresh? && FleetBalanced(s)
    ensures FleetBalanced(RunApply(c, s, step))
  {
    RunConservesReports(c, s, step, OfSkips);
    RunConservesReports(c, s, step, OfAll);
    OtherRunStepsKeepHands(c, s, step);
  }

  lemma RunKeepsFleetBalanced(c: Config, s: State, step: RunStep)
    requires RunEnabled(c, s, step) && (s.life.Fresh? ==> s.workers == [] && s.control.NotStarted?)
    requires FleetBalanced(s)
    ensures FleetBalanced(RunApply(c, s, step))
  {
    if step.Start? {
      StartKeepsFleetBalanced(c, s);
    } else if s.life.Fresh? {
      RunConservesReports(c, s, step, OfSkips);
      RunConservesReports(c, s, step, OfAll);
    } else {
      OtherRunStepsKeepFleetBalanced(c, s, step);
    }
  }

  ghost predicate Balanced(s: State) {
    (forall e :: 0 <= e < |s.entries| ==> EntryBalanced(s, e)) && FleetBalanced(s)
  }

  lemma {:induction false} NoRunsYet(es: seq<Entry>)
    requires forall e :: 0 <= e < |es| ==> es[e] == IDLE
    ensures TotalRuns(es) == 0
  {
    if es != [] {
      NoRunsYet(es[1..]);
    }
  }

  lemma BalancedInitially(c: Config)
    ensures Balanced(Init(c))
  {
    NoRunsYet(Init(c).entries);
  }

  lemma StepKeepsEntryBalanced(c: Config, s: State, step: Step, e: nat)
    requires Enabled(c, s, step) && (s.life.Fresh? ==> s.workers == [] && s.control.NotStarted?)
    requires e < |s.entries| && EntryBalanced(s, e)
    ensures |Apply(c, s, step).entries| == |s.entries| && EntryBalanced(Apply(c, s, step), e)
  {
    match step
    case Schedule(k) => SchedulerKeepsEntryBalanced(c, s, k, e);
    case Work(w, k) => WorkerKeepsEntryBalanced(c, s, w, k, e);
    case Run(k) => RunKeepsEntryBalanced(c, s, k, e);
  }

  lemma StepKeepsFleetBalanced(c: Config, s: State, step: Step)
    requires Enabled(c, s, step) && (s.life.Fresh? ==> s.workers == [] && s.control.NotStarted?)
    requires FleetBalanced(s)
    ensures FleetBalanced(Apply(c, s, step))
  {
    match step
    case Schedule(k) => SchedulerKeepsFleetBalanced(c, s, k);
    case Work(w, k) => WorkerKeepsFleetBalanced(c, s, w, k);
    case Run(k) => RunKeepsFleetBalanced(c, s, k);
  }

  lemma StepKeepsBalanced(c: Config, s: State, step: Step)
    requires Enabled(c, s, step) && (s.life.Fresh? ==> s.workers == [] && s.control.NotStarted?)
    requires Balanced(s) && |Apply(c, s, step).entries| == |s.entries|
    ensures Balanced(Apply(c, s, step))
  {
    forall e: nat | e < |s.entries| ensures EntryBalanced(Apply(c, s, step), e) {
      StepKeepsEntryBalanced(c, s, step, e);
    }
    StepKeepsFleetBalanced(c, s, step);
  }
}
