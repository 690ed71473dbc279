/** What reaches the consumer: every result is the outcome of a run that finished
    or the kind of a skip that happened, once each, and they arrive in the order
    in which they were sent. */
module PoolResults {
  import opened Common
  import opened Pool
  import opened PoolAccounting
  import opened PoolRuns

  /** The step brings about this result: a run of the entry ends this way, or a
      slot of it is missed while its present dispatch is, or is not yet, started. */
  predicate Produces(s: State, step: Step, r: Result) {
    match r.what
    case Ran(ok) =>
      step.Work? && step.t == FinishRun(ok) && step.w < |s.workers| && s.workers[step.w].Busy? && s.workers[step.w].e == r.entry
    case Missed(kind) =>
      && step == Schedule(Classify) && s.control == Classifying(r.entry) && r.entry < |s.entries|
      && (kind.PriorRunStarted? <==> s.entries[r.entry].startedFor == s.entries[r.entry].dispatches)
  }

  function Produced(states: seq<State>, steps: seq<Step>, k: nat, r: Result): nat
    requires k <= |steps| < |states|
  {
    if k == 0 then 0 else Produced(states, steps, k - 1, r) + OneIf(Produces(states[k - 1], steps[k - 1], r))
  }

  lemma RunsAreProduced(c: Config, s: State, step: Step, r: Result)
    requires Enabled(c, s, step) && step != Schedule(Classify)
    ensures PoolAccounting.Begun(s, step, Exactly(r)) == OneIf(Produces(s, step, r))
  {
  }

  lemma SkipsAreProduced(c: Config, s: State, r: Result)
    requires SchedulerEnabled(c, s, Classify) && Inv(c, s)
    ensures PoolAccounting.Begun(s, Schedule(Classify), Exactly(r)) == OneIf(Produces(s, Schedule(Classify), r))
  {
    var e := s.control.e;
    assert s.entries[e].inflight && (s.entries[e].started <==> s.entries[e].startedFor == s.entries[e].dispatches);
    assert Settled(s).entry == e;
  }

  lemma StepProduces(c: Config, s: State, step: Step, r: Result)
    requires Enabled(c, s, step) && Inv(c, s)
    ensures Reports(Apply(c, s, step), Exactly(r)) == Reports(s, Exactly(r)) + OneIf(Produces(s, step, r))
  {
    ReportsAreConserved(c, s, step, Exactly(r));
    if step == Schedule(Classify) {
      SkipsAreProduced(c, s, r);
    } else {
      RunsAreProduced(c, s, step, r);
    }
  }

  lemma NothingYet(c: Config, t: Tally)
    ensures Reports(Init(c), t) == 0
  {
  }

  /** Result by result, in every run: those received, buffered, lost, or in a
      sender's hands are exactly those the steps so far have brought about. */
  lemma {:induction false} EveryResultIsGenuine(c: Config, states: seq<State>, steps: seq<Step>, k: nat, r: Result)
    requires IsRun(c, states, steps) && k <= |steps|
    ensures Reports(states[k], Exactly(r)) == Produced(states, steps, k, r)
  {
    if k == 0 {
      NothingYet(c, Exactly(r));
    } else {
      EveryResultIsGenuine(c, states, steps, k - 1, r);
      InvAlways(c, states, steps, k - 1);
      StepOfRun(c, states, steps, k - 1);
      StepProduces(c, states[k - 1], steps[k - 1], r);
    }
  }

  /** Runs that ended in an error, of the check, the encoder or the sink. */
  function FailedRuns(steps: seq<Step>, k: nat): nat
    requires k <= |steps|
  {
    if k == 0 then 0 else FailedRuns(steps, k - 1) + OneIf(steps[k - 1].Work? && steps[k - 1].t == FinishRun(false))
  }

  lemma StepFails(c: Config, s: State, step: Step)
    requires Enabled(c, s, step) && Inv(c, s)
    ensures Reports(Apply(c, s, step), OfFailures) == Reports(s, OfFailures) + OneIf(step.Work? && step.t == FinishRun(false))
  {
    ReportsAreConserved(c, s, step, OfFailures);
  }

  lemma {:induction false} FailuresAreReports(c: Config, states: seq<State>, steps: seq<Step>, k: nat)
    requires IsRun(c, states, steps) && k <= |steps|
    ensures Reports(states[k], OfFailures) == FailedRuns(steps, k)
  {
    if k == 0 {
      NothingYet(c, OfFailures);
    } else {
      FailuresAreReports(c, states, steps, k - 1);
      InvAlways(c, states, steps, k - 1);
      StepOfRun(c, states, steps, k - 1);
      StepFails(c, states[k - 1], steps[k - 1]);
    }
  }

  lemma SchedulerReportsNoFailure(s: State)
    requires ReportsHonest(s)
    ensures ControlReports(s.control, OfFailures) == 0
  {
  }

  /** Failed results, wherever they have got to, are the failed runs. */
  lemma FailuresAddUp(c: Config, states: seq<State>, steps: seq<Step>, k: nat)
    requires IsRun(c, states, steps) && k <= |steps|
    ensures Count(states[k].received, OfFailures) + Count(states[k].results, OfFailures) + Count(states[k].lost, OfFailures)
      + Hands(states[k].workers, InReport(OfFailures)) == FailedRuns(steps, k)
  {
    InvAlways(c, states, steps, k);
    FailuresAreReports(c, states, steps, k);
    SchedulerReportsNoFailure(states[k]);
  }

  lemma {:induction false} FailuresInHand(ws: seq<Worker>)
    ensures Hands(ws, InReport(OfFailures)) <= Hands(ws, InReport(OfAll))
  {
    if ws != [] {
      FailuresInHand(ws[1..]);
    }
  }

  /** So the failures received lag the failed runs by at most what is buffered,
      dropped, or in a sender's hands. */
  lemma FailuresLag(c: Config, states: seq<State>, steps: seq<Step>, k: nat)
    requires IsRun(c, states, steps) && k <= |steps|
    ensures var s := states[k]; var seen := Count(s.received, OfFailures);
      seen <= FailedRuns(steps, k) <= seen + |s.results| + s.dropped + InSenders(s)
  {
    FailuresAddUp(c, states, steps, k);
    InvAlways(c, states, steps, k);
    CountAtMostLength(states[k].results, OfFailures);
    CountAtMostLength(states[k].lost, OfFailures);
    FailuresInHand(states[k].workers);
  }

  // ------------------------------------------------------------------- capacity

  /** Nothing overfills the channel, and what loses a result found it full. */
  ghost predicate HeedsCapacity(c: Config, s: State, t: State) {
    |t.results| <= c.capacity && (|s.results| < c.capacity ==> t.lost == s.lost)
  }

  lemma SchedulerHeedsCapacity(c: Config, s: State, step: SchedulerStep)
    requires SchedulerEnabled(c, s, step) && |s.results| <= c.capacity
    ensures HeedsCapacity(c, s, SchedulerApply(c, s, step))
  {
  }

  lemma WorkerHeedsCapacity(c: Config, s: State, w: nat, step: WorkerStep)
    requires WorkerEnabled(c, s, w, step) && |s.results| <= c.capacity
    ensures HeedsCapacity(c, s, WorkerApply(c, s, w, step))
  {
  }

  lemma StepHeedsCapacity(c: Config, s: State, step: Step)
    requires Enabled(c, s, step) && |s.results| <= c.capacity
    ensures HeedsCapacity(c, s, Apply(c, s, step))
  {
    match step
    case Schedule(k) => SchedulerHeedsCapacity(c, s, k);
    case Work(w, k) => WorkerHeedsCapacity(c, s, w, k);
    case Run(k) =>
  }

  /** Up to here the channel has never been full. */
  ghost predicate NeverFull(c: Config, states: seq<State>, k: nat)
    requires k <= |states|
  {
    forall i :: 0 <= i < k ==> |states[i].results| < c.capacity
  }

  lemma {:induction false} LostOnlyWhenFull(c: Config, states: seq<State>, steps: seq<Step>, k: nat)
    requires IsRun(c, states, steps) && k <= |steps|
    ensures |states[k].results| <= c.capacity
    ensures NeverFull(c, states, k) ==> states[k].lost == []
  {
    if k > 0 {
      LostOnlyWhenFull(c, states, steps, k - 1);
      StepOfRun(c, states, steps, k - 1);
      StepHeedsCapacity(c, states[k - 1], steps[k - 1]);
    }
  }

  /** Best effort, and no worse: Results() never holds more than its capacity, and
      as long as it has never been full nothing has been dropped. */
  lemma DropsOnlyWhenFull(c: Config, states: seq<State>, steps: seq<Step>, k: nat)
    requires IsRun(c, states, steps) && k <= |steps|
    ensures |states[k].results| <= c.capacity
    ensures NeverFull(c, states, k) ==> states[k].lost == [] && states[k].dropped == 0
  {
    LostOnlyWhenFull(c, states, steps, k);
    InvAlways(c, states, steps, k);
  }

  // ------------------------------------------------------------ first in, first out

  /** The result a step puts into the channel. */
  function Sent(s: State, step: Step): seq<Result> {
    match step
    case Schedule(SendSkip) => if s.control.SkipReporting? then [s.control.r] else []
    case Work(w, Send) => if w < |s.workers| && s.workers[w].Busy? && s.workers[w].stage.Reporting? then [s.workers[w].stage.r] else []
    case _ => []
  }

  /** What has been received and what is buffered, in a row. */
  function Stream(s: State): seq<Result> { s.received + s.results }

  lemma SchedulerSendsLast(c: Config, s: State, step: SchedulerStep)
    requires SchedulerEnabled(c, s, step)
    ensures Stream(SchedulerApply(c, s, step)) == Stream(s) + Sent(s, Schedule(step))
    ensures SchedulerApply(c, s, step).received == s.received
  {
    assert s.received + s.results + Sent(s, Schedule(step)) == s.received + (s.results + Sent(s, Schedule(step)));
  }

  lemma WorkerSendsLast(c: Config, s: State, w: nat, step: WorkerStep)
    requires WorkerEnabled(c, s, w, step)
    ensures Stream(WorkerApply(c, s, w, step)) == Stream(s) + Sent(s, Work(w, step))
    ensures WorkerApply(c, s, w, step).received == s.received
  {
    assert s.received + s.results + Sent(s, Work(w, step)) == s.received + (s.results + Sent(s, Work(w, step)));
  }

  lemma ReceivingMovesOn(c: Config, s: State, step: RunStep)
    requires RunEnabled(c, s, step)
    ensures Stream(RunApply(c, s, step)) == Stream(s) && s.received <= RunApply(c, s, step).received
    ensures step.Receive? ==> |RunApply(c, s, step).received| == |s.received| + 1
  {
    if step.Receive? {
      assert s.results == [s.results[0]] + s.results[1..];
    }
  }

  lemma StepSendsLast(c: Config, s: State, step: Step)
    requires Enabled(c, s, step)
    ensures Stream(s) + Sent(s, step) == Stream(Apply(c, s, step)) && s.received <= Apply(c, s, step).received
    ensures step == Run(Receive) ==> |Apply(c, s, step).received| == |s.received| + 1
  {
    match step
    case Schedule(k) => SchedulerSendsLast(c, s, k);
    case Work(w, k) => WorkerSendsLast(c, s, w, k);
    case Run(k) => ReceivingMovesOn(c, s, k);
  }

  lemma StreamGrows(c: Config, s: State, step: Step)
    requires Enabled(c, s, step)
    ensures Stream(s) <= Stream(Apply(c, s, step))
  {
    StepSendsLast(c, s, step);
  }

  /** The streams along a run. */
  ghost predicate Grow(streams: seq<seq<Result>>) {
    forall k :: 0 <= k < |streams| - 1 ==> streams[k] <= streams[k + 1]
  }

  lemma {:induction false} EarlierIsPrefix(streams: seq<seq<Result>>, i: nat, k: nat)
    requires Grow(streams) && i <= k < |streams|
    ensures streams[i] <= streams[k]
    decreases k
  {
    if i < k {
      EarlierIsPrefix(streams, i, k - 1);
    }
  }

  /** Results are received in the order in which they were sent: what has been
      received and what is buffered, in a row, only ever grow at the end. */
  lemma ResultsKeepTheirOrder(c: Config, states: seq<State>, steps: seq<Step>, i: nat, k: nat)
    requires IsRun(c, states, steps) && i <= k <= |steps|
    ensures Stream(states[i]) <= Stream(states[k])
  {
    var streams := seq(|states|, j requires 0 <= j < |states| => Stream(states[j]));
    forall j | 0 <= j < |streams| - 1 ensures streams[j] <= streams[j + 1] {
      StepOfRun(c, states, steps, j);
      StreamGrows(c, states[j], steps[j]);
    }
    EarlierIsPrefix(streams, i, k);
  }
}
