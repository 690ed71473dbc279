/** The life of one Run: when `results` may be closed, who may still send or
    publish, and what a refused or repeated Run starts. */
module PoolShutdown {
  import opened Pool

  ghost predicate NothingStarted(s: State) {
    s.control.NotStarted? && s.workers == [] && s.work == [] && s.done == [] && s.results == []
  }

  ghost predicate Orderly(c: Config, s: State) {
    && (match s.life
        case Fresh => NothingStarted(s) && s.closes == 0
        case Serving => !s.control.NotStarted? && |s.workers| == c.workers && s.closes == 0
        case Waiting => s.control.Stopped? && |s.workers| == c.workers && s.closes == 0
        case Returned(Clean) => s.control.Stopped? && AllExited(c, s) && s.closes == 1
        case Returned(TimedOut) => s.control.Stopped? && |s.workers| == c.workers && s.closes == 0 && c.bounded
        case Returned(BadConfig) => NothingStarted(s) && s.closes == 1 && !c.encoderOk)
    && (s.finished ==> AllExited(c, s))
    && (forall w :: 0 <= w < |s.workers| && s.workers[w].Exited? ==> s.work == [] && WorkClosed(s))
    && (s.control.Stopped? ==> s.cancelled)
    && (s.control.Parked? ==> c.targets == 0)
    && (s.life.Fresh? || c.encoderOk || s.life == Returned(BadConfig))
  }

  lemma SchedulerKeepsOrder(c: Config, s: State, step: SchedulerStep)
    requires Orderly(c, s) && SchedulerEnabled(c, s, step)
    ensures Orderly(c, SchedulerApply(c, s, step))
  {
    var t := SchedulerApply(c, s, step);
    assert t.workers == s.workers && t.life == s.life && t.closes == s.closes && t.finished == s.finished;
    assert s.life.Serving?;
  }

  lemma WorkerKeepsOrder(c: Config, s: State, w: nat, step: WorkerStep)
    requires Orderly(c, s) && WorkerEnabled(c, s, w, step)
    ensures Orderly(c, WorkerApply(c, s, w, step))
  {
    assert !s.workers[w].Exited?;
    assert !AllExited(c, s);
  }

  lemma RunStepKeepsOrder(c: Config, s: State, step: RunStep)
    requires Orderly(c, s) && RunEnabled(c, s, step)
    ensures Orderly(c, RunApply(c, s, step))
  {
  }

  // ------------------------------------------------------------ consequences

  /** `results` is closed at most once, and by then nothing runs: no worker has
      an entry in hand and the scheduler has returned or never started. */
  lemma ClosedMeansEveryoneStopped(c: Config, s: State)
    requires Orderly(c, s) && s.closes > 0
    ensures s.closes == 1
    ensures forall w :: 0 <= w < |s.workers| ==> s.workers[w].Exited?
    ensures s.control.Stopped? || s.control.NotStarted?
  {
  }

  predicate TouchesResults(step: Step) {
    match step
    case Schedule(t) => t.SendSkip? || t.SkipFindsFull?
    case Work(_, t) => t.Send? || t.FindFull?
    case Run(t) => t.CloseResults? || t.RefuseConfig?
  }

  /** No send on `results`, and no second close, ever meets a closed channel;
      and no send meets a closed `work`. */
  lemma NobodyTouchesAClosedChannel(c: Config, s: State, step: Step)
    requires Orderly(c, s) && Enabled(c, s, step)
    ensures TouchesResults(step) ==> s.closes == 0
    ensures step == Schedule(Enqueue) ==> !WorkClosed(s)
  {
    if step.Work? {
      assert TouchesResults(step) ==> !s.workers[step.w].Exited?;
    }
  }

  /** Publishing after Run returned implies that Run returned
      ErrShutdownTimeout. */
  lemma PublishAfterReturnMeansTimeout(c: Config, s: State, w: nat)
    requires Orderly(c, s) && WorkerEnabled(c, s, w, Publish) && s.life.Returned?
    ensures s.life == Returned(TimedOut)
  {
    assert !s.workers[w].Exited?;
  }

  /** What stays put once Run has returned. */
  predicate SameReturn(s: State, t: State) {
    t.life == s.life && t.closes == s.closes && (s.workers == [] ==> t.workers == [])
  }

  lemma GoroutinesDoNotReturnRun(c: Config, s: State, step: Step)
    requires Enabled(c, s, step) && s.life.Returned? && !step.Run?
    ensures SameReturn(s, Apply(c, s, step))
  {
  }

  /** A Run that has returned stays returned the same way, whatever the
      stragglers, the consumer and further calls of Run do; so the timeout path
      never closes `results`, and a refused config never starts a worker. */
  lemma ReturnIsFinal(c: Config, s: State, step: Step)
    requires Orderly(c, s) && Enabled(c, s, step) && s.life.Returned?
    ensures Apply(c, s, step).life == s.life && Apply(c, s, step).closes == s.closes
    ensures step == Run(RunAgain) ==> Apply(c, s, step) == s
    ensures s.life == Returned(BadConfig) ==> Apply(c, s, step).workers == []
  {
    if !step.Run? {
      GoroutinesDoNotReturnRun(c, s, step);
    }
  }

  /** A second call of Run, at any time, is refused and changes nothing. */
  lemma SecondRunChangesNothing(c: Config, s: State)
    ensures RunEnabled(c, s, RunAgain) <==> !s.life.Fresh?
    ensures RunEnabled(c, s, RunAgain) ==> RunApply(c, s, RunAgain) == s && !RunEnabled(c, s, Start) && !RunEnabled(c, s, RefuseConfig)
  {
  }
}
