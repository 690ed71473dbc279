/** The runner and the collector together: the workers run checks that the
    collector decorates. No target overlaps itself, so with a label of its own for
    every target no two calls for a label overlap either, and everything exported
    is the fold of the runs. The command refuses any other configuration. */
module RunnerMetrics {
  import Pool
  import PoolPlacement
  import PoolRuns
  import opened Metrics
  import opened Recorders
  import opened RecorderRuns
  import opened RecorderGauges

  /** The runner's configuration, the collector's, and the targets' URLs. */
  datatype Setup = Setup(pool: Pool.Config, rec: Config, urls: seq<string>) {
    /** `checkLabelCollisions` passes. */
    ghost predicate Valid() {
      && |urls| == pool.targets && GoodClasses(rec.classes) && rec.perTarget
      && forall i, j :: 0 <= i < j < |urls| ==> rec.labelOf(urls[i]) != rec.labelOf(urls[j])
    }
  }

  /** `current` says which call a worker is in, or has made for its present run. */
  datatype Joint = Joint(pool: Pool.State, rec: State, current: map<nat, nat>)

  /** A step of the runner; the decorated check of a running worker coming to its
      result and calling `record`; and a step of such a call. */
  datatype JointStep = Runner(t: Pool.Step) | Call(w: nat, run: Run) | Record(r: Step)

  predicate IsRunning(s: Joint, w: nat) {
    w < |s.pool.workers| && s.pool.workers[w].Busy? && s.pool.workers[w].stage.Running?
  }

  predicate Finishes(step: Pool.Step) { step.Work? && step.t.FinishRun? }

  /** A run is not over before its call of `record` is. */
  predicate JointEnabled(u: Setup, s: Joint, step: JointStep) {
    match step
    case Runner(t) =>
      && Pool.Enabled(u.pool, s.pool, t)
      && (Finishes(t) && t.w in s.current && s.current[t.w] < |s.rec.jobs| ==> s.rec.jobs[s.current[t.w]].todo == [])
    case Call(w, _) => IsRunning(s, w) && s.pool.workers[w].e < |u.urls| && w !in s.current
    case Record(t) => !t.Begin? && Enabled(u.rec, s.rec, t)
  }

  function JointApply(u: Setup, s: Joint, step: JointStep): Joint
    requires JointEnabled(u, s, step)
  {
    match step
    case Runner(t) =>
      Joint(Pool.Apply(u.pool, s.pool, t), s.rec, if Finishes(t) then s.current - {t.w} else s.current)
    case Call(w, run) =>
      s.(rec := Apply(u.rec, s.rec, Begin(u.urls[s.pool.workers[w].e], run)), current := s.current[w := |s.rec.jobs|])
    case Record(t) => s.(rec := Apply(u.rec, s.rec, t))
  }

  ghost predicate IsJointRun(u: Setup, states: seq<Joint>, steps: seq<JointStep>) {
    && u.Valid() && |states| == |steps| + 1
    && states[0] == Joint(Pool.Init(u.pool), Init(u.rec), map[])
    && forall k :: 0 <= k < |steps| ==> JointEnabled(u, states[k], steps[k]) && states[k + 1] == JointApply(u, states[k], steps[k])
  }

  // ----------------------------------------------------- calls belong to runs

  /** A worker's call is for the target it is running. */
  ghost predicate CurrentRight(u: Setup, s: Joint) {
    forall w :: w in s.current ==>
      && IsRunning(s, w) && s.pool.workers[w].e < |u.urls|
      && s.current[w] < |s.rec.jobs| && s.rec.jobs[s.current[w]].url == u.urls[s.pool.workers[w].e]
  }

  ghost predicate InProgress(s: Joint, j: nat) {
    exists w :: w in s.current && s.current[w] == j
  }

  ghost predicate UnfinishedInProgress(s: Joint) {
    forall j :: 0 <= j < |s.rec.jobs| && s.rec.jobs[j].todo != [] ==> InProgress(s, j)
  }

  ghost predicate Matched(u: Setup, s: Joint) {
    CurrentRight(u, s) && UnfinishedInProgress(s)
  }

  lemma SchedulerLeavesWorkers(c: Pool.Config, s: Pool.State, step: Pool.SchedulerStep)
    requires Pool.SchedulerEnabled(c, s, step)
    ensures Pool.SchedulerApply(c, s, step).workers == s.workers
  {
  }

  lemma WorkersLeaveRunningOnes(c: Pool.Config, s: Pool.State, v: nat, step: Pool.WorkerStep, w: nat)
    requires Pool.WorkerEnabled(c, s, v, step)
    requires w < |s.workers| && s.workers[w].Busy? && s.workers[w].stage.Running? && !(step.FinishRun? && v == w)
    ensures w < |Pool.WorkerApply(c, s, v, step).workers| && Pool.WorkerApply(c, s, v, step).workers[w] == s.workers[w]
  {
  }

  lemma RunLeavesWorkers(c: Pool.Config, s: Pool.State, step: Pool.RunStep)
    requires Pool.RunEnabled(c, s, step) && !step.Start?
    ensures Pool.RunApply(c, s, step).workers == s.workers
  {
  }

  /** Only its own FinishRun ends a worker's run. */
  lemma RunningGoesOn(c: Pool.Config, s: Pool.State, step: Pool.Step, w: nat)
    requires Pool.Enabled(c, s, step) && (s.life.Fresh? ==> s.workers == [])
    requires w < |s.workers| && s.workers[w].Busy? && s.workers[w].stage.Running?
    requires !(Finishes(step) && step.w == w)
    ensures w < |Pool.Apply(c, s, step).workers| && Pool.Apply(c, s, step).workers[w] == s.workers[w]
  {
    match step
    case Schedule(t) => SchedulerLeavesWorkers(c, s, t);
    case Work(v, t) => WorkersLeaveRunningOnes(c, s, v, t, w);
    case Run(t) => RunLeavesWorkers(c, s, t);
  }

  lemma RunnerKeepsMatched(u: Setup, s: Joint, t: Pool.Step)
    requires Matched(u, s) && JointEnabled(u, s, Runner(t)) && (s.pool.life.Fresh? ==> s.pool.workers == [])
    ensures Matched(u, JointApply(u, s, Runner(t)))
  {
    var r := JointApply(u, s, Runner(t));
    forall w | w in r.current
      ensures w < |r.pool.workers| && w < |s.pool.workers| && r.pool.workers[w] == s.pool.workers[w]
    {
      assert IsRunning(s, w);
      RunningGoesOn(u.pool, s.pool, t, w);
    }
    forall j | 0 <= j < |r.rec.jobs| && r.rec.jobs[j].todo != [] ensures InProgress(r, j) {
      assert InProgress(s, j);
      var w :| w in s.current && s.current[w] == j;
      assert w in r.current;
    }
  }

  lemma CallKeepsMatched(u: Setup, s: Joint, w: nat, run: Run)
    requires Matched(u, s) && JointEnabled(u, s, Call(w, run))
    ensures Matched(u, JointApply(u, s, Call(w, run)))
  {
    var r := JointApply(u, s, Call(w, run));
    forall j | 0 <= j < |r.rec.jobs| && r.rec.jobs[j].todo != [] ensures InProgress(r, j) {
      if j == |s.rec.jobs| {
        assert w in r.current && r.current[w] == j;
      } else {
        assert InProgress(s, j);
        var v :| v in s.current && s.current[v] == j;
        assert v in r.current && r.current[v] == j;
      }
    }
  }

  /** A call's own step starts no call and takes nothing up again. */
  lemma CallsOnlyProgress(c: Config, s: State, t: Step)
    requires !t.Begin? && Enabled(c, s, t)
    ensures SameCalls(s, Apply(c, s, t)) && |Apply(c, s, t).jobs| == |s.jobs|
    ensures forall j :: 0 <= j < |s.jobs| && s.jobs[j].todo == [] ==> Apply(c, s, t).jobs[j].todo == []
  {
    CallsStay(c, s, t);
    if !t.DoWrite? {
      OtherStepsKeepTodo(c, s, t);
    }
  }

  lemma RecordKeepsMatched(u: Setup, s: Joint, t: Step)
    requires Matched(u, s) && JointEnabled(u, s, Record(t))
    ensures Matched(u, JointApply(u, s, Record(t)))
  {
    var r := JointApply(u, s, Record(t));
    CallsOnlyProgress(u.rec, s.rec, t);
    forall j | 0 <= j < |r.rec.jobs| && r.rec.jobs[j].todo != [] ensures InProgress(r, j) {
      assert InProgress(s, j);
    }
  }

  lemma StepKeepsMatched(u: Setup, s: Joint, step: JointStep)
    requires Matched(u, s) && JointEnabled(u, s, step) && (s.pool.life.Fresh? ==> s.pool.workers == [])
    ensures Matched(u, JointApply(u, s, step))
  {
    match step
    case Runner(t) => RunnerKeepsMatched(u, s, t);
    case Call(w, run) => CallKeepsMatched(u, s, w, run);
    case Record(t) => RecordKeepsMatched(u, s, t);
  }

  /** Workers in calls for one label are one worker: they hold one target. */
  lemma OneWorkerPerLabel(u: Setup, s: Joint, v: nat, w: nat)
    requires u.Valid() && CurrentRight(u, s) && PoolPlacement.OnePlace(s.pool) && v in s.current && w in s.current
    requires u.rec.labelOf(s.rec.jobs[s.current[v]].url) == u.rec.labelOf(s.rec.jobs[s.current[w]].url)
    ensures v == w
  {
    var d, e := s.pool.workers[v].e, s.pool.workers[w].e;
    assert d < |u.urls| && e < |u.urls| && u.rec.labelOf(u.urls[d]) == u.rec.labelOf(u.urls[e]);
    assert d == e;
  }

  /** At most one unfinished call for a label. */
  lemma AloneIfMatched(u: Setup, s: Joint, tag: string)
    requires u.Valid() && Matched(u, s) && PoolPlacement.OnePlace(s.pool)
    ensures Alone(u.rec, s.rec.jobs, tag)
  {
    forall i, j | 0 <= i < j < |s.rec.jobs| && Of(u.rec, s.rec.jobs[i], tag) && Of(u.rec, s.rec.jobs[j], tag)
      ensures !Midway(s.rec.jobs[i]) || !Midway(s.rec.jobs[j])
    {
      if s.rec.jobs[i].todo != [] && s.rec.jobs[j].todo != [] {
        assert InProgress(s, i) && InProgress(s, j);
        var v :| v in s.current && s.current[v] == i;
        var w :| w in s.current && s.current[w] == j;
        OneWorkerPerLabel(u, s, v, w);
      }
    }
  }

  // -------------------------------------------------------- the exported values

  /** Everything that is kept in step, for one label. */
  ghost predicate InStep(u: Setup, s: Joint, tag: string) {
    && PoolRuns.Inv(u.pool, s.pool) && Matched(u, s)
    && Valued(u.rec, s.rec) && LoggedIfBegun(u.rec, s.rec) && InTurn(u.rec, s.rec, tag)
  }

  lemma InvGives(c: Pool.Config, s: Pool.State)
    requires PoolRuns.Inv(c, s)
    ensures PoolPlacement.OnePlace(s) && (s.life.Fresh? ==> s.workers == [])
  {
  }

  /** A step of the collector keeps the values in step. */
  lemma CollectorStepKeepsTurn(u: Setup, s: State, t: Step, tag: string)
    requires u.Valid() && Valued(u.rec, s) && LoggedIfBegun(u.rec, s) && InTurn(u.rec, s, tag) && Enabled(u.rec, s, t)
    requires Alone(u.rec, s.jobs, tag) && Alone(u.rec, Apply(u.rec, s, t).jobs, tag)
    ensures var r := Apply(u.rec, s, t);
      Valued(u.rec, r) && LoggedIfBegun(u.rec, r) && InTurn(u.rec, r, tag)
  {
    StepKeepsValued(u.rec, s, t);
    StepKeepsLogged(u.rec, s, t);
    StepKeepsTurn(u.rec, s, t, tag);
  }

  lemma StepKeepsInStep(u: Setup, s: Joint, step: JointStep, tag: string)
    requires u.Valid() && InStep(u, s, tag) && JointEnabled(u, s, step)
    ensures InStep(u, JointApply(u, s, step), tag)
  {
    var r := JointApply(u, s, step);
    InvGives(u.pool, s.pool);
    StepKeepsMatched(u, s, step);
    AloneIfMatched(u, s, tag);
    match step
    case Runner(t) => PoolRuns.StepKeepsInv(u.pool, s.pool, t);
    case Call(w, run) =>
      AloneIfMatched(u, r, tag);
      CollectorStepKeepsTurn(u, s.rec, Begin(u.urls[s.pool.workers[w].e], run), tag);
    case Record(t) =>
      AloneIfMatched(u, r, tag);
      CollectorStepKeepsTurn(u, s.rec, t, tag);
  }

  lemma StartIsInStep(u: Setup, tag: string)
    requires u.Valid()
    ensures InStep(u, Joint(Pool.Init(u.pool), Init(u.rec), map[]), tag)
  {
    PoolRuns.InvAlways(u.pool, [Pool.Init(u.pool)], [], 0);
    InTurnAlways(u.rec, [Init(u.rec)], [], 0, tag);
  }

  lemma {:induction false} InStepAlways(u: Setup, states: seq<Joint>, steps: seq<JointStep>, n: nat, tag: string)
    requires IsJointRun(u, states, steps) && n <= |steps|
    ensures InStep(u, states[n], tag)
  {
    if n == 0 {
      StartIsInStep(u, tag);
    } else {
      InStepAlways(u, states, steps, n - 1, tag);
      StepKeepsInStep(u, states[n - 1], steps[n - 1], tag);
    }
  }

  /** For a fleet in which no two targets share a label: at every state of every
      run of workers and collector in which no call for a label is amid its
      writes, everything exported for it, gauges included, is the fold of its
      target's runs, in order. */
  lemma ExportedIsTheFold(u: Setup, states: seq<Joint>, steps: seq<JointStep>, n: nat, tag: string)
    requires IsJointRun(u, states, steps) && n <= |steps|
    requires forall j :: 0 <= j < |states[n].rec.jobs| && Of(u.rec, states[n].rec.jobs[j], tag) ==> !Midway(states[n].rec.jobs[j])
    ensures CellsOwned(states[n].rec)
    ensures Scrape(Exported(states[n].rec), tag) == StatsOf(Wrote(states[n].rec.jobs, states[n].rec.log), u.rec.labelOf, tag)
  {
    InStepAlways(u, states, steps, n, tag);
    NothingRests(u.rec, states[n].rec.jobs, tag);
  }
}
