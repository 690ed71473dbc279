/** The runner as a transition system: the scheduler goroutine, the workers,
    Run itself, the canceller and the consumer of Results(), in any
    interleaving. Every step is one channel operation, one atomic access or one
    private action of one goroutine. When an entry comes due is left open: the
    scheduler may judge any entry at any time. */
module Pool {
  import opened LapViews

  /** What `New` fixes: entries, pool size, capacity of Results(), whether the
      shutdown wait is bounded, and whether the event config was accepted. */
  datatype Config = Config(targets: nat, workers: nat, capacity: nat, bounded: bool, encoderOk: bool)

  /** `New`'s sizing: at least one worker, and no more workers than targets. */
  function Sized(targets: nat, concurrency: int, bounded: bool, encoderOk: bool): (c: Config)
    ensures c.workers > 0 && (c.workers <= targets || targets == 0)
    ensures c.workers == concurrency || (concurrency < 1 && c.workers == 1) || (concurrency > targets > 0 && c.workers == targets)
    ensures c.targets == targets && c.capacity == 2 * targets + 1
    ensures c.bounded == bounded && c.encoderOk == encoderOk
  {
    var atLeastOne := if concurrency < 1 then 1 else concurrency;
    var workers := if atLeastOne > targets && targets > 0 then targets else atLeastOne;
    Config(targets, workers, 2 * targets + 1, bounded, encoderOk)
  }

  datatype What = Ran(ok: bool) | Missed(kind: SkipKind)

  datatype Result = Result(entry: nat, what: What)

  /** A worker's progress with an entry: dequeued, seen the context alive,
      marked started, about to report, losing its result to a full channel, and
      about to ack. */
  datatype Stage = Held | Cleared | Running | Reporting(r: Result) | Losing(r: Result) | Acking

  datatype Worker = Receiving | Busy(e: nat, stage: Stage) | Exited

  datatype Control =
    | NotStarted | Parked | Draining | Judging | Armed
    | Dispatching(e: nat) | Classifying(e: nat) | SkipReporting(r: Result) | SkipLosing(r: Result) | Advancing(e: nat)
    | Stopped

  datatype Exit = Clean | TimedOut | BadConfig

  datatype Life = Fresh | Serving | Waiting | Returned(how: Exit)

  /** `inflight` and `started` are the entry's own fields. The rest is history:
      slots processed, skips, dispatches, runs that reached their report,
      dispatches discarded at shutdown, and the number of the last dispatch
      whose worker marked it started. */
  datatype Entry = Entry(
    inflight: bool, started: bool,
    slots: nat, skips: nat, dispatches: nat, runs: nat, discarded: nat, startedFor: nat)

  /** `received` and `lost` record the results that reached the consumer or a
      full channel; `acked` is what was on `done` when the current drain began
      and `drained` how many acks it has taken. These four are history. */
  datatype State = State(
    life: Life, control: Control, entries: seq<Entry>,
    work: seq<nat>, done: seq<nat>, workers: seq<Worker>,
    results: seq<Result>, closes: nat, cancelled: bool, finished: bool,
    skipped: nat, dropped: nat,
    received: seq<Result>, lost: seq<Result>, acked: set<nat>, drained: nat)

  const IDLE := Entry(false, false, 0, 0, 0, 0, 0, 0)

  function Init(c: Config): State {
    State(Fresh, NotStarted, seq(c.targets, _ => IDLE), [], [], [], [], 0, false, false, 0, 0, [], [], {}, 0)
  }

  datatype SchedulerStep =
    | DrainOne | DrainEnd | Reanchor | Arm | TimerWake | AckWake | QuitArmed | QuitParked
    | PickIdle(e: nat) | Enqueue | QuitDispatch
    | PickBusy(e: nat) | Classify | SendSkip | SkipFindsFull | CountSkipDrop | Advance

  datatype WorkerStep =
    | Take | SeeAlive | SeeCancelled | MarkStarted | Publish | FinishRun(ok: bool)
    | Send | FindFull | CountDrop | Ack | Exit

  datatype RunStep =
    | Start | RefuseConfig | RunAgain | CloseWork | NoticeFinished | CloseResults | GraceExpires
    | Cancel | Receive

  datatype Step = Schedule(s: SchedulerStep) | Work(w: nat, t: WorkerStep) | Run(r: RunStep)

  predicate AllExited(c: Config, s: State) {
    |s.workers| == c.workers && forall w :: 0 <= w < |s.workers| ==> s.workers[w].Exited?
  }

  predicate WorkClosed(s: State) { s.life.Waiting? || s.life.Returned? }

  // ----------------------------------------------------------- the scheduler

  predicate SchedulerEnabled(c: Config, s: State, step: SchedulerStep) {
    match step
    case DrainOne => s.control.Draining? && s.done != [] && s.done[0] < |s.entries|
    case DrainEnd => s.control.Draining? && s.done == []
    case Reanchor => s.control.Judging?
    case Arm => s.control.Judging?
    case TimerWake => s.control.Armed?
    case AckWake => s.control.Armed? && s.done != [] && s.done[0] < |s.entries|
    case QuitArmed => s.control.Armed? && s.cancelled
    case QuitParked => s.control.Parked? && s.cancelled
    case PickIdle(e) => s.control.Judging? && e < |s.entries| && !s.entries[e].inflight
    case Enqueue => s.control.Dispatching? && s.control.e < |s.entries| && |s.work| < c.targets
    case QuitDispatch => s.control.Dispatching? && s.cancelled
    case PickBusy(e) => s.control.Judging? && e < |s.entries| && s.entries[e].inflight
    case Classify => s.control.Classifying? && s.control.e < |s.entries|
    case SendSkip => s.control.SkipReporting? && |s.results| < c.capacity
    case SkipFindsFull => s.control.SkipReporting? && |s.results| >= c.capacity
    case CountSkipDrop => s.control.SkipLosing?
    case Advance => s.control.Advancing? && s.control.e < |s.entries|
  }

  /** `finish` on the ack at the head of `done`. */
  function TakeAck(s: State): State
    requires s.done != [] && s.done[0] < |s.entries|
  {
    s.(done := s.done[1..],
       entries := s.entries[s.done[0] := s.entries[s.done[0]].(inflight := false, started := false)])
  }

  /** The top of the loop: a drain begins. */
  function BeginDrain(s: State): State {
    s.(control := Draining, acked := (set e | e in s.done), drained := 0)
  }

  function SchedulerApply(c: Config, s: State, step: SchedulerStep): (t: State)
    requires SchedulerEnabled(c, s, step)
    ensures |t.entries| == |s.entries|
  {
    match step
    case DrainOne => TakeAck(s).(drained := s.drained + 1)
    case DrainEnd => s.(control := Judging)
    case Reanchor => BeginDrain(s)
    case Arm => s.(control := Armed)
    case TimerWake => BeginDrain(s)
    case AckWake => BeginDrain(TakeAck(s))
    case QuitArmed => s.(control := Stopped)
    case QuitParked => s.(control := Stopped)
    case PickIdle(e) => s.(control := Dispatching(e), entries := s.entries[e := s.entries[e].(inflight := true)])
    case Enqueue =>
      var e := s.control.e;
      s.(control := Advancing(e), work := s.work + [e],
         entries := s.entries[e := s.entries[e].(dispatches := s.entries[e].dispatches + 1)])
    case QuitDispatch => s.(control := Stopped)
    case PickBusy(e) =>
      s.(control := Classifying(e), skipped := s.skipped + 1,
         entries := s.entries[e := s.entries[e].(skips := s.entries[e].skips + 1)])
    case Classify =>
      var e := s.control.e;
      s.(control := SkipReporting(Result(e, Missed(if s.entries[e].started then PriorRunStarted else PriorRunQueued))))
    case SendSkip => s.(control := Advancing(s.control.r.entry), results := s.results + [s.control.r])
    case SkipFindsFull => s.(control := SkipLosing(s.control.r), lost := s.lost + [s.control.r])
    case CountSkipDrop => s.(control := Advancing(s.control.r.entry), dropped := s.dropped + 1)
    case Advance =>
      var e := s.control.e;
      BeginDrain(s.(entries := s.entries[e := s.entries[e].(slots := s.entries[e].slots + 1)]))
  }

  // ------------------------------------------------------------- the workers

  /** Worker `w` has an entry in hand. */
  predicate InHand(s: State, w: nat) {
    w < |s.workers| && s.workers[w].Busy? && s.workers[w].e < |s.entries|
  }

  predicate WorkerEnabled(c: Config, s: State, w: nat, step: WorkerStep) {
    match step
    case Take => w < |s.workers| && s.workers[w].Receiving? && s.work != []
    case Exit => w < |s.workers| && s.workers[w].Receiving? && s.work == [] && WorkClosed(s)
    case SeeAlive => InHand(s, w) && s.workers[w].stage.Held? && !s.cancelled
    case SeeCancelled => InHand(s, w) && s.workers[w].stage.Held? && s.cancelled
    case MarkStarted => InHand(s, w) && s.workers[w].stage.Cleared?
    case Publish => InHand(s, w) && s.workers[w].stage.Running?
    case FinishRun(_) => InHand(s, w) && s.workers[w].stage.Running?
    case Send => InHand(s, w) && s.workers[w].stage.Reporting? && |s.results| < c.capacity
    case FindFull => InHand(s, w) && s.workers[w].stage.Reporting? && |s.results| >= c.capacity
    case CountDrop => InHand(s, w) && s.workers[w].stage.Losing?
    case Ack => InHand(s, w) && s.workers[w].stage.Acking? && |s.done| < c.targets
  }

  function Put(s: State, w: nat, x: Worker): State
    requires w < |s.workers|
  {
    s.(workers := s.workers[w := x])
  }

  function WorkerApply(c: Config, s: State, w: nat, step: WorkerStep): (t: State)
    requires WorkerEnabled(c, s, w, step)
    ensures |t.entries| == |s.entries|
  {
    match step
    case Take =>
      Put(s, w, Busy(s.work[0], Held)).(work := s.work[1..])
    case Exit => Put(s, w, Exited)
    case SeeAlive => Put(s, w, Busy(s.workers[w].e, Cleared))
    case SeeCancelled =>
      var e := s.workers[w].e;
      Put(s, w, Busy(e, Acking)).(entries := s.entries[e := s.entries[e].(discarded := s.entries[e].discarded + 1)])
    case MarkStarted =>
      var e := s.workers[w].e;
      Put(s, w, Busy(e, Running)).(
        entries := s.entries[e := s.entries[e].(started := true, startedFor := s.entries[e].dispatches)])
    case Publish => s
    case FinishRun(ok) =>
      var e := s.workers[w].e;
      Put(s, w, Busy(e, Reporting(Result(e, Ran(ok))))).(
        entries := s.entries[e := s.entries[e].(runs := s.entries[e].runs + 1)])
    case Send => Put(s, w, Busy(s.workers[w].e, Acking)).(results := s.results + [s.workers[w].stage.r])
    case FindFull => Put(s, w, Busy(s.workers[w].e, Losing(s.workers[w].stage.r))).(lost := s.lost + [s.workers[w].stage.r])
    case CountDrop => Put(s, w, Busy(s.workers[w].e, Acking)).(dropped := s.dropped + 1)
    case Ack => Put(s, w, Receiving).(done := s.done + [s.workers[w].e])
  }

  // ------------------------------------- Run, the canceller and the consumer

  predicate RunEnabled(c: Config, s: State, step: RunStep) {
    match step
    case Start => s.life.Fresh? && c.encoderOk
    case RefuseConfig => s.life.Fresh? && !c.encoderOk
    case RunAgain => !s.life.Fresh?
    case CloseWork => s.life.Serving? && s.control.Stopped?
    case NoticeFinished => c.bounded && s.life.Waiting? && AllExited(c, s) && !s.finished
    case CloseResults => s.life.Waiting? && (if c.bounded then s.finished else AllExited(c, s))
    case GraceExpires => c.bounded && s.life.Waiting?
    case Cancel => true
    case Receive => s.results != []
  }

  function RunApply(c: Config, s: State, step: RunStep): (t: State)
    requires RunEnabled(c, s, step)
    ensures |t.entries| == |s.entries|
  {
    match step
    case Start =>
      var t := s.(life := Serving, workers := seq(c.workers, _ => Receiving));
      if c.targets == 0 then t.(control := Parked) else BeginDrain(t)
    case RefuseConfig => s.(life := Returned(BadConfig), closes := s.closes + 1)
    case RunAgain => s
    case CloseWork => s.(life := Waiting)
    case NoticeFinished => s.(finished := true)
    case CloseResults => s.(life := Returned(Clean), closes := s.closes + 1)
    case GraceExpires => s.(life := Returned(TimedOut))
    case Cancel => s.(cancelled := true)
    case Receive => s.(results := s.results[1..], received := s.received + [s.results[0]])
  }

  // -------------------------------------------------------------------- runs

  predicate Enabled(c: Config, s: State, step: Step) {
    match step
    case Schedule(t) => SchedulerEnabled(c, s, t)
    case Work(w, t) => WorkerEnabled(c, s, w, t)
    case Run(t) => RunEnabled(c, s, t)
  }

  function Apply(c: Config, s: State, step: Step): (t: State)
    requires Enabled(c, s, step)
    ensures |t.entries| == |s.entries|
  {
    match step
    case Schedule(t) => SchedulerApply(c, s, t)
    case Work(w, t) => WorkerApply(c, s, w, t)
    case Run(t) => RunApply(c, s, t)
  }

  /** A run: any sequence of enabled steps from the initial state. */
  ghost predicate IsRun(c: Config, states: seq<State>, steps: seq<Step>) {
    && |states| == |steps| + 1
    && states[0] == Init(c)
    && forall k :: 0 <= k < |steps| ==> Enabled(c, states[k], steps[k]) && states[k + 1] == Apply(c, states[k], steps[k])
  }
}
