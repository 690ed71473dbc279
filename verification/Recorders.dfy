/** The collector under concurrency: any number of `record` calls at once, in any
    interleaving of their steps. A step is one map access under the collector's
    lock, one access of a vec or of the tls pointer, or one write of a child. */
module Recorders {
  import opened Metrics

  datatype Config = Config(labelOf: string -> string, classes: seq<string>, perTarget: bool)

  /** One write: to a child of the run's label, or to an error counter. */
  datatype Write = Put(m: Metric, v: real) | Add(m: Metric) | Count(errorClass: string)

  function KeyOf(w: Write, tag: string): Key {
    match w
    case Put(m, _) => Key(m, tag)
    case Add(m) => Key(m, tag)
    case Count(c) => Key(Errors, c)
  }

  function Effect(v: real, w: Write): real {
    if w.Put? then w.v else v + 1.0
  }

  /** The gauges an observation sets after the status. */
  function GaugePuts(o: Observation, now: real): seq<Write> {
    [Put(StatusCode, o.statusCode as real), Put(Latency, Seconds(o.latencyMs)),
     Put(LastRun, if o.observedAt.Some? then o.observedAt.value else now)]
    + if o.tlsExpiry.Some? then [Put(TlsExpiry, o.tlsExpiry.value)] else []
  }

  /** The writes of one run to its label's children, in program order. */
  function SeriesWrites(run: Run): seq<Write> {
    match run
    case Failed(now) => [Put(Up, 0.0), Put(StatusCode, 0.0), Put(LastRun, now)] + [Add(RunsDown)]
    case Observed(o, now) =>
      [Put(Up, if o.up then 1.0 else 0.0)] + [Add(if o.up then RunsUp else RunsDown)] + GaugePuts(o, now)
  }

  function Writes(c: Config, run: Run): seq<Write> {
    (match ClassOf(run, c.classes) case None => [] case Some(e) => [Count(e)])
    + if c.perTarget then SeriesWrites(run) else []
  }

  // -------------------------------------------------------------------- state

  /** A child and the labels it was made for. */
  datatype Cell = Cell(key: Key, value: real)

  /** One URL's cached handles: one child per basic metric, in the order of
      `BASIC`, and the tls child once somebody has swapped it in. */
  datatype Cached = Cached(tag: string, handles: seq<nat>, tls: Option<nat>)

  /** A caller's progress with the tls pointer before it can set the gauge. */
  datatype Tls = Unread | Missing | Made(child: nat) | Ready(child: nat)

  /** Before the cache lookup; resolving handles of its own; with handles, `ts`
      numbering the series it holds; and without per-target series. */
  datatype Phase = Looking | Resolving(handles: seq<nat>) | Holding(ts: nat, tls: Tls) | Bare

  /** `all` is history: the writes the run calls for, of which `todo` is left. */
  datatype Job = Job(url: string, run: Run, all: seq<Write>, phase: Phase, todo: seq<Write>)

  /** `log` is history: the writes so far, and whose they were. */
  datatype Logged = Logged(job: nat, key: Key, w: Write)

  datatype State = State(
    children: map<Key, nat>, cells: seq<Cell>, series: seq<Cached>, byURL: map<string, nat>,
    jobs: seq<Job>, log: seq<Logged>)

  datatype Step =
    | Begin(url: string, run: Run)
    | Lookup(j: nat) | Resolve(j: nat) | Install(j: nat)
    | LoadTls(j: nat) | MakeTls(j: nat) | SwapTls(j: nat) | DoWrite(j: nat)

  function Init(c: Config): State
    requires GoodClasses(c.classes)
  {
    State(map i: nat | i < |c.classes| :: Key(Errors, c.classes[i]) := i,
          seq(|c.classes|, i requires 0 <= i < |c.classes| => Cell(Key(Errors, c.classes[i]), 0.0)),
          [], map[], [], [])
  }

  /** Where a basic metric's handle is. */
  function Slot(m: Metric): nat {
    match m
    case Up => 0 case StatusCode => 1 case Latency => 2 case LastRun => 3 case RunsUp => 4 case RunsDown => 5
    case TlsExpiry => 6 case Errors => 7
  }

  /** The child that job `j` holds for its next write, if it holds one yet. */
  function Target(s: State, j: nat): Option<nat>
    requires j < |s.jobs| && s.jobs[j].todo != []
  {
    var x, w := s.jobs[j], s.jobs[j].todo[0];
    if w.Count? then
      if (x.phase.Bare? || x.phase.Holding?) && KeyOf(w, "") in s.children then Some(s.children[KeyOf(w, "")]) else None
    else if !x.phase.Holding? || x.phase.ts >= |s.series| then None
    else if w.m == TlsExpiry then
      if x.phase.tls.Ready? then Some(x.phase.tls.child) else None
    else
      var handles := s.series[x.phase.ts].handles;
      if Slot(w.m) < |handles| then Some(handles[Slot(w.m)]) else None
  }

  /** Job `j` is about to set the tls gauge and has got this far with it. */
  predicate AtTls(s: State, j: nat) {
    && j < |s.jobs| && s.jobs[j].phase.Holding? && s.jobs[j].phase.ts < |s.series|
    && s.jobs[j].todo != [] && s.jobs[j].todo[0].Put? && s.jobs[j].todo[0].m == TlsExpiry
  }

  predicate CanResolve(s: State, j: nat) {
    j < |s.jobs| && s.jobs[j].phase.Resolving? && |s.jobs[j].phase.handles| < |BASIC|
  }

  predicate CanMakeTls(s: State, j: nat) { AtTls(s, j) && s.jobs[j].phase.tls.Missing? }

  predicate CanSwapTls(s: State, j: nat) { AtTls(s, j) && s.jobs[j].phase.tls.Made? }

  predicate CanWrite(s: State, j: nat) {
    j < |s.jobs| && s.jobs[j].todo != [] && Target(s, j).Some? && Target(s, j).value < |s.cells|
  }

  predicate Enabled(c: Config, s: State, step: Step) {
    match step
    case Begin(_, _) => true
    case Lookup(j) => j < |s.jobs| && s.jobs[j].phase.Looking?
    case Resolve(j) => CanResolve(s, j)
    case Install(j) => j < |s.jobs| && s.jobs[j].phase.Resolving? && |s.jobs[j].phase.handles| == |BASIC|
    case LoadTls(j) => AtTls(s, j) && s.jobs[j].phase.tls.Unread?
    case MakeTls(j) => CanMakeTls(s, j)
    case SwapTls(j) => CanSwapTls(s, j)
    case DoWrite(j) => CanWrite(s, j)
  }

  function InPhase(s: State, j: nat, p: Phase): State
    requires j < |s.jobs|
  {
    s.(jobs := s.jobs[j := s.jobs[j].(phase := p)])
  }

  /** The vec's child for a key, made on first use. */
  function WithChild(s: State, k: Key): (t: State)
    ensures k in t.children
  {
    if k in s.children then s
    else s.(children := s.children[k := |s.cells|], cells := s.cells + [Cell(k, 0.0)])
  }

  function Resolved(c: Config, s: State, j: nat): State
    requires CanResolve(s, j)
  {
    var handles := s.jobs[j].phase.handles;
    var k := Key(BASIC[|handles|], c.labelOf(s.jobs[j].url));
    InPhase(WithChild(s, k), j, Resolving(handles + [WithChild(s, k).children[k]]))
  }

  function TlsMade(s: State, j: nat): State
    requires CanMakeTls(s, j)
  {
    var ts := s.jobs[j].phase.ts;
    var k := Key(TlsExpiry, s.series[ts].tag);
    InPhase(WithChild(s, k), j, Holding(ts, Made(WithChild(s, k).children[k])))
  }

  /** The pointer is set only if nobody has set it; the caller uses the child it
      made either way. */
  function TlsSwapped(s: State, j: nat): State
    requires CanSwapTls(s, j)
  {
    var ts, g := s.jobs[j].phase.ts, s.jobs[j].phase.tls.child;
    var t := if s.series[ts].tls.None? then s.(series := s.series[ts := s.series[ts].(tls := Some(g))]) else s;
    InPhase(t, j, Holding(ts, Ready(g)))
  }

  /** The next write of job `j`, to the child it holds. */
  function Written(s: State, j: nat): State
    requires CanWrite(s, j)
  {
    var x, i := s.jobs[j], Target(s, j).value;
    s.(cells := s.cells[i := s.cells[i].(value := Effect(s.cells[i].value, x.todo[0]))],
       jobs := s.jobs[j := x.(todo := x.todo[1..])],
       log := s.log + [Logged(j, s.cells[i].key, x.todo[0])])
  }

  function Apply(c: Config, s: State, step: Step): State
    requires Enabled(c, s, step)
  {
    match step
    case Begin(url, run) =>
      s.(jobs := s.jobs + [Job(url, run, Writes(c, run), if c.perTarget then Looking else Bare, Writes(c, run))])
    case Lookup(j) =>
      InPhase(s, j, if s.jobs[j].url in s.byURL then Holding(s.byURL[s.jobs[j].url], Unread) else Resolving([]))
    case Resolve(j) => Resolved(c, s, j)
    case Install(j) =>
      var url := s.jobs[j].url;
      if url in s.byURL then InPhase(s, j, Holding(s.byURL[url], Unread))
      else
        InPhase(s.(byURL := s.byURL[url := |s.series|],
                   series := s.series + [Cached(c.labelOf(url), s.jobs[j].phase.handles, None)]),
                j, Holding(|s.series|, Unread))
    case LoadTls(j) =>
      var ts := s.jobs[j].phase.ts;
      InPhase(s, j, Holding(ts, if s.series[ts].tls.Some? then Ready(s.series[ts].tls.value) else Missing))
    case MakeTls(j) => TlsMade(s, j)
    case SwapTls(j) => TlsSwapped(s, j)
    case DoWrite(j) => Written(s, j)
  }

  ghost predicate IsRun(c: Config, states: seq<State>, steps: seq<Step>) {
    && GoodClasses(c.classes)
    && |states| == |steps| + 1
    && states[0] == Init(c)
    && forall k :: 0 <= k < |steps| ==> Enabled(c, states[k], steps[k]) && states[k + 1] == Apply(c, states[k], steps[k])
  }

  // ------------------------------------------------------------------- wiring

  /** `i` is the child of that key. */
  predicate HandleOf(s: State, i: nat, k: Key) {
    k in s.children && s.children[k] == i
  }

  ghost predicate CellsOwned(s: State) {
    forall k :: k in s.children ==> s.children[k] < |s.cells| && s.cells[s.children[k]].key == k
  }

  ghost predicate HandlesRight(s: State, handles: seq<nat>, tag: string) {
    && |handles| <= |BASIC|
    && forall i :: 0 <= i < |handles| ==> HandleOf(s, handles[i], Key(BASIC[i], tag))
  }

  ghost predicate CachedRight(s: State, x: Cached) {
    && HandlesRight(s, x.handles, x.tag) && |x.handles| == |BASIC|
    && (x.tls.Some? ==> HandleOf(s, x.tls.value, Key(TlsExpiry, x.tag)))
  }

  ghost predicate PhaseRight(c: Config, s: State, x: Job) {
    match x.phase
    case Looking => c.perTarget && x.todo == x.all
    case Resolving(handles) => c.perTarget && x.todo == x.all && HandlesRight(s, handles, c.labelOf(x.url))
    case Bare => !c.perTarget
    case Holding(ts, tls) =>
      && c.perTarget && ts < |s.series| && s.series[ts].tag == c.labelOf(x.url)
      && (tls.Made? || tls.Ready? ==> HandleOf(s, tls.child, Key(TlsExpiry, c.labelOf(x.url))))
  }

  /** What is left to do is the end of what the run calls for. */
  ghost predicate IsRest(todo: seq<Write>, all: seq<Write>) {
    |todo| <= |all| && todo == all[|all| - |todo|..]
  }

  ghost predicate JobRight(c: Config, s: State, x: Job) {
    PhaseRight(c, s, x) && IsRest(x.todo, x.all)
  }

  ghost predicate UrlsRight(c: Config, s: State) {
    forall url :: url in s.byURL ==> s.byURL[url] < |s.series| && s.series[s.byURL[url]].tag == c.labelOf(url)
  }

  ghost predicate CallsRight(c: Config, s: State) {
    forall j {:trigger Writes(c, s.jobs[j].run)} :: 0 <= j < |s.jobs| ==> s.jobs[j].all == Writes(c, s.jobs[j].run)
  }

  /** Whoever resolved them and whenever: every handle is the one child of its
      key. */
  ghost predicate Connected(c: Config, s: State) {
    && CellsOwned(s)
    && (forall e :: e in c.classes ==> Key(Errors, e) in s.children)
    && (forall i :: 0 <= i < |s.series| ==> CachedRight(s, s.series[i]))
    && UrlsRight(c, s) && CallsRight(c, s)
    && (forall j :: 0 <= j < |s.jobs| ==> JobRight(c, s, s.jobs[j]))
  }

  /** Children and series are added, never replaced; tls pointers are set once. */
  ghost predicate Grown(s: State, t: State) {
    && (forall k :: k in s.children ==> k in t.children && t.children[k] == s.children[k])
    && |s.series| <= |t.series|
    && (forall i :: 0 <= i < |s.series| ==> t.series[i].tag == s.series[i].tag && t.series[i].handles == s.series[i].handles)
  }

  lemma GrowthKeepsJobs(c: Config, s: State, t: State, x: Job)
    requires Grown(s, t) && JobRight(c, s, x)
    ensures JobRight(c, t, x)
  {
  }

  lemma GrowthKeepsCached(s: State, t: State, x: Cached)
    requires Grown(s, t) && CachedRight(s, x)
    ensures CachedRight(t, x)
  {
  }

  /** Every write of a run names a class of the closed set, a basic metric or the
      tls gauge. */
  predicate Known(c: Config, w: Write) {
    if w.Count? then w.errorClass in c.classes else w.m in BASIC || (w.m == TlsExpiry && w.Put?)
  }

  lemma WritesAreKnown(c: Config, run: Run)
    requires UNKNOWN in c.classes
    ensures forall i :: 0 <= i < |Writes(c, run)| ==> Known(c, Writes(c, run)[i])
  {
  }

  lemma RestIsKnown(c: Config, s: State, j: nat)
    requires GoodClasses(c.classes) && Connected(c, s) && j < |s.jobs| && s.jobs[j].todo != []
    ensures s.jobs[j].todo[0] in s.jobs[j].all && s.jobs[j].all == Writes(c, s.jobs[j].run)
    ensures Known(c, s.jobs[j].todo[0])
    ensures s.jobs[j].todo[0].Count? || c.perTarget
  {
    var x := s.jobs[j];
    assert JobRight(c, s, x);
    WritesAreKnown(c, x.run);
    assert x.todo[0] == x.all[|x.all| - |x.todo|];
  }

  lemma HeldHandle(c: Config, s: State, x: Job, w: Write)
    requires PhaseRight(c, s, x) && Known(c, w) && !w.Count? && w.m != TlsExpiry
    requires x.phase.Holding? && CachedRight(s, s.series[x.phase.ts])
    ensures Slot(w.m) < |s.series[x.phase.ts].handles|
    ensures HandleOf(s, s.series[x.phase.ts].handles[Slot(w.m)], Key(w.m, c.labelOf(x.url)))
  {
    assert BASIC[Slot(w.m)] == w.m;
  }

  /** The aliasing theorem: whatever the races, a write lands on the one child of
      the run's own label (or of its error class). */
  lemma WriteLandsOnItsLabel(c: Config, s: State, j: nat)
    requires GoodClasses(c.classes) && Connected(c, s) && CanWrite(s, j)
    ensures HandleOf(s, Target(s, j).value, KeyOf(s.jobs[j].todo[0], c.labelOf(s.jobs[j].url)))
  {
    RestIsKnown(c, s, j);
    assert JobRight(c, s, s.jobs[j]);
    var w := s.jobs[j].todo[0];
    if !w.Count? && w.m != TlsExpiry {
      HeldHandle(c, s, s.jobs[j], w);
    }
  }

  lemma HeldTarget(c: Config, s: State, x: Job, w: Write)
    requires CellsOwned(s) && PhaseRight(c, s, x) && Known(c, w) && !w.Count? && w.m != TlsExpiry
    requires x.phase.Holding? && CachedRight(s, s.series[x.phase.ts])
    ensures Slot(w.m) < |s.series[x.phase.ts].handles| && s.series[x.phase.ts].handles[Slot(w.m)] < |s.cells|
  {
    HeldHandle(c, s, x, w);
  }

  /** With its handles, and the tls child if that is next, a call can write. */
  lemma HolderCanWrite(c: Config, s: State, j: nat)
    requires GoodClasses(c.classes) && Connected(c, s) && j < |s.jobs| && s.jobs[j].todo != []
    requires s.jobs[j].phase.Bare? || (s.jobs[j].phase.Holding? && (AtTls(s, j) ==> s.jobs[j].phase.tls.Ready?))
    ensures CanWrite(s, j)
  {
    var x, w := s.jobs[j], s.jobs[j].todo[0];
    RestIsKnown(c, s, j);
    assert JobRight(c, s, x);
    if !w.Count? && w.m != TlsExpiry {
      HeldTarget(c, s, x, w);
    }
  }

  /** Nobody is stuck: a call with writes left has a step to take. */
  lemma EveryJobCanGoOn(c: Config, s: State, j: nat) returns (step: Step)
    requires GoodClasses(c.classes) && Connected(c, s) && j < |s.jobs| && s.jobs[j].todo != []
    ensures Enabled(c, s, step) && !step.Begin? && step.j == j
  {
    assert JobRight(c, s, s.jobs[j]);
    match s.jobs[j].phase
    case Looking => return Lookup(j);
    case Resolving(handles) => return if |handles| < |BASIC| then Resolve(j) else Install(j);
    case Bare =>
      HolderCanWrite(c, s, j);
      return DoWrite(j);
    case Holding(ts, tls) =>
      if AtTls(s, j) && !tls.Ready? {
        return match tls case Unread => LoadTls(j) case Missing => MakeTls(j) case Made(_) => SwapTls(j);
      }
      HolderCanWrite(c, s, j);
      return DoWrite(j);
  }

  // ------------------------------------------------------ every step keeps it

  lemma ChildGrows(s: State, k: Key)
    requires CellsOwned(s)
    ensures CellsOwned(WithChild(s, k)) && Grown(s, WithChild(s, k))
  {
  }

  /** `t` is `s` after a step of job `j`, as far as the wiring goes. */
  ghost predicate Moved(c: Config, s: State, t: State, j: nat) {
    && CellsOwned(t) && Grown(s, t)
    && j < |s.jobs| == |t.jobs| && (forall i :: 0 <= i < |s.jobs| && i != j ==> t.jobs[i] == s.jobs[i])
    && JobRight(c, t, t.jobs[j]) && t.jobs[j].run == s.jobs[j].run && t.jobs[j].all == s.jobs[j].all
    && (forall i :: |s.series| <= i < |t.series| ==> CachedRight(t, t.series[i]))
    && (forall i :: 0 <= i < |s.series| && t.series[i] != s.series[i] ==> CachedRight(t, t.series[i]))
    && UrlsRight(c, t)
  }

  lemma MovedStaysConnected(c: Config, s: State, t: State, j: nat)
    requires Connected(c, s) && Moved(c, s, t, j)
    ensures Connected(c, t)
  {
    forall i | 0 <= i < |t.series| ensures CachedRight(t, t.series[i]) {
      if i < |s.series| && t.series[i] == s.series[i] {
        GrowthKeepsCached(s, t, s.series[i]);
      }
    }
    forall i | 0 <= i < |t.jobs| ensures JobRight(c, t, t.jobs[i]) {
      if i != j {
        GrowthKeepsJobs(c, s, t, s.jobs[i]);
      }
    }
    forall i | 0 <= i < |t.jobs| ensures t.jobs[i].all == Writes(c, t.jobs[i].run) {
      assert s.jobs[i].all == Writes(c, s.jobs[i].run);
    }
  }

  lemma BeginKeepsConnected(c: Config, s: State, url: string, run: Run)
    requires Connected(c, s)
    ensures Connected(c, Apply(c, s, Begin(url, run)))
  {
    var t := Apply(c, s, Begin(url, run));
    forall i | 0 <= i < |t.series| ensures CachedRight(t, t.series[i]) {
      GrowthKeepsCached(s, t, s.series[i]);
    }
    forall i | 0 <= i < |t.jobs| ensures JobRight(c, t, t.jobs[i]) {
      if i < |s.jobs| {
        GrowthKeepsJobs(c, s, t, s.jobs[i]);
      }
    }
    forall i | 0 <= i < |t.jobs| ensures t.jobs[i].all == Writes(c, t.jobs[i].run) {
      assert i < |s.jobs| ==> s.jobs[i].all == Writes(c, s.jobs[i].run);
    }
  }

  /** A step that changes at most the children and one job. */
  ghost predicate MovesJob(s: State, t: State, j: nat) {
    && t.series == s.series && t.byURL == s.byURL
    && (forall k :: k in s.children ==> k in t.children && t.children[k] == s.children[k])
    && j < |s.jobs| == |t.jobs| && t.jobs == s.jobs[j := t.jobs[j]]
    && t.jobs[j].run == s.jobs[j].run && t.jobs[j].all == s.jobs[j].all
  }

  lemma MovingAJobMoves(c: Config, s: State, t: State, j: nat)
    requires UrlsRight(c, s) && CellsOwned(t) && MovesJob(s, t, j) && JobRight(c, t, t.jobs[j])
    ensures Moved(c, s, t, j)
  {
  }

  lemma LookupMoves(c: Config, s: State, j: nat)
    requires CellsOwned(s) && UrlsRight(c, s) && j < |s.jobs| && JobRight(c, s, s.jobs[j])
    requires Enabled(c, s, Lookup(j))
    ensures Moved(c, s, Apply(c, s, Lookup(j)), j)
  {
  }

  lemma ResolveMoves(c: Config, s: State, j: nat)
    requires CellsOwned(s) && UrlsRight(c, s) && j < |s.jobs| && JobRight(c, s, s.jobs[j])
    requires CanResolve(s, j)
    ensures Moved(c, s, Resolved(c, s, j), j)
  {
    var handles, tag := s.jobs[j].phase.handles, c.labelOf(s.jobs[j].url);
    var u := WithChild(s, Key(BASIC[|handles|], tag));
    ChildGrows(s, Key(BASIC[|handles|], tag));
    forall i | 0 <= i < |handles| ensures HandleOf(u, handles[i], Key(BASIC[i], tag)) {
      assert HandleOf(s, handles[i], Key(BASIC[i], tag));
    }
  }

  lemma FirstInstallMoves(c: Config, s: State, j: nat)
    requires CellsOwned(s) && UrlsRight(c, s) && j < |s.jobs| && JobRight(c, s, s.jobs[j])
    requires Enabled(c, s, Install(j)) && s.jobs[j].url !in s.byURL
    ensures Moved(c, s, Apply(c, s, Install(j)), j)
  {
    var x := s.jobs[j];
    InstallingMoves(c, s, Apply(c, s, Install(j)), j, Cached(c.labelOf(x.url), x.phase.handles, None));
  }

  lemma InstallingMoves(c: Config, s: State, t: State, j: nat, ts: Cached)
    requires CellsOwned(s) && UrlsRight(c, s) && j < |s.jobs| && JobRight(c, s, s.jobs[j]) && s.jobs[j].phase.Resolving?
    requires CachedRight(s, ts) && ts.tag == c.labelOf(s.jobs[j].url)
    requires t == s.(byURL := s.byURL[s.jobs[j].url := |s.series|], series := s.series + [ts],
                     jobs := s.jobs[j := s.jobs[j].(phase := Holding(|s.series|, Unread))])
    ensures Moved(c, s, t, j)
  {
    assert forall i :: 0 <= i < |s.series| ==> t.series[i] == s.series[i];
    GrowthKeepsCached(s, t, ts);
  }

  lemma LateInstallMoves(c: Config, s: State, j: nat)
    requires CellsOwned(s) && UrlsRight(c, s) && j < |s.jobs| && JobRight(c, s, s.jobs[j])
    requires Enabled(c, s, Install(j)) && s.jobs[j].url in s.byURL
    ensures Moved(c, s, Apply(c, s, Install(j)), j)
  {
  }

  lemma LoadTlsMoves(c: Config, s: State, j: nat)
    requires CellsOwned(s) && UrlsRight(c, s) && j < |s.jobs| && JobRight(c, s, s.jobs[j])
    requires Enabled(c, s, LoadTls(j))
    requires CachedRight(s, s.series[s.jobs[j].phase.ts])
    ensures Moved(c, s, Apply(c, s, LoadTls(j)), j)
  {
  }

  lemma MakeTlsMoves(c: Config, s: State, j: nat)
    requires CellsOwned(s) && UrlsRight(c, s) && j < |s.jobs| && JobRight(c, s, s.jobs[j])
    requires CanMakeTls(s, j)
    ensures Moved(c, s, TlsMade(s, j), j)
  {
    ChildGrows(s, Key(TlsExpiry, s.series[s.jobs[j].phase.ts].tag));
  }

  lemma SwapTlsMoves(c: Config, s: State, j: nat)
    requires CellsOwned(s) && UrlsRight(c, s) && j < |s.jobs| && JobRight(c, s, s.jobs[j])
    requires CanSwapTls(s, j)
    requires CachedRight(s, s.series[s.jobs[j].phase.ts])
    ensures Moved(c, s, TlsSwapped(s, j), j)
  {
  }

  lemma WrittenCellsOwned(s: State, j: nat)
    requires CellsOwned(s) && CanWrite(s, j)
    ensures CellsOwned(Written(s, j)) && MovesJob(s, Written(s, j), j)
  {
  }

  lemma WrittenJobRight(c: Config, s: State, t: State, x: Job, y: Job)
    requires JobRight(c, s, x) && x.todo != [] && !x.phase.Looking? && !x.phase.Resolving?
    requires t.children == s.children && t.series == s.series && y == x.(todo := x.todo[1..])
    ensures JobRight(c, t, y)
  {
    assert x.todo[1..] == x.all[|x.all| - |x.todo[1..]|..];
  }

  lemma DoWriteMoves(c: Config, s: State, j: nat)
    requires CellsOwned(s) && UrlsRight(c, s) && j < |s.jobs| && JobRight(c, s, s.jobs[j])
    requires CanWrite(s, j)
    ensures Moved(c, s, Written(s, j), j)
  {
    WrittenCellsOwned(s, j);
    WrittenJobRight(c, s, Written(s, j), s.jobs[j], Written(s, j).jobs[j]);
    MovingAJobMoves(c, s, Written(s, j), j);
  }

  lemma StepMoves(c: Config, s: State, step: Step)
    requires Connected(c, s) && Enabled(c, s, step) && !step.Begin?
    ensures Moved(c, s, Apply(c, s, step), step.j)
  {
    assert JobRight(c, s, s.jobs[step.j]);
    match step
    case Lookup(j) => LookupMoves(c, s, j);
    case Resolve(j) => ResolveMoves(c, s, j);
    case Install(j) => if s.jobs[j].url in s.byURL { LateInstallMoves(c, s, j); } else { FirstInstallMoves(c, s, j); }
    case LoadTls(j) => LoadTlsMoves(c, s, j);
    case MakeTls(j) => MakeTlsMoves(c, s, j);
    case SwapTls(j) => SwapTlsMoves(c, s, j);
    case DoWrite(j) => DoWriteMoves(c, s, j);
  }

  lemma StepKeepsConnected(c: Config, s: State, step: Step)
    requires Connected(c, s) && Enabled(c, s, step)
    ensures Connected(c, Apply(c, s, step))
  {
    if step.Begin? {
      BeginKeepsConnected(c, s, step.url, step.run);
    } else {
      StepMoves(c, s, step);
      MovedStaysConnected(c, s, Apply(c, s, step), step.j);
    }
  }

  lemma {:induction false} ConnectedAlways(c: Config, states: seq<State>, steps: seq<Step>, k: nat)
    requires IsRun(c, states, steps) && k <= |steps|
    ensures Connected(c, states[k])
  {
    if k > 0 {
      ConnectedAlways(c, states, steps, k - 1);
      StepKeepsConnected(c, states[k - 1], steps[k - 1]);
    }
  }
}
