/** Overlapping calls for one label: each gauge ends at the value of the call that
    set it last, and any call can be driven on by itself. */
module RecorderRaces {
  import opened Metrics
  import opened Recorders
  import opened RecorderRuns
  import opened RecorderGauges

  /** The value a run sets a gauge to, if it sets it. */
  function PutOf(run: Run, m: Metric): Option<real> {
    match m
    case Up => Some(if WasUp(run) then 1.0 else 0.0)
    case StatusCode => Some(if run.Observed? then run.obs.statusCode as real else 0.0)
    case Latency => if run.Observed? then Some(Seconds(run.obs.latencyMs)) else None
    case LastRun => Some(if run.Observed? && run.obs.observedAt.Some? then run.obs.observedAt.value else run.now)
    case TlsExpiry => ExpiryOf(run)
    case _ => None
  }

  lemma PutsOfARun(c: Config, run: Run, m: Metric, v: real)
    requires c.perTarget
    ensures Put(m, v) in Writes(c, run) <==> PutOf(run, m) == Some(v)
  {
    var all := SeriesWrites(run);
    match run
    case Failed(now) =>
      assert all == [Put(Up, 0.0), Put(StatusCode, 0.0), Put(LastRun, now), Add(RunsDown)];
    case Observed(o, now) =>
      assert Put(m, v) in all <==> Put(m, v) == Put(Up, if o.up then 1.0 else 0.0) || Put(m, v) in GaugePuts(o, now);
  }

  function Rank(m: Metric): nat {
    match m case Up => 0 case StatusCode => 1 case Latency => 2 case LastRun => 3 case _ => 4
  }

  /** Every run sets its gauges in the same order, each at most once. */
  lemma GaugesAreSetInOrder(c: Config, run: Run, i: nat, j: nat)
    requires i < j < |Writes(c, run)| && Writes(c, run)[i].Put? && Writes(c, run)[j].Put?
    ensures Rank(Writes(c, run)[i].m) < Rank(Writes(c, run)[j].m)
  {
    var first := match ClassOf(run, c.classes) case None => [] case Some(e) => [Count(e)];
    assert Writes(c, run)[i] == SeriesWrites(run)[i - |first|] && Writes(c, run)[j] == SeriesWrites(run)[j - |first|];
  }

  /** The gauges of a scrape; the tls one may be missing. */
  function GaugeOf(st: Stats, m: Metric): Option<real> {
    match m
    case Up => Some(st.up) case StatusCode => Some(st.statusCode) case Latency => Some(st.latency)
    case LastRun => Some(st.last) case TlsExpiry => st.tls case _ => None
  }

  // ----------------------------------------------------------- every write is made

  /** Job `j` has made the write. */
  ghost predicate Made(s: State, j: nat, w: Write) {
    exists i :: 0 <= i < |s.log| && s.log[i].job == j && s.log[i].w == w
  }

  ghost predicate MadeOrToDo(c: Config, s: State) {
    forall j, w :: 0 <= j < |s.jobs| && w in s.jobs[j].all ==> w in s.jobs[j].todo || Made(s, j, w)
  }

  /** A tls child is there only if a call of its label sets it. */
  ghost predicate TlsWanted(c: Config, s: State) {
    forall tag :: Key(TlsExpiry, tag) in s.children ==>
      exists j :: 0 <= j < |s.jobs| && Of(c, s.jobs[j], tag) && PutOf(s.jobs[j].run, TlsExpiry).Some?
  }

  lemma StepKeepsMade(c: Config, s: State, step: Step)
    requires GoodClasses(c.classes) && Connected(c, s) && Enabled(c, s, step) && MadeOrToDo(c, s)
    ensures MadeOrToDo(c, Apply(c, s, step))
  {
    var t := Apply(c, s, step);
    CallsStay(c, s, step);
    if step.DoWrite? {
      StepKeepsConnected(c, s, step);
      WriteMovesItsKey(c, s, step.j);
    } else if !step.Begin? {
      OtherStepsKeepTodo(c, s, step);
    }
    forall j, w | 0 <= j < |t.jobs| && w in t.jobs[j].all ensures w in t.jobs[j].todo || Made(t, j, w) {
      if j < |s.jobs| {
        if Made(s, j, w) {
          var i :| 0 <= i < |s.log| && s.log[i].job == j && s.log[i].w == w;
          assert t.log[i] == s.log[i];
        } else if step.DoWrite? && step.j == j && w == s.jobs[j].todo[0] {
          assert t.log[|s.log|].job == j;
        }
      }
    }
  }

  lemma StepKeepsTlsWanted(c: Config, s: State, step: Step)
    requires GoodClasses(c.classes) && Connected(c, s) && Enabled(c, s, step) && TlsWanted(c, s)
    ensures TlsWanted(c, Apply(c, s, step))
  {
    var t := Apply(c, s, step);
    CallsStay(c, s, step);
    forall tag | Key(TlsExpiry, tag) in t.children
      ensures exists j :: 0 <= j < |t.jobs| && Of(c, t.jobs[j], tag) && PutOf(t.jobs[j].run, TlsExpiry).Some?
    {
      if Key(TlsExpiry, tag) in s.children {
        var j :| 0 <= j < |s.jobs| && Of(c, s.jobs[j], tag) && PutOf(s.jobs[j].run, TlsExpiry).Some?;
        assert Of(c, t.jobs[j], tag);
      } else if step.MakeTls? {
        RestIsKnown(c, s, step.j);
        assert JobRight(c, s, s.jobs[step.j]);
        PutsOfARun(c, s.jobs[step.j].run, TlsExpiry, s.jobs[step.j].todo[0].v);
        assert Of(c, t.jobs[step.j], tag);
      } else {
        OtherStepsMakeNoTls(c, s, step, tag);
      }
    }
  }

  lemma {:induction false} MadeAlways(c: Config, states: seq<State>, steps: seq<Step>, n: nat)
    requires IsRun(c, states, steps) && n <= |steps|
    ensures MadeOrToDo(c, states[n]) && TlsWanted(c, states[n])
  {
    if n > 0 {
      MadeAlways(c, states, steps, n - 1);
      ConnectedAlways(c, states, steps, n - 1);
      StepOfRun(c, states, steps, n - 1);
      StepKeepsMade(c, states[n - 1], steps[n - 1]);
      StepKeepsTlsWanted(c, states[n - 1], steps[n - 1]);
    }
  }

  // ------------------------------------------------------- calls that are over

  /** The calls were these, all for one label, and they are over. */
  ghost predicate AllOver(c: Config, s: State, h: seq<Recorded>, tag: string) {
    && c.perTarget && (forall j :: 0 <= j < |h| ==> c.labelOf(h[j].url) == tag)
    && Begun(s.jobs) == h && IsOver(s)
    && Valued(c, s) && MadeOrToDo(c, s) && TlsWanted(c, s)
  }

  lemma TheJob(s: State, h: seq<Recorded>, j: nat)
    requires Begun(s.jobs) == h && (j < |s.jobs| || j < |h|)
    ensures j < |s.jobs| == |h| && Recorded(s.jobs[j].url, s.jobs[j].run) == h[j]
  {
    assert Begun(s.jobs)[j] == h[j];
  }

  /** What is exported for a label. */
  ghost function Gauge(s: State, tag: string, m: Metric): Option<real>
    requires CellsOwned(s)
  {
    GaugeOf(Scrape(Exported(s), tag), m)
  }

  lemma SomebodyWrote(c: Config, s: State, h: seq<Recorded>, tag: string, m: Metric, j: nat)
    requires AllOver(c, s, h, tag) && j < |h| && PutOf(h[j].run, m).Some?
    ensures LastOn(s.log, Key(m, tag)) >= 0
  {
    TheJob(s, h, j);
    var put := Put(m, PutOf(s.jobs[j].run, m).value);
    assert s.jobs[j].all == Writes(c, s.jobs[j].run);
    PutsOfARun(c, s.jobs[j].run, m, put.v);
    assert Made(s, j, put);
    var i :| 0 <= i < |s.log| && s.log[i].job == j && s.log[i].w == put;
    assert LoggedRight(c, s, s.log[i]);
  }

  /** A gauge holds the value of the run that wrote it last. */
  lemma LastWriterDecides(c: Config, s: State, h: seq<Recorded>, tag: string, m: Metric) returns (writer: nat)
    requires AllOver(c, s, h, tag) && IsGauge(m) && LastOn(s.log, Key(m, tag)) >= 0
    ensures writer == s.log[LastOn(s.log, Key(m, tag))].job < |h|
    ensures PutOf(h[writer].run, m).Some? && Gauge(s, tag, m) == PutOf(h[writer].run, m)
  {
    var k := Key(m, tag);
    var last := s.log[LastOn(s.log, k)];
    assert LoggedRight(c, s, last);
    writer := last.job;
    TheJob(s, h, writer);
    ValuesAreCompletedWrites(c, s, k);
    assert s.jobs[writer].all == Writes(c, s.jobs[writer].run);
    PutsOfARun(c, s.jobs[writer].run, m, last.w.v);
  }

  lemma NobodyWrote(c: Config, s: State, h: seq<Recorded>, tag: string, m: Metric)
    requires AllOver(c, s, h, tag) && IsGauge(m) && forall j :: 0 <= j < |h| ==> PutOf(h[j].run, m).None?
    ensures LastOn(s.log, Key(m, tag)) < 0
  {
    if LastOn(s.log, Key(m, tag)) >= 0 {
      var writer := LastWriterDecides(c, s, h, tag, m);
    }
  }

  lemma NobodyWantedTls(c: Config, s: State, h: seq<Recorded>, tag: string)
    requires TlsWanted(c, s) && Begun(s.jobs) == h && forall j :: 0 <= j < |h| ==> PutOf(h[j].run, TlsExpiry).None?
    ensures Key(TlsExpiry, tag) !in s.children
  {
    if Key(TlsExpiry, tag) in s.children {
      var j: nat :| j < |s.jobs| && Of(c, s.jobs[j], tag) && PutOf(s.jobs[j].run, TlsExpiry).Some?;
      TheJob(s, h, j);
    }
  }

  lemma UnwrittenGauge(c: Config, s: State, h: seq<Recorded>, tag: string, m: Metric)
    requires AllOver(c, s, h, tag) && IsGauge(m) && forall j :: 0 <= j < |h| ==> PutOf(h[j].run, m).None?
    ensures Gauge(s, tag, m) == GaugeOf(NO_STATS, m)
  {
    NobodyWrote(c, s, h, tag, m);
    if m == TlsExpiry {
      NobodyWantedTls(c, s, h, tag);
    } else {
      ValuesAreCompletedWrites(c, s, Key(m, tag));
    }
  }

  lemma GaugesAndCountersAreAll(x: Stats, y: Stats)
    requires x.runsUp == y.runsUp && x.runsDown == y.runsDown
    requires forall m :: IsGauge(m) ==> GaugeOf(x, m) == GaugeOf(y, m)
    ensures x == y
  {
    assert IsGauge(Up) && IsGauge(StatusCode) && IsGauge(Latency) && IsGauge(LastRun) && IsGauge(TlsExpiry);
    assert GaugeOf(x, Up) == GaugeOf(y, Up) && GaugeOf(x, StatusCode) == GaugeOf(y, StatusCode);
    assert GaugeOf(x, Latency) == GaugeOf(y, Latency) && GaugeOf(x, LastRun) == GaugeOf(y, LastRun);
    assert GaugeOf(x, TlsExpiry) == GaugeOf(y, TlsExpiry);
  }

  // ------------------------------------------------------- driving one call on

  datatype Trace = Trace(states: seq<State>, steps: seq<Step>)

  ghost predicate IsTrace(c: Config, tr: Trace) { IsRun(c, tr.states, tr.steps) }

  ghost function Last(c: Config, tr: Trace): State
    requires IsTrace(c, tr)
  {
    tr.states[|tr.steps|]
  }

  lemma Extend(c: Config, tr: Trace, step: Step) returns (longer: Trace)
    requires IsTrace(c, tr) && Enabled(c, Last(c, tr), step)
    ensures IsTrace(c, longer) && Last(c, longer) == Apply(c, Last(c, tr), step)
  {
    longer := Trace(tr.states + [Apply(c, Last(c, tr), step)], tr.steps + [step]);
  }

  function Left(p: Phase): nat {
    match p
    case Looking => 20
    case Resolving(handles) => if |handles| < 10 then 19 - |handles| else 9
    case Holding(_, tls) => (match tls case Unread => 3 case Missing => 2 case Made(_) => 1 case Ready(_) => 0)
    case Bare => 0
  }

  lemma PhaseAdvances(c: Config, s: State, step: Step)
    requires Enabled(c, s, step) && !step.Begin? && !step.DoWrite?
    ensures step.j < |s.jobs| == |Apply(c, s, step).jobs|
    ensures Left(Apply(c, s, step).jobs[step.j].phase) < Left(s.jobs[step.j].phase)
  {
  }

  function Logs(j: nat, tag: string, ws: seq<Write>): (log: seq<Logged>)
    ensures |log| == |ws|
  {
    seq(|ws|, i requires 0 <= i < |ws| => Logged(j, KeyOf(ws[i], tag), ws[i]))
  }

  /** From `s` to `t`, job `j` made its next `n` writes, and nobody else moved. */
  ghost predicate Drove(c: Config, s: State, t: State, j: nat, n: nat) {
    && j < |s.jobs| == |t.jobs| && n <= |s.jobs[j].todo|
    && t.jobs == s.jobs[j := s.jobs[j].(phase := t.jobs[j].phase, todo := s.jobs[j].todo[n..])]
    && t.log == s.log + Logs(j, c.labelOf(s.jobs[j].url), s.jobs[j].todo[..n])
  }

  /** Any call can be brought to its next write on its own. */
  lemma {:induction false} DriveToWrite(c: Config, tr: Trace, j: nat) returns (longer: Trace)
    requires IsTrace(c, tr) && j < |Last(c, tr).jobs| && Last(c, tr).jobs[j].todo != []
    ensures IsTrace(c, longer) && Drove(c, Last(c, tr), Last(c, longer), j, 0)
    ensures Enabled(c, Last(c, longer), DoWrite(j))
    decreases Left(Last(c, tr).jobs[j].phase)
  {
    var s := Last(c, tr);
    ConnectedAlways(c, tr.states, tr.steps, |tr.steps|);
    var step := EveryJobCanGoOn(c, s, j);
    if step.DoWrite? {
      longer := tr;
    } else {
      OtherStepsKeepTodo(c, s, step);
      PhaseAdvances(c, s, step);
      longer := Extend(c, tr, step);
      longer := DriveToWrite(c, longer, j);
    }
  }

  lemma DriveOne(c: Config, tr: Trace, j: nat) returns (longer: Trace)
    requires IsTrace(c, tr) && j < |Last(c, tr).jobs| && Last(c, tr).jobs[j].todo != []
    ensures IsTrace(c, longer) && Drove(c, Last(c, tr), Last(c, longer), j, 1)
  {
    var ready := DriveToWrite(c, tr, j);
    var s := Last(c, ready);
    ConnectedAlways(c, ready.states, ready.steps, |ready.steps|);
    WrittenStays(c, s, j);
    WriteMovesItsKey(c, s, j);
    longer := Extend(c, ready, DoWrite(j));
  }

  lemma DrivesAddUp(c: Config, s: State, t: State, u: State, j: nat, n: nat, k: nat)
    requires Drove(c, s, t, j, n) && Drove(c, t, u, j, k)
    ensures Drove(c, s, u, j, n + k)
  {
    var todo, tag := s.jobs[j].todo, c.labelOf(s.jobs[j].url);
    assert todo[n..][k..] == todo[n + k..];
    assert Logs(j, tag, todo[..n]) + Logs(j, tag, todo[n..][..k]) == Logs(j, tag, todo[..n + k]);
  }

  /** Any number of a call's writes can be made in a row. */
  lemma {:induction false} Drive(c: Config, tr: Trace, j: nat, n: nat) returns (longer: Trace)
    requires IsTrace(c, tr) && j < |Last(c, tr).jobs| && n <= |Last(c, tr).jobs[j].todo|
    ensures IsTrace(c, longer) && Drove(c, Last(c, tr), Last(c, longer), j, n)
    decreases n
  {
    if n == 0 {
      longer := tr;
    } else {
      var one := DriveOne(c, tr, j);
      longer := Drive(c, one, j, n - 1);
      DrivesAddUp(c, Last(c, tr), Last(c, one), Last(c, longer), j, 1, n - 1);
    }
  }
}
