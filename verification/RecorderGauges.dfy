/** When the gauges, too, equal the fold of the runs: if the writes of no two calls
    for one label overlap. Their lookups may race, and calls for other labels may
    overlap them in any way. */
module RecorderGauges {
  import opened Metrics
  import opened Recorders
  import opened RecorderRuns

  /** What one write to its label does to a scrape of that label. */
  function Update(st: Stats, w: Write): Stats {
    match w
    case Count(_) => st
    case Add(m) =>
      if m.RunsUp? then st.(runsUp := st.runsUp + 1.0) else if m.RunsDown? then st.(runsDown := st.runsDown + 1.0) else st
    case Put(m, v) =>
      match m
      case Up => st.(up := v)
      case StatusCode => st.(statusCode := v)
      case Latency => st.(latency := v)
      case LastRun => st.(last := v)
      case TlsExpiry => st.(tls := Some(v))
      case _ => st
  }

  function UpdateAll(st: Stats, ws: seq<Write>): Stats
    decreases |ws|
  {
    if ws == [] then st else UpdateAll(Update(st, ws[0]), ws[1..])
  }

  lemma {:induction false} UpdateBoth(st: Stats, a: seq<Write>, b: seq<Write>)
    ensures UpdateAll(st, a + b) == UpdateAll(UpdateAll(st, a), b)
    decreases |a|
  {
    if a == [] {
      assert a + b == b;
    } else {
      assert (a + b)[1..] == a[1..] + b;
      UpdateBoth(Update(st, a[0]), a[1..], b);
    }
  }

  lemma UpdateOne(st: Stats, w: Write)
    ensures UpdateAll(st, [w]) == Update(st, w)
  {
  }

  lemma UpdateThree(st: Stats, u: Write, v: Write, w: Write)
    ensures UpdateAll(st, [u, v, w]) == Update(Update(Update(st, u), v), w)
  {
    UpdateBoth(st, [u] + [v], [w]);
    UpdateBoth(st, [u], [v]);
    UpdateOne(st, u);
    UpdateOne(Update(st, u), v);
    UpdateOne(Update(Update(st, u), v), w);
    assert [u] + [v] + [w] == [u, v, w];
  }

  lemma SeriesUpdates(st: Stats, run: Run)
    ensures UpdateAll(st, SeriesWrites(run)) == After(st, run)
  {
    match run
    case Failed(now) =>
      UpdateThree(st, Put(Up, 0.0), Put(StatusCode, 0.0), Put(LastRun, now));
      var puts := [Put(Up, 0.0), Put(StatusCode, 0.0), Put(LastRun, now)];
      UpdateBoth(st, puts, [Add(RunsDown)]);
      UpdateOne(UpdateAll(st, puts), Add(RunsDown));
    case Observed(o, now) =>
      var up, add := Put(Up, if o.up then 1.0 else 0.0), Add(if o.up then RunsUp else RunsDown);
      UpdateBoth(st, [up] + [add], GaugePuts(o, now));
      UpdateBoth(st, [up], [add]);
      UpdateOne(st, up);
      UpdateOne(Update(st, up), add);
      GaugeUpdates(Update(Update(st, up), add), o, now);
  }

  lemma GaugeUpdates(st: Stats, o: Observation, now: real)
    ensures UpdateAll(st, GaugePuts(o, now)) ==
      st.(statusCode := o.statusCode as real, latency := Seconds(o.latencyMs),
          last := if o.observedAt.Some? then o.observedAt.value else now,
          tls := if o.tlsExpiry.Some? then o.tlsExpiry else st.tls)
  {
    var at := if o.observedAt.Some? then o.observedAt.value else now;
    var status, latency, last := Put(StatusCode, o.statusCode as real), Put(Latency, Seconds(o.latencyMs)), Put(LastRun, at);
    UpdateThree(st, status, latency, last);
    if o.tlsExpiry.Some? {
      UpdateBoth(st, [status, latency, last], [Put(TlsExpiry, o.tlsExpiry.value)]);
      UpdateOne(UpdateAll(st, [status, latency, last]), Put(TlsExpiry, o.tlsExpiry.value));
    } else {
      assert GaugePuts(o, now) == [status, latency, last];
    }
  }

  /** All writes of a run together are one step of the fold. */
  lemma WritesAreOneStep(c: Config, st: Stats, run: Run)
    requires c.perTarget
    ensures UpdateAll(st, Writes(c, run)) == After(st, run)
  {
    SeriesUpdates(st, run);
    match ClassOf(run, c.classes)
    case None => assert Writes(c, run) == SeriesWrites(run);
    case Some(e) =>
      UpdateBoth(st, [Count(e)], SeriesWrites(run));
      UpdateOne(st, Count(e));
  }

  // ------------------------------------------------------------ one at a time

  predicate Of(c: Config, x: Job, tag: string) { c.labelOf(x.url) == tag }

  /** The call has made some of its writes but not all. */
  predicate Midway(x: Job) { 0 < |x.todo| < |x.all| }

  /** At most one call for the label is amid its writes. */
  ghost predicate Alone(c: Config, jobs: seq<Job>, tag: string) {
    forall i, j :: 0 <= i < j < |jobs| && Of(c, jobs[i], tag) && Of(c, jobs[j], tag) ==>
      !Midway(jobs[i]) || !Midway(jobs[j])
  }

  /** What calls for the label that are amid their writes have still to write. */
  function Rest(c: Config, jobs: seq<Job>, tag: string): seq<Write> {
    if jobs == [] then []
    else
      var x := jobs[|jobs| - 1];
      Rest(c, jobs[..|jobs| - 1], tag) + if Of(c, x, tag) && Midway(x) then x.todo else []
  }

  lemma {:induction false} NothingRests(c: Config, jobs: seq<Job>, tag: string)
    requires forall i :: 0 <= i < |jobs| && Of(c, jobs[i], tag) ==> !Midway(jobs[i])
    ensures Rest(c, jobs, tag) == []
  {
    if jobs != [] {
      NothingRests(c, jobs[..|jobs| - 1], tag);
    }
  }

  lemma {:induction false} RestOfTheOne(c: Config, jobs: seq<Job>, j: nat, tag: string)
    requires Alone(c, jobs, tag) && j < |jobs| && Of(c, jobs[j], tag) && Midway(jobs[j])
    ensures Rest(c, jobs, tag) == jobs[j].todo
  {
    var n := |jobs| - 1;
    if j == n {
      NothingRests(c, jobs[..n], tag);
    } else {
      RestOfTheOne(c, jobs[..n], j, tag);
    }
  }

  lemma {:induction false} RestStays(c: Config, jobs: seq<Job>, j: nat, x: Job, tag: string)
    requires j < |jobs| && x.url == jobs[j].url && x.all == jobs[j].all && (x.todo == jobs[j].todo || !Of(c, x, tag))
    ensures Rest(c, jobs[j := x], tag) == Rest(c, jobs, tag)
  {
    var n := |jobs| - 1;
    if j == n {
      assert jobs[j := x][..n] == jobs[..n];
    } else {
      assert jobs[j := x][..n] == jobs[..n][j := x];
      RestStays(c, jobs[..n], j, x, tag);
    }
  }

  /** When a call for the label has just written, its own rest is all there is. */
  lemma RestAfterWrite(c: Config, jobs: seq<Job>, j: nat, x: Job, tag: string)
    requires j < |jobs| && Alone(c, jobs, tag) && Alone(c, jobs[j := x], tag)
    requires Of(c, jobs[j], tag) && jobs[j].todo != [] && |jobs[j].todo| <= |jobs[j].all|
    requires x.url == jobs[j].url && x.all == jobs[j].all && x.todo == jobs[j].todo[1..] && |x.all| > 1
    ensures Rest(c, jobs[j := x], tag) == jobs[j].todo[1..]
    ensures Rest(c, jobs, tag) == if Midway(jobs[j]) then jobs[j].todo else []
  {
    var after := jobs[j := x];
    forall i | 0 <= i < |jobs| && i != j && Of(c, jobs[i], tag) ensures !Midway(jobs[i]) {
      assert after[i] == jobs[i] && after[j] == x;
      assert Midway(jobs[j]) || Midway(x);
    }
    if Midway(jobs[j]) {
      RestOfTheOne(c, jobs, j, tag);
    } else {
      NothingRests(c, jobs, tag);
    }
    if Midway(x) {
      RestOfTheOne(c, after, j, tag);
    } else {
      NothingRests(c, after, tag);
    }
  }

  // --------------------------------------------------------- who wrote, in order

  ghost predicate HasLogged(log: seq<Logged>, j: nat) {
    exists i :: 0 <= i < |log| && log[i].job == j
  }

  /** The runs that have begun to write, in the order of their first writes. */
  ghost function Wrote(jobs: seq<Job>, log: seq<Logged>): seq<Recorded> {
    if log == [] then []
    else
      var before, j := log[..|log| - 1], log[|log| - 1].job;
      Wrote(jobs, before) + if j < |jobs| && !HasLogged(before, j) then [Recorded(jobs[j].url, jobs[j].run)] else []
  }

  lemma {:induction false} WroteStays(s: State, t: State, log: seq<Logged>)
    requires SameCalls(s, t) && forall i :: 0 <= i < |log| ==> log[i].job < |s.jobs|
    ensures Wrote(t.jobs, log) == Wrote(s.jobs, log)
  {
    if log != [] {
      WroteStays(s, t, log[..|log| - 1]);
    }
  }

  /** A call has logged a write exactly if it has made one. */
  ghost predicate LoggedIfBegun(c: Config, s: State) {
    forall j :: 0 <= j < |s.jobs| ==> (HasLogged(s.log, j) <==> |s.jobs[j].todo| < |s.jobs[j].all|)
  }

  lemma LoggersExist(c: Config, s: State)
    requires Valued(c, s)
    ensures forall i :: 0 <= i < |s.log| ==> s.log[i].job < |s.jobs|
  {
    forall i | 0 <= i < |s.log| ensures s.log[i].job < |s.jobs| {
      assert LoggedRight(c, s, s.log[i]);
    }
  }

  lemma HasLoggedGrows(log: seq<Logged>, e: Logged, j: nat)
    ensures HasLogged(log + [e], j) <==> HasLogged(log, j) || e.job == j
  {
    if HasLogged(log, j) {
      var i :| 0 <= i < |log| && log[i].job == j;
      assert (log + [e])[i].job == j;
    }
    if e.job == j {
      assert (log + [e])[|log|].job == j;
    }
  }

  lemma WriteKeepsLogged(c: Config, s: State, j: nat)
    requires Connected(c, s) && CanWrite(s, j) && LoggedIfBegun(c, s)
    ensures LoggedIfBegun(c, Written(s, j))
  {
    var t := Written(s, j);
    assert JobRight(c, s, s.jobs[j]);
    forall i | 0 <= i < |t.jobs| ensures HasLogged(t.log, i) <==> |t.jobs[i].todo| < |t.jobs[i].all| {
      HasLoggedGrows(s.log, t.log[|s.log|], i);
    }
  }

  lemma BeginKeepsLogged(c: Config, s: State, url: string, run: Run)
    requires Valued(c, s) && LoggedIfBegun(c, s)
    ensures LoggedIfBegun(c, Apply(c, s, Begin(url, run)))
  {
    LoggersExist(c, s);
  }

  lemma StepKeepsLogged(c: Config, s: State, step: Step)
    requires Valued(c, s) && Enabled(c, s, step) && LoggedIfBegun(c, s)
    ensures LoggedIfBegun(c, Apply(c, s, step))
  {
    if step.DoWrite? {
      WriteKeepsLogged(c, s, step.j);
    } else if step.Begin? {
      BeginKeepsLogged(c, s, step.url, step.run);
    } else {
      OtherStepsKeepTodo(c, s, step);
    }
  }

  // ------------------------------------------------------------ the invariant

  /** The exported values, with the writes still to come for the label applied,
      are the fold of the runs that have begun to write. */
  ghost predicate InTurn(c: Config, s: State, tag: string)
    requires CellsOwned(s)
  {
    UpdateAll(Scrape(Exported(s), tag), Rest(c, s.jobs, tag)) == StatsOf(Wrote(s.jobs, s.log), c.labelOf, tag)
  }

  lemma ScrapeAfterWrite(m: Values, w: Write, mine: string, tag: string)
    requires KeyOf(w, mine) in m
    requires (w.Put? ==> IsGauge(w.m)) && (w.Add? ==> w.m.RunsUp? || w.m.RunsDown?)
    ensures var k := KeyOf(w, mine);
      Scrape(m[k := Effect(m[k], w)], tag) == if mine == tag then Update(Scrape(m, tag), w) else Scrape(m, tag)
  {
  }

  lemma ScrapeAfterQuiet(s: State, t: State, tag: string)
    requires CellsOwned(s) && CellsOwned(t) && Quiet(s, t)
    ensures Scrape(Exported(t), tag) == Scrape(Exported(s), tag).(tls := Scrape(Exported(t), tag).tls)
    ensures (Key(TlsExpiry, tag) in t.children ==> Key(TlsExpiry, tag) in s.children) ==>
      Scrape(Exported(t), tag) == Scrape(Exported(s), tag)
  {
  }

  lemma BeginKeepsTurn(c: Config, s: State, url: string, run: Run, tag: string)
    requires c.perTarget && Valued(c, s) && InTurn(c, s, tag)
    ensures CellsOwned(Apply(c, s, Begin(url, run))) && InTurn(c, Apply(c, s, Begin(url, run)), tag)
  {
    var t := Apply(c, s, Begin(url, run));
    CallsStay(c, s, Begin(url, run));
    LoggersExist(c, s);
    WroteStays(s, t, s.log);
    assert t.jobs[..|s.jobs|] == s.jobs && Exported(t) == Exported(s);
    assert Rest(c, t.jobs, tag) == Rest(c, s.jobs, tag);
  }

  lemma WritesAreMany(c: Config, run: Run)
    requires c.perTarget
    ensures |Writes(c, run)| > 1 && !(Writes(c, run)[0].Put? && Writes(c, run)[0].m == TlsExpiry)
  {
  }

  /** The log grows by one entry. */
  lemma WroteGrows(c: Config, s: State, j: nat)
    requires GoodClasses(c.classes) && Valued(c, s) && LoggedIfBegun(c, s) && CanWrite(s, j)
    ensures var t, x := Written(s, j), s.jobs[j];
      Wrote(t.jobs, t.log) == Wrote(s.jobs, s.log) +
        if |x.todo| < |x.all| then [] else [Recorded(x.url, x.run)]
  {
    var t := Written(s, j);
    WrittenStays(c, s, j);
    LoggersExist(c, s);
    WroteStays(s, t, s.log);
    assert JobRight(c, s, s.jobs[j]);
    assert t.log[..|s.log|] == s.log && t.log[|s.log|].job == j;
  }

  lemma OtherLabelsWrite(h: seq<Recorded>, r: Recorded, labelOf: string -> string, tag: string)
    ensures StatsOf(h + [r], labelOf, tag) ==
      if labelOf(r.url) == tag then After(StatsOf(h, labelOf, tag), r.run) else StatsOf(h, labelOf, tag)
  {
    assert (h + [r])[..|h|] == h;
  }

  /** A write to the label moves both sides alike: the first write of a call
      enters its whole run, and any other one takes its turn off the rest. */
  lemma BothSidesMove(c: Config, scrape: Stats, fold: Stats, x: Job, midway: bool)
    requires c.perTarget && x.todo != [] && (!midway ==> x.todo == Writes(c, x.run))
    requires UpdateAll(scrape, if midway then x.todo else []) == fold
    ensures UpdateAll(Update(scrape, x.todo[0]), x.todo[1..]) == if midway then fold else After(fold, x.run)
  {
    if !midway {
      WritesAreOneStep(c, scrape, x.run);
    }
  }

  /** The fold takes a step at the first write of a call for the label. */
  lemma FoldAfterWrite(c: Config, s: State, j: nat, tag: string)
    requires GoodClasses(c.classes) && Valued(c, s) && LoggedIfBegun(c, s) && CanWrite(s, j)
    ensures var x, fold := s.jobs[j], StatsOf(Wrote(s.jobs, s.log), c.labelOf, tag);
      StatsOf(Wrote(Written(s, j).jobs, Written(s, j).log), c.labelOf, tag) ==
        if Of(c, x, tag) && |x.todo| >= |x.all| then After(fold, x.run) else fold
  {
    var x, wrote := s.jobs[j], Wrote(s.jobs, s.log);
    WroteGrows(c, s, j);
    OtherLabelsWrite(wrote, Recorded(x.url, x.run), c.labelOf, tag);
    assert wrote + [] == wrote;
  }

  lemma OwnWriteKeepsTurn(c: Config, s: State, j: nat, tag: string)
    requires GoodClasses(c.classes) && c.perTarget && Valued(c, s) && LoggedIfBegun(c, s) && CanWrite(s, j)
    requires Of(c, s.jobs[j], tag) && Alone(c, s.jobs, tag) && Alone(c, Written(s, j).jobs, tag) && InTurn(c, s, tag)
    requires CellsOwned(Written(s, j))
    requires Scrape(Exported(Written(s, j)), tag) == Update(Scrape(Exported(s), tag), s.jobs[j].todo[0])
    ensures InTurn(c, Written(s, j), tag)
  {
    var x := s.jobs[j];
    assert JobRight(c, s, x) && x.all == Writes(c, x.run);
    WritesAreMany(c, x.run);
    RestAfterWrite(c, s.jobs, j, Written(s, j).jobs[j], tag);
    FoldAfterWrite(c, s, j, tag);
    BothSidesMove(c, Scrape(Exported(s), tag), StatsOf(Wrote(s.jobs, s.log), c.labelOf, tag), x, Midway(x));
  }

  lemma OthersWriteKeepsTurn(c: Config, s: State, j: nat, tag: string)
    requires GoodClasses(c.classes) && Valued(c, s) && LoggedIfBegun(c, s) && CanWrite(s, j)
    requires !Of(c, s.jobs[j], tag) && InTurn(c, s, tag)
    requires CellsOwned(Written(s, j))
    requires Scrape(Exported(Written(s, j)), tag) == Scrape(Exported(s), tag)
    ensures InTurn(c, Written(s, j), tag)
  {
    RestStays(c, s.jobs, j, Written(s, j).jobs[j], tag);
    FoldAfterWrite(c, s, j, tag);
  }

  lemma WriteKeepsTurn(c: Config, s: State, j: nat, tag: string)
    requires GoodClasses(c.classes) && c.perTarget && Valued(c, s) && LoggedIfBegun(c, s) && CanWrite(s, j)
    requires Alone(c, s.jobs, tag) && Alone(c, Written(s, j).jobs, tag) && InTurn(c, s, tag)
    ensures CellsOwned(Written(s, j)) && InTurn(c, Written(s, j), tag)
  {
    var x := s.jobs[j];
    WrittenStays(c, s, j);
    WriteMovesItsKey(c, s, j);
    RestIsKnown(c, s, j);
    WritesFitTheirMetric(c, x.run, x.todo[0]);
    ScrapeAfterWrite(Exported(s), x.todo[0], c.labelOf(x.url), tag);
    if Of(c, x, tag) {
      OwnWriteKeepsTurn(c, s, j, tag);
    } else {
      OthersWriteKeepsTurn(c, s, j, tag);
    }
  }

  /** Making the tls child shows before the gauge is set; but the write that is
      next sets it. */
  lemma NextPutHidesTls(a: Stats, b: Stats, ws: seq<Write>)
    requires ws != [] && ws[0].Put? && ws[0].m == TlsExpiry && a == b.(tls := a.tls)
    ensures UpdateAll(a, ws) == UpdateAll(b, ws)
  {
  }

  lemma MakeTlsKeepsTurn(c: Config, s: State, j: nat, tag: string)
    requires GoodClasses(c.classes) && c.perTarget && Connected(c, s) && CanMakeTls(s, j)
    requires Alone(c, s.jobs, tag)
    requires CellsOwned(TlsMade(s, j))
    ensures UpdateAll(Scrape(Exported(TlsMade(s, j)), tag), Rest(c, s.jobs, tag))
      == UpdateAll(Scrape(Exported(s), tag), Rest(c, s.jobs, tag))
  {
    var t, x := TlsMade(s, j), s.jobs[j];
    assert JobRight(c, s, x);
    OtherStepsAreQuiet(c, s, MakeTls(j));
    ScrapeAfterQuiet(s, t, tag);
    if Of(c, x, tag) {
      assert x.all == Writes(c, x.run);
      WritesAreMany(c, x.run);
      RestOfTheOne(c, s.jobs, j, tag);
      NextPutHidesTls(Scrape(Exported(t), tag), Scrape(Exported(s), tag), x.todo);
    }
  }

  lemma OtherStepsMakeNoTls(c: Config, s: State, step: Step, tag: string)
    requires Enabled(c, s, step) && !step.MakeTls?
    ensures Key(TlsExpiry, tag) in Apply(c, s, step).children ==> Key(TlsExpiry, tag) in s.children
  {
  }

  lemma OtherStepKeepsTurn(c: Config, s: State, step: Step, tag: string)
    requires GoodClasses(c.classes) && c.perTarget && Valued(c, s) && Enabled(c, s, step)
    requires !step.Begin? && !step.DoWrite? && Alone(c, s.jobs, tag) && InTurn(c, s, tag)
    ensures CellsOwned(Apply(c, s, step)) && InTurn(c, Apply(c, s, step), tag)
  {
    var t := Apply(c, s, step);
    StepKeepsConnected(c, s, step);
    CallsStay(c, s, step);
    OtherStepsKeepTodo(c, s, step);
    RestStays(c, s.jobs, step.j, t.jobs[step.j], tag);
    LoggersExist(c, s);
    WroteStays(s, t, s.log);
    if step.MakeTls? {
      MakeTlsKeepsTurn(c, s, step.j, tag);
    } else {
      OtherStepsAreQuiet(c, s, step);
      OtherStepsMakeNoTls(c, s, step, tag);
      ScrapeAfterQuiet(s, t, tag);
    }
  }

  lemma StepKeepsTurn(c: Config, s: State, step: Step, tag: string)
    requires GoodClasses(c.classes) && c.perTarget && Valued(c, s) && LoggedIfBegun(c, s) && Enabled(c, s, step)
    requires Alone(c, s.jobs, tag) && Alone(c, Apply(c, s, step).jobs, tag) && InTurn(c, s, tag)
    ensures CellsOwned(Apply(c, s, step)) && InTurn(c, Apply(c, s, step), tag)
  {
    if step.Begin? {
      BeginKeepsTurn(c, s, step.url, step.run, tag);
    } else if step.DoWrite? {
      WriteKeepsTurn(c, s, step.j, tag);
    } else {
      OtherStepKeepsTurn(c, s, step, tag);
    }
  }

  lemma {:induction false} InTurnAlways(c: Config, states: seq<State>, steps: seq<Step>, n: nat, tag: string)
    requires IsRun(c, states, steps) && n <= |steps| && c.perTarget
    requires forall i :: 0 <= i <= n ==> Alone(c, states[i].jobs, tag)
    ensures Valued(c, states[n]) && LoggedIfBegun(c, states[n]) && InTurn(c, states[n], tag)
  {
    ValuedAlways(c, states, steps, n);
    if n > 0 {
      InTurnAlways(c, states, steps, n - 1, tag);
      StepOfRun(c, states, steps, n - 1);
      StepKeepsLogged(c, states[n - 1], steps[n - 1]);
      StepKeepsTurn(c, states[n - 1], steps[n - 1], tag);
    } else {
      assert Scrape(Exported(states[0]), tag) == NO_STATS;
    }
  }

  /** If no two calls for a label are ever amid their writes together, then at any
      state in which none is, everything exported for the label equals the fold
      of the runs written, in the order of their first writes: whatever races
      there were to resolve and cache the handles, and whatever calls for other
      labels did meanwhile. */
  lemma SeparateWritesEqualTheFold(c: Config, states: seq<State>, steps: seq<Step>, n: nat, tag: string)
    requires IsRun(c, states, steps) && n <= |steps| && c.perTarget
    requires forall i :: 0 <= i <= n ==> Alone(c, states[i].jobs, tag)
    requires forall j :: 0 <= j < |states[n].jobs| && Of(c, states[n].jobs[j], tag) ==> !Midway(states[n].jobs[j])
    ensures CellsOwned(states[n])
    ensures Scrape(Exported(states[n]), tag) == StatsOf(Wrote(states[n].jobs, states[n].log), c.labelOf, tag)
  {
    InTurnAlways(c, states, steps, n, tag);
    NothingRests(c, states[n].jobs, tag);
  }

  /** The collector run one method at a time and the collector run step by step
      export the same: for one history, with the writes for each label made one
      call after the other, every series and every error counter agree. */
  lemma MethodsAgreeWithSteps(col: Collector, c: Config, states: seq<State>, steps: seq<Step>, n: nat, tag: string)
    requires col.Valid() && c == Config(col.labelOf, col.classes, col.perTarget) && c.perTarget
    requires IsRun(c, states, steps) && n <= |steps| && IsOver(states[n])
    requires forall i :: 0 <= i <= n ==> Alone(c, states[i].jobs, tag)
    requires col.history == Wrote(states[n].jobs, states[n].log)
    requires multiset(col.history) == multiset(Begun(states[n].jobs))
    ensures CellsOwned(states[n])
    ensures Scrape(col.Exported(), tag) == Scrape(Exported(states[n]), tag)
    ensures forall e :: e in c.classes ==> ValueOf(col.Exported(), Key(Errors, e)) == ValueOf(Exported(states[n]), Key(Errors, e))
  {
    SeparateWritesEqualTheFold(c, states, steps, n, tag);
    forall e | e in c.classes
      ensures ValueOf(col.Exported(), Key(Errors, e)) == ValueOf(Exported(states[n]), Key(Errors, e))
    {
      CountersEqualAnyFold(c, states, steps, n, col.history, e);
    }
  }
}
