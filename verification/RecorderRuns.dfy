/** What the collector exports at every state of every interleaving of `record`
    calls, and what it exports once they are over. */
module RecorderRuns {
  import opened Common
  import opened Metrics
  import opened Recorders

  ghost function Exported(s: State): (m: Values)
    requires CellsOwned(s)
    ensures m.Keys == s.children.Keys
  {
    map k | k in s.children :: s.cells[s.children[k]].value
  }

  /** The value a log of writes leaves a child with. */
  function Replay(log: seq<Logged>, k: Key): real {
    if log == [] then 0.0
    else
      var before, e := Replay(log[..|log| - 1], k), log[|log| - 1];
      if e.key == k then Effect(before, e.w) else before
  }

  lemma ReplayGrows(log: seq<Logged>, e: Logged, k: Key)
    ensures Replay(log + [e], k) == if e.key == k then Effect(Replay(log, k), e.w) else Replay(log, k)
  {
    assert (log + [e])[..|log|] == log;
  }

  lemma {:induction false} ReplayOfNothing(log: seq<Logged>, k: Key)
    requires forall i :: 0 <= i < |log| ==> log[i].key != k
    ensures Replay(log, k) == 0.0
  {
    if log != [] {
      ReplayOfNothing(log[..|log| - 1], k);
    }
  }

  // --------------------------------------------------- values are logged writes

  /** Every logged write is one its run calls for, on the run's own label. */
  ghost predicate LoggedRight(c: Config, s: State, e: Logged) {
    && e.job < |s.jobs| && e.w in s.jobs[e.job].all
    && e.key == KeyOf(e.w, c.labelOf(s.jobs[e.job].url)) && e.key in s.children
  }

  ghost predicate Valued(c: Config, s: State) {
    && Connected(c, s)
    && (forall i :: 0 <= i < |s.log| ==> LoggedRight(c, s, s.log[i]))
    && (forall k :: k in s.children ==> s.cells[s.children[k]].value == Replay(s.log, k))
  }

  /** A step that writes nothing may add a child, at zero. */
  ghost predicate Quiet(s: State, t: State) {
    && t.log == s.log && |s.cells| <= |t.cells| && (forall i :: 0 <= i < |s.cells| ==> t.cells[i] == s.cells[i])
    && (forall k :: k in s.children ==> k in t.children && t.children[k] == s.children[k])
    && (forall k :: k in t.children && k !in s.children ==>
          t.children[k] == |s.cells| < |t.cells| && t.cells[t.children[k]].value == 0.0)
  }

  /** No step changes what an earlier call is for. */
  ghost predicate SameCalls(s: State, t: State) {
    && |s.jobs| <= |t.jobs|
    && forall j :: 0 <= j < |s.jobs| ==>
         t.jobs[j].url == s.jobs[j].url && t.jobs[j].run == s.jobs[j].run && t.jobs[j].all == s.jobs[j].all
  }

  lemma OtherStepsAreQuiet(c: Config, s: State, step: Step)
    requires Enabled(c, s, step) && !step.DoWrite?
    ensures Quiet(s, Apply(c, s, step))
  {
  }

  lemma CallsStay(c: Config, s: State, step: Step)
    requires Enabled(c, s, step)
    ensures SameCalls(s, Apply(c, s, step))
    ensures |Apply(c, s, step).jobs| == |s.jobs| + if step.Begin? then 1 else 0
  {
  }

  lemma QuietKeepsValued(c: Config, s: State, t: State)
    requires Valued(c, s) && Connected(c, t) && Quiet(s, t) && SameCalls(s, t)
    ensures Valued(c, t)
  {
    forall k | k in t.children ensures t.cells[t.children[k]].value == Replay(t.log, k) {
      if k !in s.children {
        forall i | 0 <= i < |s.log| ensures s.log[i].key != k {
          assert LoggedRight(c, s, s.log[i]);
        }
        ReplayOfNothing(s.log, k);
      }
    }
    forall i | 0 <= i < |t.log| ensures LoggedRight(c, t, t.log[i]) {
      assert LoggedRight(c, s, s.log[i]);
    }
  }

  /** A write moves the value of its key, and no other. */
  lemma WriteMovesItsKey(c: Config, s: State, j: nat)
    requires GoodClasses(c.classes) && Connected(c, s) && CanWrite(s, j) && CellsOwned(Written(s, j))
    ensures var t, w := Written(s, j), s.jobs[j].todo[0];
      var k := KeyOf(w, c.labelOf(s.jobs[j].url));
      && t.log == s.log + [Logged(j, k, w)] && k in s.children && t.children == s.children
      && Exported(t) == Exported(s)[k := Effect(Exported(s)[k], w)]
  {
    WriteLandsOnItsLabel(c, s, j);
  }

  /** What a write leaves as it was. */
  lemma WrittenStays(c: Config, s: State, j: nat)
    requires Connected(c, s) && CanWrite(s, j)
    ensures Connected(c, Written(s, j)) && SameCalls(s, Written(s, j)) && |Written(s, j).jobs| == |s.jobs|
    ensures Written(s, j).jobs == s.jobs[j := s.jobs[j].(todo := s.jobs[j].todo[1..])]
  {
    assert Enabled(c, s, DoWrite(j));
    StepKeepsConnected(c, s, DoWrite(j));
  }

  lemma WriteKeepsValued(c: Config, s: State, j: nat)
    requires GoodClasses(c.classes) && Valued(c, s) && CanWrite(s, j)
    requires Connected(c, Written(s, j))
    ensures Valued(c, Written(s, j))
  {
    var t, e := Written(s, j), Written(s, j).log[|s.log|];
    WriteMovesItsKey(c, s, j);
    RestIsKnown(c, s, j);
    forall i | 0 <= i < |t.log| ensures LoggedRight(c, t, t.log[i]) {
      if i < |s.log| {
        assert LoggedRight(c, s, s.log[i]);
      }
    }
    forall k | k in t.children ensures t.cells[t.children[k]].value == Replay(t.log, k) {
      ReplayGrows(s.log, e, k);
      assert Exported(t)[k] == if k == e.key then Effect(Exported(s)[k], e.w) else Exported(s)[k];
    }
  }

  lemma StepKeepsValued(c: Config, s: State, step: Step)
    requires GoodClasses(c.classes) && Valued(c, s) && Enabled(c, s, step)
    ensures Valued(c, Apply(c, s, step))
  {
    StepKeepsConnected(c, s, step);
    if step.DoWrite? {
      WriteKeepsValued(c, s, step.j);
    } else {
      OtherStepsAreQuiet(c, s, step);
      CallsStay(c, s, step);
      QuietKeepsValued(c, s, Apply(c, s, step));
    }
  }

  lemma StepOfRun(c: Config, states: seq<State>, steps: seq<Step>, n: nat)
    requires IsRun(c, states, steps) && n < |steps|
    ensures Enabled(c, states[n], steps[n]) && states[n + 1] == Apply(c, states[n], steps[n])
  {
  }

  lemma StartIsValued(c: Config, states: seq<State>, steps: seq<Step>)
    requires IsRun(c, states, steps)
    ensures Valued(c, states[0])
  {
    ConnectedAlways(c, states, steps, 0);
  }

  lemma {:induction false} ValuedAlways(c: Config, states: seq<State>, steps: seq<Step>, n: nat)
    requires IsRun(c, states, steps) && n <= |steps|
    ensures Valued(c, states[n])
  {
    if n == 0 {
      StartIsValued(c, states, steps);
    } else {
      ValuedAlways(c, states, steps, n - 1);
      StepOfRun(c, states, steps, n - 1);
      StepKeepsValued(c, states[n - 1], steps[n - 1]);
    }
  }

  // --------------------------------------------------------- gauges and counters

  predicate IsGauge(m: Metric) { m.Up? || m.StatusCode? || m.Latency? || m.LastRun? || m.TlsExpiry? }

  lemma WritesFitTheirMetric(c: Config, run: Run, w: Write)
    requires w in Writes(c, run)
    ensures w.Put? ==> IsGauge(w.m)
    ensures w.Add? ==> w.m.RunsUp? || w.m.RunsDown?
  {
  }

  /** The last entry of the log on a key, or -1. */
  function LastOn(log: seq<Logged>, k: Key): (i: int)
    ensures -1 <= i < |log|
    ensures i >= 0 ==> log[i].key == k
    ensures forall j :: i < j < |log| ==> log[j].key != k
  {
    if log == [] then -1 else if log[|log| - 1].key == k then |log| - 1 else LastOn(log[..|log| - 1], k)
  }

  lemma {:induction false} ReplayOfPuts(log: seq<Logged>, k: Key)
    requires forall i :: 0 <= i < |log| && log[i].key == k ==> log[i].w.Put?
    ensures Replay(log, k) == if LastOn(log, k) < 0 then 0.0 else log[LastOn(log, k)].w.v
  {
    if log != [] {
      ReplayOfPuts(log[..|log| - 1], k);
    }
  }

  /** Increments of a key so far. */
  function Adds(log: seq<Logged>, k: Key): nat {
    if log == [] then 0
    else Adds(log[..|log| - 1], k) + OneIf(log[|log| - 1].key == k && !log[|log| - 1].w.Put?)
  }

  lemma AddsGrow(log: seq<Logged>, e: Logged, k: Key)
    ensures Adds(log + [e], k) == Adds(log, k) + OneIf(e.key == k && !e.w.Put?)
  {
    assert (log + [e])[..|log|] == log;
  }

  lemma {:induction false} ReplayOfAdds(log: seq<Logged>, k: Key)
    requires forall i :: 0 <= i < |log| && log[i].key == k ==> !log[i].w.Put?
    ensures Replay(log, k) == Adds(log, k) as real
  {
    if log != [] {
      ReplayOfAdds(log[..|log| - 1], k);
    }
  }

  lemma KeyTellsTheKind(c: Config, s: State, k: Key, i: nat)
    requires Valued(c, s) && i < |s.log| && s.log[i].key == k
    ensures s.log[i].w.Put? <==> IsGauge(k.metric)
  {
    assert LoggedRight(c, s, s.log[i]);
    assert s.jobs[s.log[i].job].all == Writes(c, s.jobs[s.log[i].job].run);
    WritesFitTheirMetric(c, s.jobs[s.log[i].job].run, s.log[i].w);
  }

  /** A gauge holds its last completed write, a counter equals its completed
      increments. */
  ghost predicate HoldsCompletedWrites(s: State, k: Key)
    requires CellsOwned(s)
  {
    && (forall i :: 0 <= i < |s.log| && s.log[i].key == k ==> (s.log[i].w.Put? <==> IsGauge(k.metric)))
    && ValueOf(Exported(s), k) ==
         if !IsGauge(k.metric) then Adds(s.log, k) as real
         else if LastOn(s.log, k) < 0 then 0.0
         else s.log[LastOn(s.log, k)].w.v
  }

  lemma ValuesAreCompletedWrites(c: Config, s: State, k: Key)
    requires Valued(c, s)
    ensures HoldsCompletedWrites(s, k)
  {
    forall i | 0 <= i < |s.log| && s.log[i].key == k ensures s.log[i].w.Put? <==> IsGauge(k.metric) {
      KeyTellsTheKind(c, s, k, i);
    }
    if k !in s.children {
      forall i | 0 <= i < |s.log| ensures s.log[i].key != k {
        assert LoggedRight(c, s, s.log[i]);
      }
      ReplayOfNothing(s.log, k);
    }
    if IsGauge(k.metric) {
      ReplayOfPuts(s.log, k);
    } else {
      ReplayOfAdds(s.log, k);
    }
  }

  /** At every state of every interleaving of any number of calls. */
  lemma ChildrenHoldCompletedWrites(c: Config, states: seq<State>, steps: seq<Step>, n: nat, k: Key)
    requires IsRun(c, states, steps) && n <= |steps|
    ensures CellsOwned(states[n]) && HoldsCompletedWrites(states[n], k)
  {
    ValuedAlways(c, states, steps, n);
    ValuesAreCompletedWrites(c, states[n], k);
  }

  // -------------------------------------------------- no increment is ever lost

  /** Increments of a key among some writes of a run with that label. */
  function CountIn(ws: seq<Write>, tag: string, k: Key): nat {
    if ws == [] then 0 else OneIf(!ws[0].Put? && KeyOf(ws[0], tag) == k) + CountIn(ws[1..], tag, k)
  }

  /** Increments that the calls in progress have still to make. */
  function Pending(c: Config, jobs: seq<Job>, k: Key): nat {
    if jobs == [] then 0
    else Pending(c, jobs[..|jobs| - 1], k) + CountIn(jobs[|jobs| - 1].todo, c.labelOf(jobs[|jobs| - 1].url), k)
  }

  /** Increments that a history calls for. */
  function Tally(c: Config, h: seq<Recorded>, k: Key): nat {
    if h == [] then 0
    else Tally(c, h[..|h| - 1], k) + CountIn(Writes(c, h[|h| - 1].run), c.labelOf(h[|h| - 1].url), k)
  }

  /** The runs recorded or being recorded, in the order in which the calls began. */
  function Begun(jobs: seq<Job>): (h: seq<Recorded>)
    ensures |h| == |jobs|
  {
    seq(|jobs|, j requires 0 <= j < |jobs| => Recorded(jobs[j].url, jobs[j].run))
  }

  lemma {:induction false} PendingChange(c: Config, jobs: seq<Job>, j: nat, x: Job, k: Key)
    requires j < |jobs| && x.url == jobs[j].url
    ensures Pending(c, jobs[j := x], k) + CountIn(jobs[j].todo, c.labelOf(x.url), k)
      == Pending(c, jobs, k) + CountIn(x.todo, c.labelOf(x.url), k)
  {
    var n := |jobs| - 1;
    if j == n {
      assert jobs[j := x][..n] == jobs[..n];
    } else {
      assert jobs[j := x][..n] == jobs[..n][j := x];
      PendingChange(c, jobs[..n], j, x, k);
    }
  }

  ghost predicate Conserved(c: Config, s: State, k: Key) {
    Adds(s.log, k) + Pending(c, s.jobs, k) == Tally(c, Begun(s.jobs), k)
  }

  /** A step that neither begins a call nor writes leaves what is to be done. */
  lemma OtherStepsKeepTodo(c: Config, s: State, step: Step)
    requires Enabled(c, s, step) && !step.Begin? && !step.DoWrite?
    ensures var t := Apply(c, s, step);
      step.j < |s.jobs| && t.log == s.log && t.jobs == s.jobs[step.j := s.jobs[step.j].(phase := t.jobs[step.j].phase)]
  {
  }

  lemma BegunGrows(jobs: seq<Job>, x: Job)
    ensures Begun(jobs + [x]) == Begun(jobs) + [Recorded(x.url, x.run)]
  {
  }

  lemma BegunStays(s: State, t: State)
    requires SameCalls(s, t) && |t.jobs| == |s.jobs|
    ensures Begun(t.jobs) == Begun(s.jobs)
  {
  }

  lemma BeginConserves(c: Config, s: State, url: string, run: Run, k: Key)
    requires Conserved(c, s, k)
    ensures Conserved(c, Apply(c, s, Begin(url, run)), k)
  {
    var t := Apply(c, s, Begin(url, run));
    BegunGrows(s.jobs, t.jobs[|s.jobs|]);
    assert t.jobs[..|s.jobs|] == s.jobs && Begun(t.jobs)[..|s.jobs|] == Begun(s.jobs);
  }

  lemma WriteConserves(c: Config, s: State, j: nat, k: Key)
    requires GoodClasses(c.classes) && Connected(c, s) && CanWrite(s, j) && Conserved(c, s, k)
    ensures Conserved(c, Written(s, j), k)
  {
    var t, x := Written(s, j), s.jobs[j];
    WrittenStays(c, s, j);
    BegunStays(s, t);
    PendingChange(c, s.jobs, j, t.jobs[j], k);
    WriteMovesItsKey(c, s, j);
    AddsGrow(s.log, Logged(j, KeyOf(x.todo[0], c.labelOf(x.url)), x.todo[0]), k);
  }

  lemma StepConserves(c: Config, s: State, step: Step, k: Key)
    requires GoodClasses(c.classes) && Connected(c, s) && Enabled(c, s, step) && Conserved(c, s, k)
    ensures Conserved(c, Apply(c, s, step), k)
  {
    if step.Begin? {
      BeginConserves(c, s, step.url, step.run, k);
    } else if step.DoWrite? {
      WriteConserves(c, s, step.j, k);
    } else {
      var t := Apply(c, s, step);
      CallsStay(c, s, step);
      BegunStays(s, t);
      OtherStepsKeepTodo(c, s, step);
      PendingChange(c, s.jobs, step.j, t.jobs[step.j], k);
    }
  }

  lemma NothingPending(c: Config, k: Key)
    requires GoodClasses(c.classes)
    ensures Conserved(c, Init(c), k)
  {
  }

  lemma {:induction false} ConservedAlways(c: Config, states: seq<State>, steps: seq<Step>, n: nat, k: Key)
    requires IsRun(c, states, steps) && n <= |steps|
    ensures Conserved(c, states[n], k)
  {
    if n == 0 {
      NothingPending(c, k);
    } else {
      ConservedAlways(c, states, steps, n - 1, k);
      ValuedAlways(c, states, steps, n - 1);
      StepOfRun(c, states, steps, n - 1);
      StepConserves(c, states[n - 1], steps[n - 1], k);
    }
  }

  /** No call is in progress any more. */
  ghost predicate IsOver(s: State) {
    forall j :: 0 <= j < |s.jobs| ==> s.jobs[j].todo == []
  }

  lemma {:induction false} NothingLeft(c: Config, jobs: seq<Job>, k: Key)
    requires forall j :: 0 <= j < |jobs| ==> jobs[j].todo == []
    ensures Pending(c, jobs, k) == 0
  {
    if jobs != [] {
      NothingLeft(c, jobs[..|jobs| - 1], k);
    }
  }

  predicate WasUp(run: Run) { run.Observed? && run.obs.up }

  lemma {:induction false} CountInBoth(a: seq<Write>, b: seq<Write>, tag: string, k: Key)
    ensures CountIn(a + b, tag, k) == CountIn(a, tag, k) + CountIn(b, tag, k)
  {
    if a == [] {
      assert a + b == b;
    } else {
      assert (a + b)[1..] == a[1..] + b;
      CountInBoth(a[1..], b, tag, k);
    }
  }

  lemma {:induction false} PutsCountNothing(ws: seq<Write>, tag: string, k: Key)
    requires forall i :: 0 <= i < |ws| ==> ws[i].Put?
    ensures CountIn(ws, tag, k) == 0
  {
    if ws != [] {
      PutsCountNothing(ws[1..], tag, k);
    }
  }

  lemma OneCounts(w: Write, tag: string, k: Key)
    ensures CountIn([w], tag, k) == OneIf(!w.Put? && KeyOf(w, tag) == k)
  {
  }

  lemma SeriesCounts(run: Run, mine: string, k: Key)
    ensures CountIn(SeriesWrites(run), mine, k) == OneIf(k == Key(if WasUp(run) then RunsUp else RunsDown, mine))
  {
    match run
    case Failed(now) =>
      var puts := [Put(Up, 0.0), Put(StatusCode, 0.0), Put(LastRun, now)];
      CountInBoth(puts, [Add(RunsDown)], mine, k);
      PutsCountNothing(puts, mine, k);
      OneCounts(Add(RunsDown), mine, k);
    case Observed(o, now) =>
      var up, add := Put(Up, if o.up then 1.0 else 0.0), Add(if o.up then RunsUp else RunsDown);
      CountInBoth([up] + [add], GaugePuts(o, now), mine, k);
      CountInBoth([up], [add], mine, k);
      PutsCountNothing(GaugePuts(o, now), mine, k);
      OneCounts(up, mine, k);
      OneCounts(add, mine, k);
  }

  /** What one run counts. */
  lemma RunCounts(c: Config, run: Run, mine: string, k: Key)
    ensures CountIn(Writes(c, run), mine, k) ==
      OneIf(ClassOf(run, c.classes).Some? && k == Key(Errors, ClassOf(run, c.classes).value))
      + OneIf(c.perTarget && k == Key(if WasUp(run) then RunsUp else RunsDown, mine))
  {
    var first := match ClassOf(run, c.classes) case None => [] case Some(e) => [Count(e)];
    CountInBoth(first, if c.perTarget then SeriesWrites(run) else [], mine, k);
    SeriesCounts(run, mine, k);
    match ClassOf(run, c.classes)
    case None =>
    case Some(e) => OneCounts(Count(e), mine, k);
  }

  lemma AfterCounts(st: Stats, run: Run)
    ensures After(st, run).runsUp == st.runsUp + OneIf(WasUp(run)) as real
    ensures After(st, run).runsDown == st.runsDown + OneIf(!WasUp(run)) as real
  {
  }

  lemma {:induction false} TallyIsTheFold(c: Config, h: seq<Recorded>, tag: string)
    requires GoodClasses(c.classes)
    ensures c.perTarget ==> StatsOf(h, c.labelOf, tag).runsUp == Tally(c, h, Key(RunsUp, tag)) as real
    ensures c.perTarget ==> StatsOf(h, c.labelOf, tag).runsDown == Tally(c, h, Key(RunsDown, tag)) as real
    ensures ErrorsOf(h, c.classes, tag) == Tally(c, h, Key(Errors, tag))
  {
    if h != [] {
      TallyIsTheFold(c, h[..|h| - 1], tag);
      var last := h[|h| - 1];
      AfterCounts(StatsOf(h[..|h| - 1], c.labelOf, tag), last.run);
      RunCounts(c, last.run, c.labelOf(last.url), Key(RunsUp, tag));
      RunCounts(c, last.run, c.labelOf(last.url), Key(RunsDown, tag));
      RunCounts(c, last.run, c.labelOf(last.url), Key(Errors, tag));
    }
  }

  lemma {:induction false} TallyWithout(c: Config, h: seq<Recorded>, i: nat, k: Key)
    requires i < |h|
    ensures Tally(c, h, k) == Tally(c, h[..i] + h[i + 1..], k) + CountIn(Writes(c, h[i].run), c.labelOf(h[i].url), k)
  {
    var n, less := |h| - 1, h[..i] + h[i + 1..];
    if i == n {
      assert less == h[..n];
    } else {
      TallyWithout(c, h[..n], i, k);
      assert less[..n - 1] == h[..n][..i] + h[..n][i + 1..];
      assert less[n - 1] == h[n];
    }
  }

  lemma WhereLastIs<T>(a: seq<T>, b: seq<T>) returns (i: nat)
    requires multiset(a) == multiset(b) && a != []
    ensures i < |b| && b[i] == a[|a| - 1] && multiset(b[..i] + b[i + 1..]) == multiset(a[..|a| - 1])
  {
    var x, front := a[|a| - 1], a[..|a| - 1];
    assert a == front + [x];
    assert x in multiset(b);
    i :| 0 <= i < |b| && b[i] == x;
    assert b == b[..i] + [x] + b[i + 1..];
    assert multiset(front) == multiset(a) - multiset{x};
    assert multiset(b[..i] + b[i + 1..]) == multiset(b) - multiset{x};
  }

  /** Only which runs there were matters, not their order. */
  lemma {:induction false} TallyOfAnyOrder(c: Config, a: seq<Recorded>, b: seq<Recorded>, k: Key)
    requires multiset(a) == multiset(b)
    ensures Tally(c, a, k) == Tally(c, b, k)
  {
    if a == [] {
      assert |multiset(b)| == 0;
    } else {
      var i := WhereLastIs(a, b);
      TallyWithout(c, b, i, k);
      TallyOfAnyOrder(c, a[..|a| - 1], b[..i] + b[i + 1..], k);
    }
  }

  lemma CounterIsTallied(c: Config, states: seq<State>, steps: seq<Step>, n: nat, h: seq<Recorded>, k: Key)
    requires IsRun(c, states, steps) && n <= |steps| && IsOver(states[n])
    requires multiset(h) == multiset(Begun(states[n].jobs)) && !IsGauge(k.metric)
    ensures CellsOwned(states[n]) && ValueOf(Exported(states[n]), k) == Tally(c, h, k) as real
  {
    ChildrenHoldCompletedWrites(c, states, steps, n, k);
    ConservedAlways(c, states, steps, n, k);
    NothingLeft(c, states[n].jobs, k);
    TallyOfAnyOrder(c, h, Begun(states[n].jobs), k);
  }

  /** Whatever the interleaving, once the calls are over every counter equals the
      fold of the runs in any order whatever: no update was lost and none was
      made twice, and errors_total sums to the runs in trouble. */
  lemma CountersEqualAnyFold(c: Config, states: seq<State>, steps: seq<Step>, n: nat, h: seq<Recorded>, tag: string)
    requires IsRun(c, states, steps) && n <= |steps| && IsOver(states[n])
    requires multiset(h) == multiset(Begun(states[n].jobs))
    ensures CellsOwned(states[n])
    ensures var v := Exported(states[n]);
      && (c.perTarget ==> Scrape(v, tag).runsUp == StatsOf(h, c.labelOf, tag).runsUp)
      && (c.perTarget ==> Scrape(v, tag).runsDown == StatsOf(h, c.labelOf, tag).runsDown)
      && ValueOf(v, Key(Errors, tag)) == ErrorsOf(h, c.classes, tag) as real
    ensures ErrorTotal(h, c.classes, |c.classes|) == Troubled(h)
  {
    CounterIsTallied(c, states, steps, n, h, Key(RunsUp, tag));
    CounterIsTallied(c, states, steps, n, h, Key(RunsDown, tag));
    CounterIsTallied(c, states, steps, n, h, Key(Errors, tag));
    TallyIsTheFold(c, h, tag);
    ErrorsSumUp(h, c.classes);
  }

  /** Once the calls are over, in whatever order their writes were made, each error
      class has counted its own observations, and "unknown" the failed runs and
      the observations of unlisted classes besides. */
  lemma ClassesCountTheirOwn(c: Config, states: seq<State>, steps: seq<Step>, n: nat, errorClass: string)
    requires IsRun(c, states, steps) && n <= |steps| && IsOver(states[n]) && errorClass in c.classes
    ensures CellsOwned(states[n])
    ensures ValueOf(Exported(states[n]), Key(Errors, errorClass)) == InClass(Begun(states[n].jobs), c.classes, errorClass) as real
  {
    CountersEqualAnyFold(c, states, steps, n, Begun(states[n].jobs), errorClass);
    ErrorsByClass(Begun(states[n].jobs), c.classes, errorClass);
  }
}
