/** Exactly when overlapping calls for one label, however many, always leave its
    gauges as some order of the runs would, and an instance of when not. */
module RecorderOrders {
  import opened Metrics
  import opened Recorders
  import opened RecorderRuns
  import opened RecorderRaces
  import opened RecorderChoices
  import opened RecorderStages

  // ------------------------------------------------- every end is some choice

  ghost function LastWriters(s: State, tag: string): map<Metric, nat> {
    map m: Metric | IsGauge(m) && LastOn(s.log, Key(m, tag)) >= 0 :: s.log[LastOn(s.log, Key(m, tag))].job
  }

  lemma LastWritersAreAChoice(c: Config, s: State, h: seq<Recorded>, tag: string)
    requires AllOver(c, s, h, tag)
    ensures IsChoice(h, LastWriters(s, tag))
    ensures forall m :: m in LastWriters(s, tag) ==> Gauge(s, tag, m) == PutOf(h[LastWriters(s, tag)[m]].run, m)
    ensures forall m :: IsGauge(m) && m !in LastWriters(s, tag) ==> Gauge(s, tag, m) == GaugeOf(NO_STATS, m)
  {
    forall m | IsGauge(m)
      ensures LastOn(s.log, Key(m, tag)) >= 0 <==> Sets(h, m)
      ensures m !in LastWriters(s, tag) ==> Gauge(s, tag, m) == GaugeOf(NO_STATS, m)
    {
      if Sets(h, m) {
        var j: nat :| j < |h| && PutOf(h[j].run, m).Some?;
        SomebodyWrote(c, s, h, tag, m, j);
      } else {
        NobodyWrote(c, s, h, tag, m);
        UnwrittenGauge(c, s, h, tag, m);
      }
    }
    forall m | m in LastWriters(s, tag)
      ensures LastWriters(s, tag)[m] < |h| && PutOf(h[LastWriters(s, tag)[m]].run, m).Some?
      ensures Gauge(s, tag, m) == PutOf(h[LastWriters(s, tag)[m]].run, m)
    {
      var w := LastWriterDecides(c, s, h, tag, m);
    }
  }

  /** All that is exported for the label is the fold of the runs in this order. */
  ghost predicate IsFoldOf(c: Config, s: State, order: seq<Recorded>, tag: string)
    requires CellsOwned(s)
  {
    Scrape(Exported(s), tag) == StatsOf(order, c.labelOf, tag)
  }

  ghost predicate CountersMatch(c: Config, s: State, order: seq<Recorded>, tag: string)
    requires CellsOwned(s)
  {
    var x, y := Scrape(Exported(s), tag), StatsOf(order, c.labelOf, tag);
    x.runsUp == y.runsUp && x.runsDown == y.runsDown
  }

  lemma AllOfOrder(c: Config, h: seq<Recorded>, order: seq<Recorded>, tag: string)
    requires AllOf(c, h, tag) && multiset(order) == multiset(h)
    ensures AllOf(c, order, tag)
  {
    forall j | 0 <= j < |order| ensures c.labelOf(order[j].url) == tag {
      assert order[j] in multiset(h);
    }
  }

  /** An order for the actual last writers is the fold. */
  lemma OrderIsTheFold(c: Config, s: State, h: seq<Recorded>, tag: string, order: seq<Recorded>)
    requires AllOver(c, s, h, tag) && CountersMatch(c, s, order, tag)
    requires IsChoice(h, LastWriters(s, tag)) && IsOrderFor(order, h, LastWriters(s, tag))
    ensures IsFoldOf(c, s, order, tag)
  {
    LastWritersAreAChoice(c, s, h, tag);
    AllOfOrder(c, h, order, tag);
    forall m | IsGauge(m) ensures Gauge(s, tag, m) == GaugeOf(StatsOf(order, c.labelOf, tag), m) {
      FoldGauge(c, order, tag, m);
      LastPutIffSet(order, m);
      SameRunsSetTheSame(order, h, m);
    }
    GaugesAndCountersAreAll(Scrape(Exported(s), tag), StatsOf(order, c.labelOf, tag));
  }

  /** And a fold in some order is an order for the actual last writers. */
  lemma FoldIsAnOrder(c: Config, s: State, h: seq<Recorded>, tag: string, order: seq<Recorded>, last: map<Metric, nat>)
    requires AllOver(c, s, h, tag) && IsFoldOf(c, s, order, tag) && multiset(order) == multiset(h)
    requires IsChoice(h, last)
    requires forall m :: m in last ==> Gauge(s, tag, m) == PutOf(h[last[m]].run, m)
    ensures IsOrderFor(order, h, last)
  {
    AllOfOrder(c, h, order, tag);
    forall m | m in last ensures LastPut(order, m) == PutOf(h[last[m]].run, m) {
      FoldGauge(c, order, tag, m);
      LastPutIffSet(order, m);
      SameRunsSetTheSame(order, h, m);
    }
  }

  // ----------------------------------------------------------------- the theorem

  /** All that is exported for the label is the fold of the runs in some order. */
  ghost predicate EndsInSomeOrder(c: Config, tr: Trace, h: seq<Recorded>, tag: string)
    requires IsTrace(c, tr)
  {
    && CellsOwned(Last(c, tr))
    && exists order :: multiset(order) == multiset(h) && IsFoldOf(c, Last(c, tr), order, tag)
  }

  lemma EndMatches(c: Config, tr: Trace, h: seq<Recorded>, tag: string, order: seq<Recorded>)
    requires c.perTarget && Ends(c, tr, h, tag) && multiset(order) == multiset(h)
    ensures CellsOwned(Last(c, tr)) && CountersMatch(c, Last(c, tr), order, tag)
  {
    CountersEqualAnyFold(c, tr.states, tr.steps, |tr.steps|, order, tag);
  }

  lemma EndIsSomeOrder(c: Config, tr: Trace, h: seq<Recorded>, tag: string)
    requires c.perTarget && Ends(c, tr, h, tag) && EveryChoiceIsAnOrder(h)
    ensures EndsInSomeOrder(c, tr, h, tag)
  {
    EndOfCalls(c, tr, h, tag);
    var s := Last(c, tr);
    LastWritersAreAChoice(c, s, h, tag);
    var order :| IsOrderFor(order, h, LastWriters(s, tag));
    EndMatches(c, tr, h, tag, order);
    OrderIsTheFold(c, s, h, tag, order);
  }

  /** The exact condition for any number of calls of one label: every interleaving
      ends in the fold of the runs in some order if and only if every choice of a
      last run for each gauge is what some order of the runs leaves. */
  lemma ManyCallsEndInAFoldIff(c: Config, h: seq<Recorded>, tag: string)
    requires GoodClasses(c.classes) && c.perTarget && AllOf(c, h, tag)
    ensures EveryChoiceIsAnOrder(h) <==> forall tr :: Ends(c, tr, h, tag) ==> EndsInSomeOrder(c, tr, h, tag)
  {
    if EveryChoiceIsAnOrder(h) {
      forall tr | Ends(c, tr, h, tag) ensures EndsInSomeOrder(c, tr, h, tag) {
        EndIsSomeOrder(c, tr, h, tag);
      }
    } else {
      var last :| IsChoice(h, last) && !exists order :: IsOrderFor(order, h, last);
      var tr := MixMany(c, h, tag, last);
      if EndsInSomeOrder(c, tr, h, tag) {
        var order :| multiset(order) == multiset(h) && IsFoldOf(c, Last(c, tr), order, tag);
        FoldIsAnOrder(c, Last(c, tr), h, tag, order, last);
      }
    }
  }

  // ------------------------------------------------------------------- two calls

  /** The fold of the two runs, in one order or the other. */
  ghost predicate EndsInAFold(c: Config, tr: Trace, a: Recorded, b: Recorded)
    requires IsTrace(c, tr)
  {
    && CellsOwned(Last(c, tr))
    && (IsFoldOf(c, Last(c, tr), [a, b], c.labelOf(a.url)) || IsFoldOf(c, Last(c, tr), [b, a], c.labelOf(a.url)))
  }

  lemma SomeOrderIsOneOfTwo(c: Config, tr: Trace, a: Recorded, b: Recorded)
    requires IsTrace(c, tr)
    ensures EndsInSomeOrder(c, tr, [a, b], c.labelOf(a.url)) <==> EndsInAFold(c, tr, a, b)
  {
    assert multiset([b, a]) == multiset([a, b]);
    if EndsInSomeOrder(c, tr, [a, b], c.labelOf(a.url)) {
      var order :| multiset(order) == multiset([a, b]) && IsFoldOf(c, Last(c, tr), order, c.labelOf(a.url));
      TwoOrders(order, a, b);
    }
  }

  /** Every interleaving of two calls for one label ends in the fold of the two
      runs, in one order or the other, if and only if the runs set at most one
      gauge to different values. */
  lemma TwoCallsEndInAFoldIff(c: Config, a: Recorded, b: Recorded)
    requires GoodClasses(c.classes) && c.perTarget && c.labelOf(a.url) == c.labelOf(b.url)
    ensures ClashOnce(a.run, b.run) <==>
      forall tr :: Ends(c, tr, [a, b], c.labelOf(a.url)) ==> EndsInAFold(c, tr, a, b)
  {
    TwoRunsConditionIffClashOnce(a, b);
    ManyCallsEndInAFoldIff(c, [a, b], c.labelOf(a.url));
    forall tr | Ends(c, tr, [a, b], c.labelOf(a.url))
      ensures EndsInSomeOrder(c, tr, [a, b], c.labelOf(a.url)) <==> EndsInAFold(c, tr, a, b)
    {
      SomeOrderIsOneOfTwo(c, tr, a, b);
    }
  }

  /** For instance: one call records an error and the other an observation that is
      up with status 200. There is an interleaving after which the target is
      exported as down with status 200, the fold of neither order. */
  lemma DownWithStatus200(c: Config, a: Recorded, b: Recorded) returns (tr: Trace)
    requires GoodClasses(c.classes) && c.perTarget && c.labelOf(a.url) == c.labelOf(b.url)
    requires a.run.Failed? && b.run.Observed? && b.run.obs.up && b.run.obs.statusCode == 200
    ensures Ends(c, tr, [a, b], c.labelOf(a.url)) && !EndsInAFold(c, tr, a, b)
    ensures CellsOwned(Last(c, tr))
    ensures Scrape(Exported(Last(c, tr)), c.labelOf(a.url)).up == 0.0
    ensures Scrape(Exported(Last(c, tr)), c.labelOf(a.url)).statusCode == 200.0
  {
    var h, tag, last := [a, b], c.labelOf(a.url), FirstOnlyAt(a, b, Up);
    FirstOnlyIsAChoice(a, b, Up, StatusCode);
    tr := MixMany(c, h, tag, last);
    assert Gauge(Last(c, tr), tag, Up) == PutOf(h[last[Up]].run, Up);
    assert Gauge(Last(c, tr), tag, StatusCode) == PutOf(h[last[StatusCode]].run, StatusCode);
    SomeOrderIsOneOfTwo(c, tr, a, b);
    if EndsInSomeOrder(c, tr, h, tag) {
      var order :| multiset(order) == multiset(h) && IsFoldOf(c, Last(c, tr), order, tag);
      FoldIsAnOrder(c, Last(c, tr), h, tag, order, last);
      NoOrderForTheSplit(a, b, Up, StatusCode, order);
    }
  }
}
