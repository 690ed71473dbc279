/** What a sequence of runs leaves a label's gauges at, and which last runs, gauge
    by gauge, some order of the runs explains. */
module RecorderChoices {
  import opened Metrics
  import opened Recorders
  import opened RecorderRuns
  import opened RecorderRaces

  /** The last value that runs in this order set a gauge to. */
  function LastPut(h: seq<Recorded>, m: Metric): Option<real> {
    if h == [] then None
    else if PutOf(h[|h| - 1].run, m).Some? then PutOf(h[|h| - 1].run, m)
    else LastPut(h[..|h| - 1], m)
  }

  lemma AfterGauge(st: Stats, run: Run, m: Metric)
    requires IsGauge(m)
    ensures GaugeOf(After(st, run), m) == if PutOf(run, m).Some? then PutOf(run, m) else GaugeOf(st, m)
  {
  }

  ghost predicate AllOf(c: Config, h: seq<Recorded>, tag: string) {
    forall j :: 0 <= j < |h| ==> c.labelOf(h[j].url) == tag
  }

  lemma {:induction false} FoldGauge(c: Config, h: seq<Recorded>, tag: string, m: Metric)
    requires AllOf(c, h, tag) && IsGauge(m)
    ensures GaugeOf(StatsOf(h, c.labelOf, tag), m) == if LastPut(h, m).Some? then LastPut(h, m) else GaugeOf(NO_STATS, m)
  {
    if h != [] {
      FoldGauge(c, h[..|h| - 1], tag, m);
      AfterGauge(StatsOf(h[..|h| - 1], c.labelOf, tag), h[|h| - 1].run, m);
    }
  }

  ghost predicate Sets(h: seq<Recorded>, m: Metric) {
    exists j :: 0 <= j < |h| && PutOf(h[j].run, m).Some?
  }

  lemma {:induction false} LastPutIffSet(h: seq<Recorded>, m: Metric)
    ensures LastPut(h, m).Some? <==> Sets(h, m)
  {
    if h != [] {
      var front := h[..|h| - 1];
      LastPutIffSet(front, m);
      if Sets(front, m) {
        var j :| 0 <= j < |front| && PutOf(front[j].run, m).Some?;
        assert PutOf(h[j].run, m).Some?;
      }
      if Sets(h, m) && PutOf(h[|h| - 1].run, m).None? {
        var j :| 0 <= j < |h| && PutOf(h[j].run, m).Some?;
        assert PutOf(front[j].run, m).Some?;
      }
    }
  }

  lemma SameRunsSetTheSame(a: seq<Recorded>, b: seq<Recorded>, m: Metric)
    requires multiset(a) == multiset(b)
    ensures Sets(a, m) <==> Sets(b, m)
  {
    if Sets(a, m) {
      var j :| 0 <= j < |a| && PutOf(a[j].run, m).Some?;
      assert a[j] in multiset(b);
    }
    if Sets(b, m) {
      var j :| 0 <= j < |b| && PutOf(b[j].run, m).Some?;
      assert b[j] in multiset(a);
    }
  }

  // ------------------------------------------------------------- the condition

  /** For every gauge that some run sets, one of those runs. */
  ghost predicate IsChoice(h: seq<Recorded>, last: map<Metric, nat>) {
    && (forall m :: m in last <==> IsGauge(m) && Sets(h, m))
    && (forall m :: m in last ==> last[m] < |h| && PutOf(h[last[m]].run, m).Some?)
  }

  /** The runs in some order, which leaves every gauge at its chosen run's value. */
  ghost predicate IsOrderFor(order: seq<Recorded>, h: seq<Recorded>, last: map<Metric, nat>)
    requires IsChoice(h, last)
  {
    multiset(order) == multiset(h) && forall m :: m in last ==> LastPut(order, m) == PutOf(h[last[m]].run, m)
  }

  /** However the runs are chosen, gauge by gauge, some order gives those values. */
  ghost predicate EveryChoiceIsAnOrder(h: seq<Recorded>) {
    forall last :: IsChoice(h, last) ==> exists order :: IsOrderFor(order, h, last)
  }

  /** The two runs set this gauge to different values. */
  predicate Clash(a: Run, b: Run, m: Metric) {
    IsGauge(m) && PutOf(a, m).Some? && PutOf(b, m).Some? && PutOf(a, m) != PutOf(b, m)
  }

  /** Two of the runs set this gauge to different values. */
  ghost predicate Varies(h: seq<Recorded>, m: Metric) {
    exists i, j :: 0 <= i < |h| && 0 <= j < |h| && Clash(h[i].run, h[j].run, m)
  }

  /** The runs with number `j` moved to the end. */
  function MovedLast(h: seq<Recorded>, j: nat): (order: seq<Recorded>)
    requires j < |h|
    ensures |order| == |h| && order[|h| - 1] == h[j] && multiset(order) == multiset(h)
  {
    assert h == h[..j] + ([h[j]] + h[j + 1..]);
    h[..j] + h[j + 1..] + [h[j]]
  }

  lemma {:induction false} LastPutIsSomeones(h: seq<Recorded>, m: Metric) returns (j: nat)
    requires LastPut(h, m).Some?
    ensures j < |h| && LastPut(h, m) == PutOf(h[j].run, m)
  {
    if PutOf(h[|h| - 1].run, m).Some? {
      j := |h| - 1;
    } else {
      j := LastPutIsSomeones(h[..|h| - 1], m);
    }
  }

  /** A gauge that does not vary ends at its one value in any order. */
  lemma SteadyGauge(h: seq<Recorded>, order: seq<Recorded>, m: Metric, j: nat)
    requires multiset(order) == multiset(h) && IsGauge(m) && !Varies(h, m) && j < |h| && PutOf(h[j].run, m).Some?
    ensures LastPut(order, m) == PutOf(h[j].run, m)
  {
    SameRunsSetTheSame(order, h, m);
    LastPutIffSet(order, m);
    var k := LastPutIsSomeones(order, m);
    assert order[k] in multiset(h);
    var i :| 0 <= i < |h| && h[i] == order[k];
    assert !Clash(h[i].run, h[j].run, m);
  }

  /** The condition holds when the runs differ in one gauge at most. */
  lemma OneVaryingGaugeIsEnough(h: seq<Recorded>)
    requires forall m, n :: Varies(h, m) && Varies(h, n) ==> m == n
    ensures EveryChoiceIsAnOrder(h)
  {
    forall last | IsChoice(h, last) ensures exists order :: IsOrderFor(order, h, last) {
      var order := h;
      if v :| Varies(h, v) {
        assert v in last;
        order := MovedLast(h, last[v]);
      }
      forall m | m in last ensures LastPut(order, m) == PutOf(h[last[m]].run, m) {
        if !Varies(h, m) {
          SteadyGauge(h, order, m, last[m]);
        }
      }
      assert IsOrderFor(order, h, last);
    }
  }

  // ------------------------------------------------------------------- two runs

  ghost predicate ClashOnce(a: Run, b: Run) {
    forall m, n :: Clash(a, b, m) && Clash(a, b, n) ==> m == n
  }

  /** The choice that gives the first run gauge `m`, and the second all others it
      sets. */
  ghost function FirstOnlyAt(a: Recorded, b: Recorded, m: Metric): map<Metric, nat> {
    map g: Metric | IsGauge(g) && Sets([a, b], g) :: if g == m || PutOf(b.run, g).None? then 0 else 1
  }

  lemma FirstOnlyIsAChoice(a: Recorded, b: Recorded, m: Metric, n: Metric)
    requires Clash(a.run, b.run, m) && Clash(a.run, b.run, n) && m != n
    ensures IsChoice([a, b], FirstOnlyAt(a, b, m))
    ensures m in FirstOnlyAt(a, b, m) && FirstOnlyAt(a, b, m)[m] == 0
    ensures n in FirstOnlyAt(a, b, m) && FirstOnlyAt(a, b, m)[n] == 1
  {
    var h := [a, b];
    assert PutOf(h[0].run, m).Some? && PutOf(h[1].run, n).Some?;
  }

  lemma TwoOrders(order: seq<Recorded>, a: Recorded, b: Recorded)
    requires multiset(order) == multiset([a, b])
    ensures order == [a, b] || order == [b, a]
  {
    assert |order| == |multiset(order)| == 2;
    assert order == [order[0], order[1]];
    assert order[0] in multiset([a, b]) && order[1] in multiset([a, b]);
    if order[0] == order[1] {
      assert multiset(order)[a] == multiset([a, b])[a] && multiset(order)[b] == multiset([a, b])[b];
    }
  }

  lemma LastOfTwo(x: Recorded, y: Recorded, m: Metric)
    requires PutOf(y.run, m).Some?
    ensures LastPut([x, y], m) == PutOf(y.run, m)
  {
  }

  lemma NoOrderForTheSplit(a: Recorded, b: Recorded, m: Metric, n: Metric, order: seq<Recorded>)
    requires Clash(a.run, b.run, m) && Clash(a.run, b.run, n) && m != n
    ensures IsChoice([a, b], FirstOnlyAt(a, b, m)) && !IsOrderFor(order, [a, b], FirstOnlyAt(a, b, m))
  {
    FirstOnlyIsAChoice(a, b, m, n);
    if multiset(order) == multiset([a, b]) {
      TwoOrders(order, a, b);
      LastOfTwo(a, b, m);
      LastOfTwo(b, a, n);
    }
  }

  lemma VariesIsAClash(a: Recorded, b: Recorded, m: Metric)
    requires Varies([a, b], m)
    ensures Clash(a.run, b.run, m)
  {
  }

  /** For two runs the condition is that they clash in one gauge at most. */
  lemma TwoRunsConditionIffClashOnce(a: Recorded, b: Recorded)
    ensures EveryChoiceIsAnOrder([a, b]) <==> ClashOnce(a.run, b.run)
  {
    if ClashOnce(a.run, b.run) {
      forall m, n | Varies([a, b], m) && Varies([a, b], n) ensures m == n {
        VariesIsAClash(a, b, m);
        VariesIsAClash(a, b, n);
      }
      OneVaryingGaugeIsEnough([a, b]);
    } else {
      var m, n :| Clash(a.run, b.run, m) && Clash(a.run, b.run, n) && m != n;
      FirstOnlyIsAChoice(a, b, m, n);
      forall order ensures !IsOrderFor(order, [a, b], FirstOnlyAt(a, b, m)) {
        NoOrderForTheSplit(a, b, m, n, order);
      }
    }
  }
}
