/** The metrics collector, its methods run one at a time: a per-URL cache of
    handles onto children that URLs with the same label share. */
module Metrics {

  datatype Option<T> = None | Some(value: T)

  /** The per-target series, and the errors counter (labelled by class). */
  datatype Metric = Up | StatusCode | Latency | LastRun | TlsExpiry | RunsUp | RunsDown | Errors

  datatype Key = Key(metric: Metric, tag: string)

  const NO_ERROR := ""
  const UNKNOWN := "unknown"

  datatype Observation = Observation(
    up: bool, statusCode: int, latencyMs: int, observedAt: Option<real>, tlsExpiry: Option<real>, errorClass: string)

  /** One finished run: an error, or an observation; `now` is the collector's
      clock. */
  datatype Run = Failed(now: real) | Observed(obs: Observation, now: real)

  datatype Recorded = Recorded(url: string, run: Run)

  /** What the exported series of one label say. */
  datatype Stats = Stats(
    up: real, statusCode: real, latency: real, last: real, runsUp: real, runsDown: real, tls: Option<real>)

  const NO_STATS := Stats(0.0, 0.0, 0.0, 0.0, 0.0, 0.0, None)

  function Seconds(latencyMs: int): real { (latencyMs as real) / 1000.0 }

  function After(s: Stats, run: Run): Stats {
    match run
    case Failed(now) => s.(up := 0.0, statusCode := 0.0, last := now, runsDown := s.runsDown + 1.0)
    case Observed(o, now) =>
      Stats(
        if o.up then 1.0 else 0.0, o.statusCode as real, Seconds(o.latencyMs),
        if o.observedAt.Some? then o.observedAt.value else now,
        if o.up then s.runsUp + 1.0 else s.runsUp,
        if o.up then s.runsDown else s.runsDown + 1.0,
        if o.tlsExpiry.Some? then o.tlsExpiry else s.tls)
  }

  /** The fold of a history, for one label. */
  function StatsOf(history: seq<Recorded>, labelOf: string -> string, tag: string): Stats {
    if history == [] then NO_STATS
    else
      var before := StatsOf(history[..|history| - 1], labelOf, tag);
      var r := history[|history| - 1];
      if labelOf(r.url) == tag then After(before, r.run) else before
  }

  /** The class an errors_total increment goes to, if there is one. */
  function ClassOf(run: Run, classes: seq<string>): Option<string> {
    match run
    case Failed(_) => Some(UNKNOWN)
    case Observed(o, _) =>
      if o.errorClass == NO_ERROR then None else if o.errorClass in classes then Some(o.errorClass) else Some(UNKNOWN)
  }

  function ErrorsOf(history: seq<Recorded>, classes: seq<string>, errorClass: string): nat {
    if history == [] then 0
    else
      var before := ErrorsOf(history[..|history| - 1], classes, errorClass);
      if ClassOf(history[|history| - 1].run, classes) == Some(errorClass) then before + 1 else before
  }

  function ErrorTotal(history: seq<Recorded>, classes: seq<string>, n: nat): nat
    requires n <= |classes|
  {
    if n == 0 then 0 else ErrorTotal(history, classes, n - 1) + ErrorsOf(history, classes, classes[n - 1])
  }

  /** Run errors plus observations with an error class. */
  function Troubled(history: seq<Recorded>): nat {
    if history == [] then 0
    else Troubled(history[..|history| - 1]) +
         match history[|history| - 1].run
         case Failed(_) => 1
         case Observed(o, _) => if o.errorClass != NO_ERROR then 1 else 0
  }

  ghost predicate GoodClasses(classes: seq<string>) {
    && (forall i, j :: 0 <= i < j < |classes| ==> classes[i] != classes[j])
    && UNKNOWN in classes && NO_ERROR !in classes
  }

  lemma {:induction false} ErrorTotalGrows(history: seq<Recorded>, r: Recorded, classes: seq<string>, n: nat)
    requires n <= |classes| && GoodClasses(classes)
    ensures ErrorTotal(history + [r], classes, n) == ErrorTotal(history, classes, n)
      + if ClassOf(r.run, classes).Some? && ClassOf(r.run, classes).value in classes[..n] then 1 else 0
  {
    if n > 0 {
      ErrorTotalGrows(history, r, classes, n - 1);
      assert (history + [r])[..|history|] == history;
      assert classes[..n] == classes[..n - 1] + [classes[n - 1]];
      assert classes[n - 1] !in classes[..n - 1];
    }
  }

  lemma {:induction false} NoErrorsYet(classes: seq<string>, n: nat)
    requires n <= |classes|
    ensures ErrorTotal([], classes, n) == 0
  {
    if n > 0 {
      NoErrorsYet(classes, n - 1);
    }
  }

  /** errors_total summed over its classes counts every run error and every
      observation with a class, once each: an unlisted class is folded into
      "unknown", not lost. */
  lemma {:induction false} ErrorsSumUp(history: seq<Recorded>, classes: seq<string>)
    requires GoodClasses(classes)
    ensures ErrorTotal(history, classes, |classes|) == Troubled(history)
  {
    if history == [] {
      NoErrorsYet(classes, |classes|);
    } else {
      var before, r := history[..|history| - 1], history[|history| - 1];
      ErrorsSumUp(before, classes);
      ErrorTotalGrows(before, r, classes, |classes|);
      assert before + [r] == history;
      assert classes[..|classes|] == classes;
    }
  }

  // ------------------------------------------------------- what the folds mean

  /** Observations with this error class. */
  function ObservationsWith(history: seq<Recorded>, errorClass: string): nat {
    if history == [] then 0
    else ObservationsWith(history[..|history| - 1], errorClass) +
         match history[|history| - 1].run
         case Failed(_) => 0
         case Observed(o, _) => if o.errorClass == errorClass then 1 else 0
  }

  /** Runs that ended in an error, without an observation. */
  function FailedRuns(history: seq<Recorded>): nat {
    if history == [] then 0
    else FailedRuns(history[..|history| - 1]) + if history[|history| - 1].run.Failed? then 1 else 0
  }

  /** Observations with an error class outside the closed set. */
  function Unlisted(history: seq<Recorded>, classes: seq<string>): nat {
    if history == [] then 0
    else Unlisted(history[..|history| - 1], classes) +
         match history[|history| - 1].run
         case Failed(_) => 0
         case Observed(o, _) => if o.errorClass != NO_ERROR && o.errorClass !in classes then 1 else 0
  }

  /** The observations of the class; for "unknown" also the failed runs and the
      observations of unlisted classes. */
  function InClass(history: seq<Recorded>, classes: seq<string>, errorClass: string): nat {
    ObservationsWith(history, errorClass)
    + if errorClass == UNKNOWN then FailedRuns(history) + Unlisted(history, classes) else 0
  }

  /** Each class counts its own observations, and only "unknown" others. */
  lemma {:induction false} ErrorsByClass(history: seq<Recorded>, classes: seq<string>, errorClass: string)
    requires GoodClasses(classes) && errorClass in classes
    ensures ErrorsOf(history, classes, errorClass) == InClass(history, classes, errorClass)
  {
    if history != [] {
      ErrorsByClass(history[..|history| - 1], classes, errorClass);
    }
  }

  /** What a run does to its label's statistics: a failed one leaves latency and
      certificate expiry alone; a time of its own comes before the clock's; one
      counter of the two goes up by one. */
  predicate Shows(before: Stats, run: Run, after: Stats) {
    && after.runsUp + after.runsDown == before.runsUp + before.runsDown + 1.0
    && match run
       case Failed(now) =>
         && after.up == 0.0 && after.statusCode == 0.0 && after.last == now
         && after.latency == before.latency && after.tls == before.tls && after.runsUp == before.runsUp
       case Observed(o, now) =>
         && (o.up ==> after.up == 1.0 && after.runsUp == before.runsUp + 1.0)
         && (!o.up ==> after.up == 0.0 && after.runsUp == before.runsUp)
         && after.statusCode == o.statusCode as real && after.latency * 1000.0 == o.latencyMs as real
         && (match o.observedAt case Some(at) => after.last == at case None => after.last == now)
         && (match o.tlsExpiry case Some(at) => after.tls == Some(at) case None => after.tls == before.tls)
  }

  lemma AfterShows(s: Stats, run: Run)
    ensures Shows(s, run, After(s, run))
  {
  }

  /** The runs of a label. */
  function RunsWith(history: seq<Recorded>, labelOf: string -> string, tag: string): nat {
    if history == [] then 0
    else RunsWith(history[..|history| - 1], labelOf, tag) + if labelOf(history[|history| - 1].url) == tag then 1 else 0
  }

  predicate SawUp(run: Run) { run.Observed? && run.obs.up }

  function UpRunsWith(history: seq<Recorded>, labelOf: string -> string, tag: string): nat {
    if history == [] then 0
    else
      var r := history[|history| - 1];
      UpRunsWith(history[..|history| - 1], labelOf, tag) + if labelOf(r.url) == tag && SawUp(r.run) then 1 else 0
  }

  /** runs_total counts the label's runs, up and down. */
  lemma {:induction false} RunsAreCounted(history: seq<Recorded>, labelOf: string -> string, tag: string)
    ensures var st := StatsOf(history, labelOf, tag);
      && st.runsUp == UpRunsWith(history, labelOf, tag) as real
      && st.runsUp + st.runsDown == RunsWith(history, labelOf, tag) as real
  {
    if history != [] {
      RunsAreCounted(history[..|history| - 1], labelOf, tag);
    }
  }

  /** The gauges of a label show its last run, on top of what its earlier runs
      left; the runs of other labels after it change nothing. */
  lemma {:induction false} LabelShowsItsLastRun(history: seq<Recorded>, labelOf: string -> string, tag: string, i: nat)
    requires i < |history| && labelOf(history[i].url) == tag
    requires forall j :: i < j < |history| ==> labelOf(history[j].url) != tag
    ensures Shows(StatsOf(history[..i], labelOf, tag), history[i].run, StatsOf(history, labelOf, tag))
  {
    var n := |history| - 1;
    if i == n {
      AfterShows(StatsOf(history[..n], labelOf, tag), history[n].run);
    } else {
      LabelShowsItsLastRun(history[..n], labelOf, tag, i);
      assert history[..n][..i] == history[..i];
    }
  }

  /** A label without runs shows nothing. */
  lemma {:induction false} NoRunsNoStats(history: seq<Recorded>, labelOf: string -> string, tag: string)
    requires forall j :: 0 <= j < |history| ==> labelOf(history[j].url) != tag
    ensures StatsOf(history, labelOf, tag) == Stats(0.0, 0.0, 0.0, 0.0, 0.0, 0.0, None)
  {
    if history != [] {
      NoRunsNoStats(history[..|history| - 1], labelOf, tag);
    }
  }

  // ------------------------------------------------------- the exported values

  type Values = map<Key, real>

  function ValueOf(m: Values, k: Key): real { if k in m then m[k] else 0.0 }

  /** What a scrape reads for one label. */
  function Scrape(m: Values, tag: string): Stats {
    Stats(
      ValueOf(m, Key(Up, tag)), ValueOf(m, Key(StatusCode, tag)), ValueOf(m, Key(Latency, tag)),
      ValueOf(m, Key(LastRun, tag)), ValueOf(m, Key(RunsUp, tag)), ValueOf(m, Key(RunsDown, tag)),
      if Key(TlsExpiry, tag) in m then Some(m[Key(TlsExpiry, tag)]) else None)
  }

  /** The values agree with the history, label by label and class by class. */
  ghost predicate Agree(m: Values, history: seq<Recorded>, labelOf: string -> string, perTarget: bool, classes: seq<string>) {
    && (forall tag :: Scrape(m, tag) == if perTarget then StatsOf(history, labelOf, tag) else NO_STATS)
    && (forall c :: c in classes ==> Key(Errors, c) in m && m[Key(Errors, c)] == ErrorsOf(history, classes, c) as real)
  }

  /** A child that nobody has written yet changes no scrape. */
  lemma NewChildKeepsAgreement(m: Values, k: Key, history: seq<Recorded>, labelOf: string -> string, perTarget: bool, classes: seq<string>)
    requires Agree(m, history, labelOf, perTarget, classes) && k !in m && k.metric != TlsExpiry
    ensures Agree(m[k := 0.0], history, labelOf, perTarget, classes)
  {
    var m' := m[k := 0.0];
    forall tag ensures Scrape(m', tag) == Scrape(m, tag) {}
    forall c | c in classes ensures Key(Errors, c) in m' && m'[Key(Errors, c)] == ErrorsOf(history, classes, c) as real {
      assert Key(Errors, c) in m;
    }
    assert forall tag :: Scrape(m', tag) == if perTarget then StatsOf(history, labelOf, tag) else NO_STATS;
  }

  function WithError(m: Values, run: Run, classes: seq<string>): Values {
    match ClassOf(run, classes)
    case None => m
    case Some(c) => m[Key(Errors, c) := ValueOf(m, Key(Errors, c)) + 1.0]
  }

  /** Whether the run was up, in the gauge and in the counters. */
  function WithStatus(m: Values, tag: string, up: bool): Values {
    var runs := if up then Key(RunsUp, tag) else Key(RunsDown, tag);
    m[Key(Up, tag) := if up then 1.0 else 0.0][runs := ValueOf(m, runs) + 1.0]
  }

  function WithGauges(m: Values, tag: string, statusCode: real, latency: real, at: real): Values {
    m[Key(StatusCode, tag) := statusCode][Key(Latency, tag) := latency][Key(LastRun, tag) := at]
  }

  /** The writes of one run to the basic series of its label. */
  function WithBasics(m: Values, tag: string, run: Run): Values {
    match run
    case Failed(now) => WithStatus(m, tag, false)[Key(StatusCode, tag) := 0.0][Key(LastRun, tag) := now]
    case Observed(o, now) =>
      var at := if o.observedAt.Some? then o.observedAt.value else now;
      WithGauges(WithStatus(m, tag, o.up), tag, o.statusCode as real, Seconds(o.latencyMs), at)
  }

  /** The certificate expiry a run brings, if it does. */
  function ExpiryOf(run: Run): Option<real> {
    match run
    case Failed(_) => None
    case Observed(o, _) => o.tlsExpiry
  }

  /** All writes of one run to the series of its label. */
  function WithRun(m: Values, tag: string, run: Run): Values {
    var w := WithBasics(m, tag, run);
    if ExpiryOf(run).Some? then w[Key(TlsExpiry, tag) := ExpiryOf(run).value] else w
  }

  lemma RunUpdatesItsLabelOnly(m: Values, tag: string, run: Run, other: string)
    ensures Scrape(WithRun(m, tag, run), other) == if other == tag then After(Scrape(m, tag), run) else Scrape(m, other)
  {
  }

  /** One recorded run moves the values as it moves the history. */
  lemma RecordingKeepsAgreement(m: Values, history: seq<Recorded>, labelOf: string -> string, perTarget: bool, classes: seq<string>, r: Recorded)
    requires GoodClasses(classes) && Agree(m, history, labelOf, perTarget, classes)
    ensures var e := WithError(m, r.run, classes);
      Agree(if perTarget then WithRun(e, labelOf(r.url), r.run) else e, history + [r], labelOf, perTarget, classes)
  {
    var e := WithError(m, r.run, classes);
    var m' := if perTarget then WithRun(e, labelOf(r.url), r.run) else e;
    assert (history + [r])[..|history|] == history;
    forall tag ensures Scrape(m', tag) == if perTarget then StatsOf(history + [r], labelOf, tag) else NO_STATS {
      assert Scrape(e, tag) == Scrape(m, tag);
      if perTarget {
        RunUpdatesItsLabelOnly(e, labelOf(r.url), r.run, tag);
      }
    }
  }

  // --------------------------------------------------------------- the collector

  /** One child of a vec: the gauge or counter of one label. */
  class Child {
    const key: Key
    var value: real

    constructor (key: Key)
      ensures this.key == key && value == 0.0
    {
      this.key, value := key, 0.0;
    }
  }

  /** The per-target series that exist from the first run on. */
  const BASIC: seq<Metric> := [Up, StatusCode, Latency, LastRun, RunsUp, RunsDown]

  /** One URL's handles, resolved once; `tls` on the first expiry seen. */
  class Series {
    const tag: string
    const handles: map<Metric, Child>
    var tls: Child?

    constructor (tag: string, handles: map<Metric, Child>)
      ensures this.tag == tag && this.handles == handles && tls == null
    {
      this.tag, this.handles, tls := tag, handles, null;
    }
  }

  type Children = map<Key, Child>

  /** `c` is the child of that key. */
  ghost predicate Handle(children: Children, k: Key, c: Child) {
    k in children && children[k] == c
  }

  /** The handles of a series are the children of its label. */
  ghost predicate Wired(children: Children, ts: Series)
    reads ts
  {
    && (forall m :: m in BASIC ==> m in ts.handles && Handle(children, Key(m, ts.tag), ts.handles[m]))
    && (ts.tls != null ==> Handle(children, Key(TlsExpiry, ts.tag), ts.tls))
  }

  /** Children are added, never replaced. */
  ghost predicate Kept(before: Children, after: Children) {
    forall k :: k in before ==> k in after && after[k] == before[k]
  }

  lemma WiringSurvives(before: Children, after: Children, ts: Series)
    requires Kept(before, after) && Wired(before, ts)
    ensures Wired(after, ts)
  {
  }

  class Collector {
    const labelOf: string -> string
    const classes: seq<string>
    const perTarget: bool
    var children: map<Key, Child>
    var byURL: map<string, Series>
    ghost var made: set<Child>
    ghost var history: seq<Recorded>

    /** No two keys have the same child; `made` are all the children. */
    ghost predicate Unshared()
      reads this
    {
      forall k :: k in children ==> children[k] in made && children[k].key == k
    }

    ghost function Exported(): (m: Values)
      requires Unshared()
      reads this, made
      ensures m.Keys == children.Keys
    {
      map k | k in children :: children[k].value
    }

    /** Every cached series holds the children of its URL's label. */
    ghost predicate CacheWired()
      reads this, byURL.Values
    {
      forall url :: url in byURL ==> byURL[url].tag == labelOf(url) && Wired(children, byURL[url])
    }

    ghost predicate Valid()
      reads this, made, byURL.Values
    {
      && GoodClasses(classes) && Unshared() && CacheWired()
      && Agree(Exported(), history, labelOf, perTarget, classes)
    }

    /** `New`: no per-target series yet, every error class at zero. */
    constructor (labelOf: string -> string, classes: seq<string>, perTarget: bool)
      requires GoodClasses(classes)
      ensures Valid() && history == [] && byURL == map[]
      ensures this.labelOf == labelOf && this.classes == classes && this.perTarget == perTarget
    {
      var start: map<Key, Child> := map[];
      for i := 0 to |classes|
        invariant forall k :: k in start ==> k.metric == Errors && start[k].key == k && start[k].value == 0.0 && fresh(start[k])
        invariant forall j :: 0 <= j < i ==> Key(Errors, classes[j]) in start
      {
        var c := new Child(Key(Errors, classes[i]));
        start := start[Key(Errors, classes[i]) := c];
      }
      this.labelOf, this.classes, this.perTarget := labelOf, classes, perTarget;
      children, byURL, history := start, map[], [];
      made := start.Values;
    }

    /** The vec's child for a label, made on first use: the same one for
        everybody who asks. */
    method GetOrMake(k: Key) returns (c: Child)
      requires Unshared()
      modifies this`children, this`made
      ensures Unshared() && k in children && children[k] == c && fresh(made - old(made))
      ensures if k in old(children) then children == old(children) && made == old(made) else children == old(children)[k := c] && fresh(c)
      ensures k !in old(children) ==> Exported() == old(Exported())[k := 0.0]
    {
      if k in children {
        return children[k];
      }
      c := new Child(k);
      children, made := children[k := c], made + {c};
    }

    /** The same as part of a valid collector; not for the tls gauge, which must
        not exist before it has a value. */
    method WithLabel(k: Key) returns (c: Child)
      requires Valid() && k.metric != TlsExpiry
      modifies this`children, this`made
      ensures Valid() && k in children && children[k] == c
      ensures Kept(old(children), children) && fresh(made - old(made))
    {
      ghost var before := Exported();
      c := GetOrMake(k);
      forall url | url in byURL ensures Wired(children, byURL[url]) {
        WiringSurvives(old(children), children, byURL[url]);
      }
      if k !in before {
        NewChildKeepsAgreement(before, k, history, labelOf, perTarget, classes);
      }
    }

    /** The first half of `series`: the cached handles, if any. */
    method Lookup(url: string) returns (ts: Series?)
      requires Valid()
      ensures ts != null ==> url in byURL && ts == byURL[url] && ts.tag == labelOf(url) && Wired(children, ts)
      ensures ts == null <==> url !in byURL
    {
      ts := if url in byURL then byURL[url] else null;
    }

    /** The middle, outside the lock: handles of our own onto the children that
        everybody else with this label has. */
    method Resolve(url: string) returns (ts: Series)
      requires Valid()
      modifies this`children, this`made
      ensures Valid() && fresh(ts) && ts.tag == labelOf(url) && Wired(children, ts)
      ensures Kept(old(children), children) && fresh(made - old(made))
    {
      var tag := labelOf(url);
      var handles: map<Metric, Child> := map[];
      for i := 0 to |BASIC|
        invariant Valid() && Kept(old(children), children) && fresh(made - old(made))
        invariant forall j :: 0 <= j < i ==> BASIC[j] in handles && Handle(children, Key(BASIC[j], tag), handles[BASIC[j]])
      {
        ghost var before := children;
        var c := WithLabel(Key(BASIC[i], tag));
        forall j | 0 <= j < i ensures Handle(children, Key(BASIC[j], tag), handles[BASIC[j]]) {
          assert Handle(before, Key(BASIC[j], tag), handles[BASIC[j]]);
        }
        handles := handles[BASIC[i] := c];
      }
      ts := new Series(tag, handles);
    }

    /** The end, under the lock: first come, first cached. */
    method Install(url: string, ts: Series) returns (cached: Series)
      requires Valid() && ts.tag == labelOf(url) && Wired(children, ts)
      modifies this`byURL
      ensures Valid() && url in byURL && byURL[url] == cached && cached.tag == labelOf(url) && Wired(children, cached)
      ensures if url in old(byURL) then byURL == old(byURL) else byURL == old(byURL)[url := ts]
    {
      if url in byURL {
        return byURL[url];
      }
      ghost var values := Exported();
      byURL := byURL[url := ts];
      assert Exported() == values;
      return ts;
    }

    /** Set one child. */
    method Set(c: Child, v: real)
      requires Unshared() && Handle(children, c.key, c)
      modifies c
      ensures Exported() == old(Exported())[c.key := v]
    {
      c.value := v;
    }

    /** Add one to a counter. */
    method Inc(c: Child)
      requires Unshared() && Handle(children, c.key, c)
      modifies c
      ensures Exported() == old(Exported())[c.key := old(ValueOf(Exported(), c.key)) + 1.0]
    {
      c.value := c.value + 1.0;
    }

    /** The errors_total increment, if the run calls for one. */
    method CountError(run: Run)
      requires Unshared() && UNKNOWN in classes && (forall c :: c in classes ==> Key(Errors, c) in children)
      modifies made
      ensures Exported() == WithError(old(Exported()), run, classes)
    {
      match run
      case Failed(_) =>
        Inc(children[Key(Errors, UNKNOWN)]);
      case Observed(o, _) =>
        if o.errorClass != NO_ERROR {
          var c := if o.errorClass in classes then o.errorClass else UNKNOWN;
          Inc(children[Key(Errors, c)]);
        }
    }

    /** The tls child, made on the first expiry. */
    method TlsGauge(ts: Series) returns (c: Child)
      requires Unshared() && Wired(children, ts)
      modifies this`children, this`made, ts`tls
      ensures Unshared() && Wired(children, ts) && Kept(old(children), children)
      ensures Handle(children, Key(TlsExpiry, ts.tag), c) && fresh(made - old(made))
      ensures Exported() == old(Exported()) || Exported() == old(Exported())[Key(TlsExpiry, ts.tag) := 0.0]
    {
      if ts.tls != null {
        return ts.tls;
      }
      c := GetOrMake(Key(TlsExpiry, ts.tag));
      ts.tls := c;
    }

    method SetStatus(ts: Series, up: bool)
      requires Unshared() && Wired(children, ts)
      modifies made
      ensures Exported() == WithStatus(old(Exported()), ts.tag, up)
    {
      if up {
        Set(ts.handles[Up], 1.0);
        Inc(ts.handles[RunsUp]);
      } else {
        Set(ts.handles[Up], 0.0);
        Inc(ts.handles[RunsDown]);
      }
    }

    method SetGauges(ts: Series, statusCode: real, latency: real, at: real)
      requires Unshared() && Wired(children, ts)
      modifies made
      ensures Exported() == WithGauges(old(Exported()), ts.tag, statusCode, latency, at)
    {
      Set(ts.handles[StatusCode], statusCode);
      Set(ts.handles[Latency], latency);
      Set(ts.handles[LastRun], at);
    }

    /** The certificate expiry: the child is made with the first one. Cached
        series keep their children. */
    method SetExpiry(ts: Series, expiry: real)
      requires Unshared() && CacheWired() && Wired(children, ts)
      modifies this`children, this`made, made, ts`tls
      ensures Unshared() && CacheWired() && Wired(children, ts)
      ensures Kept(old(children), children) && fresh(made - old(made))
      ensures Exported() == old(Exported())[Key(TlsExpiry, ts.tag) := expiry]
    {
      var c := TlsGauge(ts);
      forall url | url in byURL ensures Wired(children, byURL[url]) {
        if byURL[url] != ts {
          WiringSurvives(old(children), children, byURL[url]);
        }
      }
      Set(c, expiry);
    }

    /** The writes of one run to its label's basic series. */
    method UpdateBasics(ts: Series, run: Run)
      requires Unshared() && Wired(children, ts)
      modifies made
      ensures Exported() == WithBasics(old(Exported()), ts.tag, run)
    {
      match run
      case Failed(now) =>
        SetStatus(ts, false);
        Set(ts.handles[StatusCode], 0.0);
        Set(ts.handles[LastRun], now);
      case Observed(o, now) =>
        SetStatus(ts, o.up);
        var at := if o.observedAt.Some? then o.observedAt.value else now;
        SetGauges(ts, o.statusCode as real, Seconds(o.latencyMs), at);
    }

    /** All writes of one run to its label's series. */
    method UpdateSeries(ts: Series, run: Run)
      requires Unshared() && CacheWired() && Wired(children, ts)
      modifies this`children, this`made, made, ts`tls
      ensures Unshared() && CacheWired() && Wired(children, ts)
      ensures Kept(old(children), children) && fresh(made - old(made))
      ensures Exported() == WithRun(old(Exported()), ts.tag, run)
    {
      UpdateBasics(ts, run);
      var expiry := ExpiryOf(run);
      if expiry.Some? {
        SetExpiry(ts, expiry.value);
      }
    }

    /** All writes of one run; `ts` is null when there are no per-target
        series. */
    method WriteValues(ts: Series?, run: Run)
      requires Unshared() && CacheWired() && (ts != null ==> Wired(children, ts))
      requires UNKNOWN in classes && (forall c :: c in classes ==> Key(Errors, c) in children)
      modifies this`children, this`made, made, if ts == null then {} else {ts}
      ensures Unshared() && CacheWired() && (ts != null ==> Wired(children, ts))
      ensures Kept(old(children), children) && fresh(made - old(made))
      ensures var e := WithError(old(Exported()), run, classes);
        Exported() == if ts == null then e else WithRun(e, ts.tag, run)
    {
      CountError(run);
      if ts != null {
        UpdateSeries(ts, run);
      }
    }

    /** After the writes the values agree with the longer history. */
    method WriteNoted(ts: Series?, url: string, run: Run)
      requires Valid() && (perTarget <==> ts != null)
      requires ts != null ==> ts.tag == labelOf(url) && Wired(children, ts)
      modifies this`children, this`made, made, if ts == null then {} else {ts}
      ensures Unshared() && CacheWired() && (ts != null ==> Wired(children, ts))
      ensures Kept(old(children), children) && fresh(made - old(made))
      ensures Agree(Exported(), history + [Recorded(url, run)], labelOf, perTarget, classes)
    {
      ghost var e := WithError(Exported(), run, classes);
      ghost var after := if ts == null then e else WithRun(e, ts.tag, run);
      assert Agree(after, history + [Recorded(url, run)], labelOf, perTarget, classes) by {
        RecordingKeepsAgreement(Exported(), history, labelOf, perTarget, classes, Recorded(url, run));
      }
      WriteValues(ts, run);
      assert Exported() == after;
    }

    /** Enter a run whose writes are done. */
    ghost method Note(r: Recorded)
      requires GoodClasses(classes) && Unshared() && CacheWired()
      requires Agree(Exported(), history + [r], labelOf, perTarget, classes)
      modifies this`history
      ensures Valid() && history == old(history) + [r]
    {
      history := history + [r];
      assert Exported() == old(Exported());
    }

    /** The rest of `record`, once the handles are known: whoever resolved them,
        and whatever was cached or recorded in between. */
    method Write(ts: Series?, url: string, run: Run)
      requires Valid() && (perTarget <==> ts != null)
      requires ts != null ==> ts.tag == labelOf(url) && Wired(children, ts)
      modifies this`children, this`made, this`history, made, if ts == null then {} else {ts}
      ensures Valid() && history == old(history) + [Recorded(url, run)]
      ensures Kept(old(children), children) && fresh(made - old(made)) && (ts != null ==> Wired(children, ts))
    {
      WriteNoted(ts, url, run);
      Note(Recorded(url, run));
    }

    /** `series`: the cached handles, made on first use. */
    method SeriesOf(url: string) returns (ts: Series)
      requires Valid()
      modifies this`children, this`made, this`byURL
      ensures Valid() && fresh(made - old(made)) && Kept(old(children), children)
      ensures ts.tag == labelOf(url) && Wired(children, ts) && (ts in old(byURL.Values) || fresh(ts))
      ensures url in byURL && byURL[url] == ts && byURL == old(byURL)[url := ts]
    {
      var cached := Lookup(url);
      if cached != null {
        return cached;
      }
      var mine := Resolve(url);
      ts := Install(url, mine);
    }

    /** errors_total, class by class. */
    lemma ErrorsAreExported()
      requires Valid()
      ensures forall c :: c in classes ==>
        Key(Errors, c) in Exported() && Exported()[Key(Errors, c)] == InClass(history, classes, c) as real
    {
      forall c | c in classes ensures ErrorsOf(history, classes, c) == InClass(history, classes, c) {
        ErrorsByClass(history, classes, c);
      }
    }

    /** A URL that has a cached series has all its label's basic series exported,
        also the counter it has not moved yet. */
    lemma SeriesAreExported(url: string)
      requires Valid() && url in byURL
      ensures forall m :: m in BASIC ==> Key(m, labelOf(url)) in Exported()
    {
      assert Wired(children, byURL[url]);
    }

    /** The exported values show the last run recorded: its label moves as `Shows`
        says, every other label stays. */
    lemma LastRunIsExported(before: Values, earlier: seq<Recorded>, r: Recorded)
      requires Valid() && history == earlier + [r] && perTarget && Agree(before, earlier, labelOf, perTarget, classes)
      ensures Shows(Scrape(before, labelOf(r.url)), r.run, Scrape(Exported(), labelOf(r.url)))
      ensures forall tag :: tag != labelOf(r.url) ==> Scrape(Exported(), tag) == Scrape(before, tag)
    {
      assert history[..|earlier|] == earlier;
      AfterShows(Scrape(before, labelOf(r.url)), r.run);
      forall tag ensures Scrape(before, tag) == StatsOf(earlier, labelOf, tag) && Scrape(Exported(), tag) == StatsOf(history, labelOf, tag) {}
    }

    /** `record`: look up or resolve the handles, then write. */
    method Enter(url: string, run: Run)
      requires Valid()
      modifies this`children, this`made, this`byURL, this`history, made, byURL.Values
      ensures Valid() && history == old(history) + [Recorded(url, run)]
      ensures byURL.Keys == old(byURL.Keys) + if perTarget then {url} else {}
    {
      var ts: Series? := null;
      if perTarget {
        ts := SeriesOf(url);
      }
      Write(ts, url, run);
    }

    /** The same, with what it does to the exported values of the label. */
    method Record(url: string, run: Run)
      requires Valid()
      modifies this`children, this`made, this`byURL, this`history, made, byURL.Values
      ensures Valid() && history == old(history) + [Recorded(url, run)]
      ensures byURL.Keys == old(byURL.Keys) + if perTarget then {url} else {}
      ensures perTarget ==> Shows(old(Scrape(Exported(), labelOf(url))), run, Scrape(Exported(), labelOf(url)))
      ensures forall c :: c in classes ==>
        Key(Errors, c) in Exported() && Exported()[Key(Errors, c)] == InClass(history, classes, c) as real
    {
      ghost var before, earlier := Exported(), history;
      Enter(url, run);
      ErrorsAreExported();
      if perTarget {
        LastRunIsExported(before, earlier, Recorded(url, run));
      }
    }
  }
}
