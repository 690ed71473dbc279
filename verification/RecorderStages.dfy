/** The interleaving that leaves each gauge to a chosen call: gauge by gauge, in
    the order in which every run sets them, all other calls first. */
module RecorderStages {
  import opened Metrics
  import opened Recorders
  import opened RecorderRuns
  import opened RecorderRaces
  import opened RecorderChoices

  // -------------------------------------------- every choice is some end, by rank

  /** The gauge of each rank. */
  function GaugeAt(r: nat): Metric {
    if r == 0 then Up else if r == 1 then StatusCode else if r == 2 then Latency else if r == 3 then LastRun else TlsExpiry
  }

  lemma RankTellsTheGauge(m: Metric)
    requires IsGauge(m)
    ensures Rank(m) < 5 && GaugeAt(Rank(m)) == m
  {
  }

  /** A run's writes: gauges by rank, each once; increments of counters only. */
  ghost predicate IsProgram(all: seq<Write>) {
    && (forall i, j :: 0 <= i < j < |all| && all[i].Put? && all[j].Put? ==> Rank(all[i].m) < Rank(all[j].m))
    && (forall i :: 0 <= i < |all| ==>
          (all[i].Put? ==> IsGauge(all[i].m)) && (all[i].Add? ==> all[i].m.RunsUp? || all[i].m.RunsDown?))
  }

  lemma WritesAreAProgram(c: Config, run: Run)
    ensures IsProgram(Writes(c, run))
  {
    forall i, j | 0 <= i < j < |Writes(c, run)| && Writes(c, run)[i].Put? && Writes(c, run)[j].Put?
      ensures Rank(Writes(c, run)[i].m) < Rank(Writes(c, run)[j].m)
    {
      GaugesAreSetInOrder(c, run, i, j);
    }
    forall i | 0 <= i < |Writes(c, run)|
      ensures Writes(c, run)[i].Put? ==> IsGauge(Writes(c, run)[i].m)
      ensures Writes(c, run)[i].Add? ==> Writes(c, run)[i].m.RunsUp? || Writes(c, run)[i].m.RunsDown?
    {
      WritesFitTheirMetric(c, run, Writes(c, run)[i]);
    }
  }

  /** A call has set its gauges below rank `r` and none from there on. */
  ghost predicate HasPassed(all: seq<Write>, todo: seq<Write>, r: nat) {
    && IsProgram(all) && IsRest(todo, all)
    && (forall i :: 0 <= i < |todo| && todo[i].Put? ==> Rank(todo[i].m) >= r)
    && (forall w :: w in all && w.Put? && Rank(w.m) >= r ==> w in todo)
  }

  /** Where a gauge of this rank is among what is left. */
  ghost predicate IsPutAt(todo: seq<Write>, i: nat, r: nat) {
    i < |todo| && todo[i].Put? && Rank(todo[i].m) == r
  }

  lemma RestOfAProgram(all: seq<Write>, todo: seq<Write>)
    requires IsProgram(all) && IsRest(todo, all)
    ensures IsProgram(todo) && forall i :: 0 <= i < |todo| ==> todo[i] in all
  {
    var d := |all| - |todo|;
    assert forall i :: 0 <= i < |todo| ==> todo[i] == all[d + i];
  }

  /** The next writes of a call, through its gauge of rank `r` if it sets that. */
  lemma PassRank(all: seq<Write>, todo: seq<Write>, r: nat) returns (n: nat)
    requires HasPassed(all, todo, r)
    ensures n <= |todo| && HasPassed(all, todo[n..], r + 1)
    ensures forall i :: 0 <= i < n && todo[i].Put? ==> Rank(todo[i].m) == r
    ensures (exists i: nat :: IsPutAt(todo, i, r)) ==> n > 0 && IsPutAt(todo, n - 1, r)
  {
    RestOfAProgram(all, todo);
    if i: nat :| IsPutAt(todo, i, r) {
      n := i + 1;
    } else {
      n := 0;
      forall k: nat | k < |todo| && todo[k].Put? ensures Rank(todo[k].m) >= r + 1 {
        assert !IsPutAt(todo, k, r);
      }
    }
    LaterPutsRemain(all, todo, n, r);
  }

  lemma LaterPutsRemain(all: seq<Write>, todo: seq<Write>, n: nat, r: nat)
    requires HasPassed(all, todo, r) && n <= |todo|
    requires forall i :: 0 <= i < n && todo[i].Put? ==> Rank(todo[i].m) == r
    ensures IsRest(todo[n..], all)
    ensures forall w :: w in all && w.Put? && Rank(w.m) >= r + 1 ==> w in todo[n..]
  {
    assert todo[n..] == all[|all| - |todo[n..]|..];
    forall w | w in all && w.Put? && Rank(w.m) >= r + 1 ensures w in todo[n..] {
      var i :| 0 <= i < |todo| && todo[i] == w;
      assert todo[n..][i - n] == w;
    }
  }

  /** The last writers of the gauges below rank `r` are as they were. */
  ghost predicate LowKept(before: seq<Logged>, after: seq<Logged>, tag: string, r: nat) {
    && before <= after
    && forall m :: IsGauge(m) && Rank(m) < r ==> LastOn(after, Key(m, tag)) == LastOn(before, Key(m, tag))
  }

  lemma {:induction false} LastStays(log: seq<Logged>, more: seq<Logged>, k: Key)
    requires forall i :: 0 <= i < |more| ==> more[i].key != k
    ensures LastOn(log + more, k) == LastOn(log, k)
  {
    if more == [] {
      assert log + more == log;
    } else {
      LastStays(log, more[..|more| - 1], k);
      assert (log + more)[..|log + more| - 1] == log + more[..|more| - 1];
    }
  }

  lemma LogsKeepLow(log: seq<Logged>, j: nat, tag: string, ws: seq<Write>, r: nat)
    requires IsProgram(ws) && forall i :: 0 <= i < |ws| && ws[i].Put? ==> Rank(ws[i].m) >= r
    ensures LowKept(log, log + Logs(j, tag, ws), tag, r)
  {
    forall m | IsGauge(m) && Rank(m) < r ensures LastOn(log + Logs(j, tag, ws), Key(m, tag)) == LastOn(log, Key(m, tag)) {
      LastStays(log, Logs(j, tag, ws), Key(m, tag));
    }
  }

  lemma LastIsOnTop(log: seq<Logged>, more: seq<Logged>, k: Key)
    requires more != [] && more[|more| - 1].key == k
    ensures LastOn(log + more, k) == |log + more| - 1 && (log + more)[|log + more| - 1] == more[|more| - 1]
  {
  }

  /** These calls, of one label, have been begun and no others. */
  ghost predicate Calls(c: Config, tr: Trace, h: seq<Recorded>, tag: string) {
    IsTrace(c, tr) && AllOf(c, h, tag) && Begun(Last(c, tr).jobs) == h
  }

  lemma DrivingKeepsCalls(c: Config, s: State, t: State, j: nat, n: nat)
    requires Drove(c, s, t, j, n)
    ensures Begun(t.jobs) == Begun(s.jobs)
  {
  }

  ghost predicate JobPassed(s: State, j: nat, r: nat)
    requires j < |s.jobs|
  {
    HasPassed(s.jobs[j].all, s.jobs[j].todo, r)
  }

  /** After `t`, job `j` is the last to have set the gauge of rank `r`. */
  ghost predicate LastAt(s: State, tag: string, r: nat, j: nat) {
    LastOn(s.log, Key(GaugeAt(r), tag)) >= 0 && s.log[LastOn(s.log, Key(GaugeAt(r), tag))].job == j
  }

  /** What driving one call through rank `r` does. */
  ghost predicate Passes(s: State, t: State, tag: string, j: nat, r: nat)
    requires j < |s.jobs|
  {
    && |t.jobs| == |s.jobs| && JobPassed(t, j, r + 1)
    && (forall i :: 0 <= i < |s.jobs| && i != j ==> t.jobs[i] == s.jobs[i])
    && LowKept(s.log, t.log, tag, r)
    && ((exists i: nat :: IsPutAt(s.jobs[j].todo, i, r)) ==> LastAt(t, tag, r, j))
  }

  lemma DroveKeepsLow(c: Config, s: State, t: State, tag: string, j: nat, r: nat, n: nat)
    requires Drove(c, s, t, j, n) && c.labelOf(s.jobs[j].url) == tag && JobPassed(s, j, r)
    ensures LowKept(s.log, t.log, tag, r)
  {
    RestOfAProgram(s.jobs[j].all, s.jobs[j].todo);
    LogsKeepLow(s.log, j, tag, s.jobs[j].todo[..n], r);
  }

  lemma DroveToThePut(c: Config, s: State, t: State, tag: string, j: nat, r: nat, n: nat)
    requires Drove(c, s, t, j, n) && c.labelOf(s.jobs[j].url) == tag && JobPassed(s, j, r)
    requires n > 0 && IsPutAt(s.jobs[j].todo, n - 1, r)
    ensures LastAt(t, tag, r, j)
  {
    var todo := s.jobs[j].todo;
    RestOfAProgram(s.jobs[j].all, todo);
    RankTellsTheGauge(todo[n - 1].m);
    LastIsOnTop(s.log, Logs(j, tag, todo[..n]), Key(GaugeAt(r), tag));
  }

  lemma DrovePasses(c: Config, s: State, t: State, tag: string, j: nat, r: nat, n: nat)
    requires Drove(c, s, t, j, n) && c.labelOf(s.jobs[j].url) == tag && JobPassed(s, j, r)
    requires HasPassed(s.jobs[j].all, s.jobs[j].todo[n..], r + 1)
    requires (exists i: nat :: IsPutAt(s.jobs[j].todo, i, r)) ==> n > 0 && IsPutAt(s.jobs[j].todo, n - 1, r)
    ensures Passes(s, t, tag, j, r)
  {
    DroveKeepsLow(c, s, t, tag, j, r, n);
    if exists i: nat :: IsPutAt(s.jobs[j].todo, i, r) {
      DroveToThePut(c, s, t, tag, j, r, n);
    }
  }

  /** Drive one call through rank `r`. */
  lemma DriveThrough(c: Config, tr: Trace, h: seq<Recorded>, tag: string, j: nat, r: nat) returns (longer: Trace)
    requires Calls(c, tr, h, tag) && j < |h| == |Last(c, tr).jobs| && JobPassed(Last(c, tr), j, r)
    ensures Calls(c, longer, h, tag) && Passes(Last(c, tr), Last(c, longer), tag, j, r)
  {
    var s := Last(c, tr);
    TheJob(s, h, j);
    var n := PassRank(s.jobs[j].all, s.jobs[j].todo, r);
    longer := Drive(c, tr, j, n);
    DrivingKeepsCalls(c, s, Last(c, longer), j, n);
    DrovePasses(c, s, Last(c, longer), tag, j, r, n);
  }

  /** How far each call is while all but one are driven through rank `r`. */
  function Reached(j: nat, k: nat, skip: nat, r: nat): nat {
    if j < k && j != skip then r + 1 else r
  }

  ghost predicate AllReached(s: State, k: nat, skip: nat, r: nat) {
    forall j :: 0 <= j < |s.jobs| ==> HasPassed(s.jobs[j].all, s.jobs[j].todo, Reached(j, k, skip, r))
  }

  lemma OneMoreReached(s: State, t: State, tag: string, k: nat, skip: nat, r: nat)
    requires AllReached(s, k, skip, r) && k < |s.jobs| && k != skip && Passes(s, t, tag, k, r)
    ensures AllReached(t, k + 1, skip, r)
  {
  }

  /** Drive all calls from number `k` on, but one, through rank `r`. */
  lemma {:induction false} OthersThrough(c: Config, tr: Trace, h: seq<Recorded>, tag: string, r: nat, skip: nat, k: nat)
    returns (longer: Trace)
    requires Calls(c, tr, h, tag) && |Last(c, tr).jobs| == |h| && k <= |h| && skip < |h|
    requires AllReached(Last(c, tr), k, skip, r)
    ensures Calls(c, longer, h, tag) && |Last(c, longer).jobs| == |h|
    ensures AllReached(Last(c, longer), |h|, skip, r) && Last(c, longer).jobs[skip] == Last(c, tr).jobs[skip]
    ensures LowKept(Last(c, tr).log, Last(c, longer).log, tag, r)
    decreases |h| - k
  {
    if k == |h| {
      longer := tr;
    } else if k == skip {
      longer := OthersThrough(c, tr, h, tag, r, skip, k + 1);
    } else {
      assert HasPassed(Last(c, tr).jobs[k].all, Last(c, tr).jobs[k].todo, Reached(k, k, skip, r));
      var one := DriveThrough(c, tr, h, tag, k, r);
      OneMoreReached(Last(c, tr), Last(c, one), tag, k, skip, r);
      longer := OthersThrough(c, one, h, tag, r, skip, k + 1);
    }
  }

  /** All calls have passed the ranks below `r`, and the gauges of those ranks were
      set last by the chosen calls. */
  ghost predicate AtRank(s: State, tag: string, last: map<Metric, nat>, r: nat) {
    && (forall j :: 0 <= j < |s.jobs| ==> HasPassed(s.jobs[j].all, s.jobs[j].todo, r))
    && (forall q: nat :: q < r && GaugeAt(q) in last ==> LastAt(s, tag, q, last[GaugeAt(q)]))
  }

  lemma LastAtIsKept(s: State, t: State, tag: string, q: nat, r: nat, j: nat)
    requires q < r <= 5 && LowKept(s.log, t.log, tag, r) && LastAt(s, tag, q, j)
    ensures LastAt(t, tag, q, j)
  {
    RankOfGauge(q);
  }

  /** Both passes of a stage: the others first, then the chosen call. */
  lemma StageKeepsRank(s: State, t: State, u: State, tag: string, last: map<Metric, nat>, r: nat)
    requires r < 5 && AtRank(s, tag, last, r) && GaugeAt(r) in last && last[GaugeAt(r)] < |s.jobs|
    requires |t.jobs| == |s.jobs| && AllReached(t, |t.jobs|, last[GaugeAt(r)], r) && LowKept(s.log, t.log, tag, r)
    requires Passes(t, u, tag, last[GaugeAt(r)], r) && LastAt(u, tag, r, last[GaugeAt(r)])
    ensures AtRank(u, tag, last, r + 1)
  {
    forall q: nat | q < r + 1 && GaugeAt(q) in last ensures LastAt(u, tag, q, last[GaugeAt(q)]) {
      if q < r {
        LastAtIsKept(s, t, tag, q, r, last[GaugeAt(q)]);
        LastAtIsKept(t, u, tag, q, r, last[GaugeAt(q)]);
      }
    }
    forall j | 0 <= j < |u.jobs| ensures HasPassed(u.jobs[j].all, u.jobs[j].todo, r + 1) {
      assert j != last[GaugeAt(r)] ==> u.jobs[j] == t.jobs[j];
      assert HasPassed(t.jobs[j].all, t.jobs[j].todo, Reached(j, |t.jobs|, last[GaugeAt(r)], r));
    }
  }

  lemma StillToDo(all: seq<Write>, todo: seq<Write>, r: nat, w: Write)
    requires HasPassed(all, todo, r) && w in all && w.Put? && Rank(w.m) == r
    ensures exists i: nat :: IsPutAt(todo, i, r)
  {
    var i :| 0 <= i < |todo| && todo[i] == w;
    assert IsPutAt(todo, i, r);
  }

  lemma RankOfGauge(r: nat)
    requires r < 5
    ensures IsGauge(GaugeAt(r)) && Rank(GaugeAt(r)) == r
  {
  }

  /** A call that sets this gauge and has not passed it has it still to set. */
  lemma HasItToSet(c: Config, run: Run, todo: seq<Write>, r: nat)
    requires c.perTarget && r < 5 && HasPassed(Writes(c, run), todo, r) && PutOf(run, GaugeAt(r)).Some?
    ensures exists i: nat :: IsPutAt(todo, i, r)
  {
    var w := Put(GaugeAt(r), PutOf(run, GaugeAt(r)).value);
    PutsOfARun(c, run, GaugeAt(r), w.v);
    RankOfGauge(r);
    StillToDo(Writes(c, run), todo, r, w);
  }

  /** If no call sets this gauge, all have passed it already. */
  lemma NobodyToPass(c: Config, s: State, h: seq<Recorded>, tag: string, last: map<Metric, nat>, r: nat)
    requires c.perTarget && Connected(c, s) && Begun(s.jobs) == h && r < 5
    requires AtRank(s, tag, last, r) && !Sets(h, GaugeAt(r)) && GaugeAt(r) !in last
    ensures AtRank(s, tag, last, r + 1)
  {
    forall j | 0 <= j < |s.jobs| ensures HasPassed(s.jobs[j].all, s.jobs[j].todo, r + 1) {
      TheJob(s, h, j);
      assert PutOf(h[j].run, GaugeAt(r)).None?;
      assert s.jobs[j].all == Writes(c, s.jobs[j].run);
      NothingOfRank(c, s.jobs[j].run, s.jobs[j].todo, r);
    }
  }

  lemma NothingOfRank(c: Config, run: Run, todo: seq<Write>, r: nat)
    requires c.perTarget && r < 5 && HasPassed(Writes(c, run), todo, r) && PutOf(run, GaugeAt(r)).None?
    ensures HasPassed(Writes(c, run), todo, r + 1)
  {
    RestOfAProgram(Writes(c, run), todo);
    forall i | 0 <= i < |todo| && todo[i].Put? ensures Rank(todo[i].m) >= r + 1 {
      RankTellsTheGauge(todo[i].m);
      PutsOfARun(c, run, todo[i].m, todo[i].v);
    }
  }

  // ------------------------------------------------------------------ the stages

  /** The chosen run of each gauge set by some run is one of these calls. */
  lemma Chosen(h: seq<Recorded>, last: map<Metric, nat>, r: nat)
    requires IsChoice(h, last) && r < 5
    ensures GaugeAt(r) in last ==> last[GaugeAt(r)] < |h| && PutOf(h[last[GaugeAt(r)]].run, GaugeAt(r)).Some?
    ensures GaugeAt(r) !in last ==> !Sets(h, GaugeAt(r))
  {
  }

  lemma CallHasItToSet(c: Config, s: State, h: seq<Recorded>, j: nat, r: nat)
    requires c.perTarget && Connected(c, s) && Begun(s.jobs) == h && j < |h| && r < 5
    requires |s.jobs| == |h| && JobPassed(s, j, r) && PutOf(h[j].run, GaugeAt(r)).Some?
    ensures exists i: nat :: IsPutAt(s.jobs[j].todo, i, r)
  {
    TheJob(s, h, j);
    assert s.jobs[j].all == Writes(c, s.jobs[j].run);
    HasItToSet(c, s.jobs[j].run, s.jobs[j].todo, r);
  }

  /** All others first, then the call chosen for the gauge. */
  lemma ChosenLast(c: Config, tr: Trace, h: seq<Recorded>, tag: string, last: map<Metric, nat>, r: nat) returns (longer: Trace)
    requires Calls(c, tr, h, tag) && r < 5 && GaugeAt(r) in last && last[GaugeAt(r)] < |h|
    requires |Last(c, tr).jobs| == |h| && AtRank(Last(c, tr), tag, last, r)
    requires exists i: nat :: IsPutAt(Last(c, tr).jobs[last[GaugeAt(r)]].todo, i, r)
    ensures Calls(c, longer, h, tag) && |Last(c, longer).jobs| == |h| && AtRank(Last(c, longer), tag, last, r + 1)
  {
    var s, j := Last(c, tr), last[GaugeAt(r)];
    longer := OthersThrough(c, tr, h, tag, r, j, 0);
    var t := Last(c, longer);
    longer := DriveThrough(c, longer, h, tag, j, r);
    StageKeepsRank(s, t, Last(c, longer), tag, last, r);
  }

  /** From all calls at rank `r` to all at the next: the chosen call last. */
  lemma Stage(c: Config, tr: Trace, h: seq<Recorded>, tag: string, last: map<Metric, nat>, r: nat) returns (longer: Trace)
    requires c.perTarget && Calls(c, tr, h, tag) && IsChoice(h, last) && r < 5
    requires |Last(c, tr).jobs| == |h| && AtRank(Last(c, tr), tag, last, r)
    ensures Calls(c, longer, h, tag) && |Last(c, longer).jobs| == |h| && AtRank(Last(c, longer), tag, last, r + 1)
  {
    var s := Last(c, tr);
    ConnectedAlways(c, tr.states, tr.steps, |tr.steps|);
    Chosen(h, last, r);
    if GaugeAt(r) in last {
      CallHasItToSet(c, s, h, last[GaugeAt(r)], r);
      longer := ChosenLast(c, tr, h, tag, last, r);
    } else {
      longer := tr;
      NobodyToPass(c, s, h, tag, last, r);
    }
  }

  lemma {:induction false} Stages(c: Config, tr: Trace, h: seq<Recorded>, tag: string, last: map<Metric, nat>, r: nat)
    returns (longer: Trace)
    requires c.perTarget && Calls(c, tr, h, tag) && IsChoice(h, last) && r <= 5
    requires |Last(c, tr).jobs| == |h| && AtRank(Last(c, tr), tag, last, r)
    ensures Calls(c, longer, h, tag) && |Last(c, longer).jobs| == |h| && AtRank(Last(c, longer), tag, last, 5)
    decreases 5 - r
  {
    longer := tr;
    if r < 5 {
      longer := Stage(c, tr, h, tag, last, r);
      longer := Stages(c, longer, h, tag, last, r + 1);
    }
  }

  /** The calls before number `k` are over. */
  ghost predicate OverTo(s: State, k: nat) {
    forall j :: 0 <= j < k && j < |s.jobs| ==> s.jobs[j].todo == []
  }

  lemma DrivenKeepsRank(c: Config, s: State, t: State, tag: string, last: map<Metric, nat>, k: nat)
    requires k < |s.jobs| && AtRank(s, tag, last, 5) && c.labelOf(s.jobs[k].url) == tag
    requires Drove(c, s, t, k, |s.jobs[k].todo|)
    ensures LowKept(s.log, t.log, tag, 5)
    ensures forall q: nat :: q < 5 && GaugeAt(q) in last ==> LastAt(t, tag, q, last[GaugeAt(q)])
  {
    var todo := s.jobs[k].todo;
    assert todo[..|todo|] == todo;
    RestOfAProgram(s.jobs[k].all, todo);
    LogsKeepLow(s.log, k, tag, todo, 5);
    forall q: nat | q < 5 && GaugeAt(q) in last ensures LastAt(t, tag, q, last[GaugeAt(q)]) {
      LastAtIsKept(s, t, tag, q, 5, last[GaugeAt(q)]);
    }
  }

  lemma DoneHasPassed(all: seq<Write>)
    requires IsProgram(all)
    ensures HasPassed(all, [], 5)
  {
  }

  lemma DrivenToTheEnd(c: Config, s: State, t: State, tag: string, last: map<Metric, nat>, k: nat)
    requires k < |s.jobs| && AtRank(s, tag, last, 5) && OverTo(s, k) && c.labelOf(s.jobs[k].url) == tag
    requires Drove(c, s, t, k, |s.jobs[k].todo|)
    ensures AtRank(t, tag, last, 5) && OverTo(t, k + 1)
  {
    DrivenKeepsRank(c, s, t, tag, last, k);
    assert t.jobs[k].todo == [] && t.jobs[k].all == s.jobs[k].all;
    DoneHasPassed(s.jobs[k].all);
    forall j | 0 <= j < |t.jobs| ensures HasPassed(t.jobs[j].all, t.jobs[j].todo, 5) {
      assert j != k ==> t.jobs[j] == s.jobs[j];
    }
  }

  /** Past the last rank only increments are left. */
  lemma {:induction false} FinishAll(c: Config, tr: Trace, h: seq<Recorded>, tag: string, last: map<Metric, nat>, k: nat)
    returns (longer: Trace)
    requires Calls(c, tr, h, tag) && k <= |h| == |Last(c, tr).jobs|
    requires AtRank(Last(c, tr), tag, last, 5) && OverTo(Last(c, tr), k)
    ensures Calls(c, longer, h, tag) && IsOver(Last(c, longer)) && AtRank(Last(c, longer), tag, last, 5)
    decreases |h| - k
  {
    longer := tr;
    if k < |h| {
      var s := Last(c, tr);
      TheJob(s, h, k);
      var one := Drive(c, tr, k, |s.jobs[k].todo|);
      DrivingKeepsCalls(c, s, Last(c, one), k, |s.jobs[k].todo|);
      DrivenToTheEnd(c, s, Last(c, one), tag, last, k);
      longer := FinishAll(c, one, h, tag, last, k + 1);
    }
  }

  /** All the calls begun, none with a write made. */
  ghost predicate JustBegun(c: Config, s: State, h: seq<Recorded>) {
    && Begun(s.jobs) == h && s.log == []
    && forall j :: 0 <= j < |s.jobs| ==> s.jobs[j].todo == s.jobs[j].all == Writes(c, s.jobs[j].run)
  }

  lemma {:induction false} BeginAll(c: Config, h: seq<Recorded>) returns (tr: Trace)
    requires GoodClasses(c.classes)
    ensures IsTrace(c, tr) && JustBegun(c, Last(c, tr), h)
    decreases |h|
  {
    if h == [] {
      tr := Trace([Init(c)], []);
    } else {
      tr := BeginAll(c, h[..|h| - 1]);
      var s := Last(c, tr);
      tr := Extend(c, tr, Begin(h[|h| - 1].url, h[|h| - 1].run));
      BegunGrows(s.jobs, Last(c, tr).jobs[|s.jobs|]);
    }
  }

  lemma JustBegunIsAtRank(c: Config, s: State, h: seq<Recorded>, tag: string, last: map<Metric, nat>)
    requires JustBegun(c, s, h)
    ensures |s.jobs| == |h| && AtRank(s, tag, last, 0)
  {
    forall j | 0 <= j < |s.jobs| ensures HasPassed(s.jobs[j].all, s.jobs[j].todo, 0) {
      WritesAreAProgram(c, s.jobs[j].run);
    }
  }

  /** The calls, of one label, and no others, and all over. */
  ghost predicate Ends(c: Config, tr: Trace, h: seq<Recorded>, tag: string) {
    Calls(c, tr, h, tag) && IsOver(Last(c, tr))
  }

  lemma EndOfCalls(c: Config, tr: Trace, h: seq<Recorded>, tag: string)
    requires c.perTarget && Ends(c, tr, h, tag)
    ensures AllOver(c, Last(c, tr), h, tag)
  {
    ValuedAlways(c, tr.states, tr.steps, |tr.steps|);
    MadeAlways(c, tr.states, tr.steps, |tr.steps|);
  }

  /** Choose, gauge by gauge, any run that sets it: some interleaving leaves every
      gauge at its chosen run's value. */
  lemma MixMany(c: Config, h: seq<Recorded>, tag: string, last: map<Metric, nat>) returns (tr: Trace)
    requires GoodClasses(c.classes) && c.perTarget && AllOf(c, h, tag) && IsChoice(h, last)
    ensures Ends(c, tr, h, tag) && AllOver(c, Last(c, tr), h, tag)
    ensures forall m :: m in last ==> Gauge(Last(c, tr), tag, m) == PutOf(h[last[m]].run, m)
  {
    tr := BeginAll(c, h);
    JustBegunIsAtRank(c, Last(c, tr), h, tag, last);
    tr := Stages(c, tr, h, tag, last, 0);
    tr := FinishAll(c, tr, h, tag, last, 0);
    EndOfCalls(c, tr, h, tag);
    forall m | m in last ensures Gauge(Last(c, tr), tag, m) == PutOf(h[last[m]].run, m) {
      RankTellsTheGauge(m);
      assert LastAt(Last(c, tr), tag, Rank(m), last[m]);
      var w := LastWriterDecides(c, Last(c, tr), h, tag, m);
    }
  }
}
