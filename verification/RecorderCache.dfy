/** The per-URL cache under races: the first series installed for a URL is the one
    that every later call holds. */
module RecorderCache {
  import opened Recorders
  import opened RecorderRuns

  /** What is cached stays: a URL's series, and a series' tls child. */
  ghost predicate CacheKept(s: State, t: State) {
    && (forall url :: url in s.byURL ==> url in t.byURL && t.byURL[url] == s.byURL[url])
    && |s.series| <= |t.series|
    && (forall i :: 0 <= i < |s.series| && s.series[i].tls.Some? ==> t.series[i].tls == s.series[i].tls)
  }

  lemma CacheKeptTwice(s: State, t: State, u: State)
    requires CacheKept(s, t) && CacheKept(t, u)
    ensures CacheKept(s, u)
  {
  }

  lemma StepKeepsCache(c: Config, s: State, step: Step)
    requires Enabled(c, s, step)
    ensures CacheKept(s, Apply(c, s, step))
  {
  }

  /** Whoever looks up or installs holds the series that is cached then; whoever
      loads or swaps the tls pointer finds it set, or sets it. */
  lemma StepUsesCache(c: Config, s: State, step: Step)
    requires Enabled(c, s, step) && (step.Lookup? || step.Install? || step.LoadTls? || step.SwapTls?)
    ensures var t, x := Apply(c, s, step), s.jobs[step.j];
      && (step.Lookup? && x.url in s.byURL ==> t.jobs[step.j].phase == Holding(s.byURL[x.url], Unread))
      && (step.Install? ==> x.url in t.byURL && t.jobs[step.j].phase == Holding(t.byURL[x.url], Unread))
      && (step.SwapTls? ==> t.series[x.phase.ts].tls.Some? && t.jobs[step.j].phase.tls.Ready?)
      && (step.LoadTls? && s.series[x.phase.ts].tls.Some? ==>
            t.jobs[step.j].phase == Holding(x.phase.ts, Ready(s.series[x.phase.ts].tls.value)))
  {
  }

  ghost predicate CacheGrows(states: seq<State>) {
    forall k :: 0 <= k < |states| - 1 ==> CacheKept(states[k], states[k + 1])
  }

  lemma RunsKeepTheCache(c: Config, states: seq<State>, steps: seq<Step>)
    requires IsRun(c, states, steps)
    ensures CacheGrows(states)
  {
    forall k | 0 <= k < |states| - 1 ensures CacheKept(states[k], states[k + 1]) {
      StepOfRun(c, states, steps, k);
      StepKeepsCache(c, states[k], steps[k]);
    }
  }

  lemma {:induction false} CacheKeptAlways(states: seq<State>, i: nat, n: nat)
    requires CacheGrows(states) && i <= n < |states|
    ensures CacheKept(states[i], states[n])
    decreases n
  {
    if i < n {
      CacheKeptAlways(states, i, n - 1);
      CacheKeptTwice(states[i], states[n - 1], states[n]);
    }
  }

  /** A URL's series is settled by the first install: whichever call of the URL
      looks it up or installs later, racing or not, holds that one. */
  lemma FirstInstallStays(c: Config, states: seq<State>, steps: seq<Step>, i: nat, n: nat)
    requires IsRun(c, states, steps) && i < n < |steps| && steps[i].Install? && (steps[n].Lookup? || steps[n].Install?)
    requires steps[i].j < |states[i].jobs| && steps[n].j < |states[n].jobs|
    requires states[i].jobs[steps[i].j].url == states[n].jobs[steps[n].j].url
    ensures steps[n].j < |states[n + 1].jobs| && steps[i].j < |states[i + 1].jobs|
    ensures states[n + 1].jobs[steps[n].j].phase == states[i + 1].jobs[steps[i].j].phase
  {
    StepOfRun(c, states, steps, i);
    StepUsesCache(c, states[i], steps[i]);
    RunsKeepTheCache(c, states, steps);
    CacheKeptAlways(states, i + 1, n);
    StepOfRun(c, states, steps, n);
    StepUsesCache(c, states[n], steps[n]);
    StepKeepsCache(c, states[n], steps[n]);
  }
}
