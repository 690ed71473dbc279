/** The consumer on top of the runner: what `drainResults` has observed, compared
    with the runner's own counters, at every reachable state. */
module DrainRuns {
  import opened LapViews
  import Pool
  import PoolAccounting
  import PoolRuns
  import PoolResults
  import opened DrainResults

  /** A result as the consumer receives it, with its target's URL and interval. */
  function Delivered(r: Pool.Result, urlOf: nat -> string, intervalOf: nat -> int): Result {
    Result(urlOf(r.entry), intervalOf(r.entry), match r.what
      case Missed(kind) => ErrOf(kind)
      case Ran(ok) => if ok then Nil else Other)
  }

  function DeliveredAll(rs: seq<Pool.Result>, urlOf: nat -> string, intervalOf: nat -> int): (d: seq<Result>)
    ensures |d| == |rs|
  {
    seq(|rs|, i requires 0 <= i < |rs| => Delivered(rs[i], urlOf, intervalOf))
  }

  lemma {:induction false} SkipsAmongDelivered(rs: seq<Pool.Result>, n: nat, urlOf: nat -> string, intervalOf: nat -> int)
    requires n <= |rs|
    ensures var d := DeliveredAll(rs, urlOf, intervalOf);
      SkipsAmong(d, n, PriorRunStarted) + SkipsAmong(d, n, PriorRunQueued) == PoolAccounting.Count(rs[..n], PoolAccounting.OfSkips)
  {
    if n > 0 {
      SkipsAmongDelivered(rs, n - 1, urlOf, intervalOf);
      PoolAccounting.CountAppend(rs[..n - 1], rs[n - 1], PoolAccounting.OfSkips);
      assert rs[..n - 1] + [rs[n - 1]] == rs[..n];
    }
  }

  /** The skips the consumer has observed, of both kinds, are those it received. */
  lemma ObservedIsReceived(
    rs: seq<Pool.Result>, urlOf: nat -> string, intervalOf: nat -> int, clock: seq<int>, interval: int)
    requires |clock| == |rs|
    ensures Observed(rs, urlOf, intervalOf, clock, interval) == PoolAccounting.Count(rs, PoolAccounting.OfSkips)
  {
    var d := DeliveredAll(rs, urlOf, intervalOf);
    EverySkipIsObserved(d, clock, interval, |d|, PriorRunStarted);
    EverySkipIsObserved(d, clock, interval, |d|, PriorRunQueued);
    SkipsAmongDelivered(rs, |d|, urlOf, intervalOf);
    assert rs[..|d|] == rs;
  }

  function Observed(rs: seq<Pool.Result>, urlOf: nat -> string, intervalOf: nat -> int, clock: seq<int>, interval: int): nat
    requires |clock| == |rs|
  {
    var d := DrainFirst(DeliveredAll(rs, urlOf, intervalOf), clock, interval, |rs|);
    Among(d.observed, PriorRunStarted) + Among(d.observed, PriorRunQueued)
  }

  /** In every run, whatever the clock of the consumer: the skips it has
      observed, both kinds together, never exceed Skipped(), and lag it by at
      most what is buffered, dropped or in the scheduler's hands. */
  lemma ObservedLagsSkipped(
    c: Pool.Config, states: seq<Pool.State>, steps: seq<Pool.Step>, k: nat,
    urlOf: nat -> string, intervalOf: nat -> int, clock: seq<int>, interval: int)
    requires Pool.IsRun(c, states, steps) && k <= |steps| && |clock| == |states[k].received|
    ensures var s := states[k]; var observed := Observed(s.received, urlOf, intervalOf, clock, interval);
      observed <= s.skipped <= observed + |s.results| + s.dropped + PoolAccounting.LossInProgress(s) + 1
  {
    ObservedIsReceived(states[k].received, urlOf, intervalOf, clock, interval);
    PoolRuns.ObservedSkipsLagSkipped(c, states, steps, k);
  }

  /** Once the drain has caught up, skipped - observed <= dropped: in any state
      with nothing buffered and nothing in a sender's hands, and so after any
      clean Run whose channel is drained. */
  lemma CaughtUpLagIsDropped(
    c: Pool.Config, states: seq<Pool.State>, steps: seq<Pool.Step>, k: nat,
    urlOf: nat -> string, intervalOf: nat -> int, clock: seq<int>, interval: int)
    requires Pool.IsRun(c, states, steps) && k <= |steps| && |clock| == |states[k].received|
    requires states[k].results == []
    requires states[k].life == Pool.Returned(Pool.Clean) || PoolRuns.InSenders(states[k]) == 0
    ensures var s := states[k];
      s.skipped - Observed(s.received, urlOf, intervalOf, clock, interval) <= s.dropped
  {
    if states[k].life == Pool.Returned(Pool.Clean) {
      PoolRuns.CleanMeansNothingInHand(c, states, steps, k);
    }
    ObservedIsReceived(states[k].received, urlOf, intervalOf, clock, interval);
    PoolRuns.DrainedLagIsDropped(c, states, steps, k);
  }

  lemma {:induction false} FailuresAmongDelivered(rs: seq<Pool.Result>, n: nat, urlOf: nat -> string, intervalOf: nat -> int)
    requires n <= |rs|
    ensures FailuresAmong(DeliveredAll(rs, urlOf, intervalOf), n) == PoolAccounting.Count(rs[..n], PoolAccounting.OfFailures)
  {
    if n > 0 {
      FailuresAmongDelivered(rs, n - 1, urlOf, intervalOf);
      PoolAccounting.CountAppend(rs[..n - 1], rs[n - 1], PoolAccounting.OfFailures);
      assert rs[..n - 1] + [rs[n - 1]] == rs[..n];
    }
  }

  /** In every run: the failures the drain has counted never exceed the runs that
      ended in an error, and lag them by at most what is buffered, dropped or in
      a sender's hands; so after a clean, drained run by at most Dropped(). */
  lemma CountedFailuresLagFailedRuns(
    c: Pool.Config, states: seq<Pool.State>, steps: seq<Pool.Step>, k: nat,
    urlOf: nat -> string, intervalOf: nat -> int, clock: seq<int>, interval: int)
    requires Pool.IsRun(c, states, steps) && k <= |steps| && |clock| == |states[k].received|
    ensures var s := states[k];
      var counted := DrainFirst(DeliveredAll(s.received, urlOf, intervalOf), clock, interval, |s.received|).failures;
      && counted <= PoolResults.FailedRuns(steps, k) <= counted + |s.results| + s.dropped + PoolRuns.InSenders(s)
      && (s.life == Pool.Returned(Pool.Clean) && s.results == [] ==>
            counted <= PoolResults.FailedRuns(steps, k) <= counted + s.dropped)
  {
    var s := states[k];
    var d := DeliveredAll(s.received, urlOf, intervalOf);
    EverySkipIsObserved(d, clock, interval, |d|, PriorRunStarted);
    FailuresAmongDelivered(s.received, |d|, urlOf, intervalOf);
    assert s.received[..|d|] == s.received;
    PoolResults.FailuresLag(c, states, steps, k);
    if s.life == Pool.Returned(Pool.Clean) {
      PoolRuns.CleanMeansNothingInHand(c, states, steps, k);
    }
  }
}
