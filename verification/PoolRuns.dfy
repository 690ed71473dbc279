/** What holds in every run of the runner, under every interleaving. */
module PoolRuns {
  import opened Common
  import opened LapViews
  import opened Pool
  import opened PoolPlacement
  import opened PoolShutdown
  import opened PoolAccounting
  import opened PoolProgress

  ghost predicate Inv(c: Config, s: State) {
    Placed(c, s) && Orderly(c, s) && Balanced(s) && Progressing(s)
  }

  lemma SchedulerKeepsInv(c: Config, s: State, step: SchedulerStep)
    requires Inv(c, s) && SchedulerEnabled(c, s, step)
    ensures Inv(c, SchedulerApply(c, s, step))
  {
    SchedulerKeepsPlaced(c, s, step);
    SchedulerKeepsOrder(c, s, step);
    SchedulerKeepsDrain(c, s, step);
    SchedulerKeepsStarts(c, s, step);
    StepKeepsBalanced(c, s, Schedule(step));
  }

  lemma WorkerKeepsInv(c: Config, s: State, w: nat, step: WorkerStep)
    requires Inv(c, s) && WorkerEnabled(c, s, w, step)
    ensures Inv(c, WorkerApply(c, s, w, step))
  {
    WorkerKeepsPlaced(c, s, w, step);
    WorkerKeepsOrder(c, s, w, step);
    WorkerKeepsDrain(c, s, w, step);
    WorkerKeepsStarts(c, s, w, step);
    StepKeepsBalanced(c, s, Work(w, step));
  }

  lemma RunKeepsInv(c: Config, s: State, step: RunStep)
    requires Inv(c, s) && RunEnabled(c, s, step)
    ensures Inv(c, RunApply(c, s, step))
  {
    RunStepKeepsPlaced(c, s, step);
    RunStepKeepsOrder(c, s, step);
    RunKeepsProgress(c, s, step);
    StepKeepsBalanced(c, s, Run(step));
  }

  lemma StepKeepsInv(c: Config, s: State, step: Step)
    requires Inv(c, s) && Enabled(c, s, step)
    ensures Inv(c, Apply(c, s, step))
  {
    match step
    case Schedule(k) => SchedulerKeepsInv(c, s, k);
    case Work(w, k) => WorkerKeepsInv(c, s, w, k);
    case Run(k) => RunKeepsInv(c, s, k);
  }

  lemma {:induction false} InvAlways(c: Config, states: seq<State>, steps: seq<Step>, k: nat)
    requires IsRun(c, states, steps) && k <= |steps|
    ensures Inv(c, states[k])
  {
    if k == 0 {
      PlacedInitially(c);
      BalancedInitially(c);
      ProgressingInitially(c);
    } else {
      InvAlways(c, states, steps, k - 1);
      StepKeepsInv(c, states[k - 1], steps[k - 1]);
    }
  }

  // --------------------------------------------------------------- placement

  lemma {:induction false} DistinctBelow(q: seq<nat>, n: nat)
    requires Distinct(q) && AllBelow(q, n)
    ensures |q| <= n
  {
    if q == [] {
      return;
    }
    assert 0 <= q[0] < n;
    if n - 1 in q {
      var i :| 0 <= i < |q| && q[i] == n - 1;
      var rest := q[..i] + q[i + 1..];
      forall j | 0 <= j < |rest| ensures rest[j] < n - 1 {
        assert rest[j] == q[if j < i then j else j + 1];
      }
      DistinctBelow(rest, n - 1);
    } else {
      assert forall j :: 0 <= j < |q| ==> q[j] in q;
      DistinctBelow(q, n - 1);
    }
  }

  /** A distinct list of numbers below n that misses one of them is shorter
      than n. */
  lemma Pigeonhole(q: seq<nat>, n: nat, missing: nat)
    requires Distinct(q) && AllBelow(q, n) && missing < n && missing !in q
    ensures |q| < n
  {
    TailJoins(q, missing);
    DistinctBelow(q + [missing], n);
  }

  /** The entries in workers' hands. */
  function HandList(ws: seq<Worker>): seq<nat> {
    if ws == [] then [] else (if ws[0].Busy? then [ws[0].e] else []) + HandList(ws[1..])
  }

  lemma {:induction false} HandListHolds(ws: seq<Worker>)
    ensures forall e :: e in HandList(ws) <==> exists w :: 0 <= w < |ws| && ws[w].Busy? && ws[w].e == e
  {
    if ws != [] {
      HandListHolds(ws[1..]);
      forall e | exists w :: 0 <= w < |ws| && ws[w].Busy? && ws[w].e == e ensures e in HandList(ws) {
        var w :| 0 <= w < |ws| && ws[w].Busy? && ws[w].e == e;
        assert w > 0 ==> ws[1..][w - 1] == ws[w];
      }
      forall e | e in HandList(ws) ensures exists w :: 0 <= w < |ws| && ws[w].Busy? && ws[w].e == e {
        if e in HandList(ws[1..]) {
          var v :| 0 <= v < |ws[1..]| && ws[1..][v].Busy? && ws[1..][v].e == e;
          assert ws[v + 1] == ws[1..][v];
        } else {
          assert ws[0].Busy? && ws[0].e == e;
        }
      }
    }
  }

  lemma {:induction false} HandListDistinct(ws: seq<Worker>)
    requires forall v, w :: 0 <= v < w < |ws| && ws[v].Busy? && ws[w].Busy? ==> ws[v].e != ws[w].e
    ensures Distinct(HandList(ws))
  {
    if ws != [] {
      HandListDistinct(ws[1..]);
      HandListHolds(ws[1..]);
      if ws[0].Busy? {
        assert ws[0].e !in HandList(ws[1..]) by {
          assert forall v :: 0 <= v < |ws[1..]| ==> ws[1..][v] == ws[v + 1];
        }
        assert Distinct([ws[0].e] + HandList(ws[1..]));
      }
    }
  }

  /** Every entry in flight is in exactly one place, and every other one is
      nowhere, at every state before the scheduler returns. */
  lemma InFlightIsOnePlace(c: Config, states: seq<State>, steps: seq<Step>, k: nat, e: nat)
    requires IsRun(c, states, steps) && k <= |steps| && e < c.targets
    requires !states[k].control.Stopped? && states[k].control != Dispatching(e)
    ensures |states[k].entries| == c.targets
    ensures states[k].entries[e].inflight <==> Somewhere(states[k], e)
    ensures !(e in states[k].work && e in states[k].done)
    ensures InSomeHand(states[k], e) ==> e !in states[k].work && e !in states[k].done
    ensures Distinct(states[k].work) && Distinct(states[k].done) && Distinct(HandList(states[k].workers))
  {
    InvAlways(c, states, steps, k);
    HandListDistinct(states[k].workers);
  }

  /** The escape is real: a cancelled dispatch leaves its entry in flight in no
      queue once the scheduler has returned. */
  lemma CancelledDispatchLeavesItNowhere(c: Config, s: State)
    requires Inv(c, s) && SchedulerEnabled(c, s, QuitDispatch)
    ensures var t := SchedulerApply(c, s, QuitDispatch); var e := s.control.e;
      t.control.Stopped? && t.entries[e].inflight && !Somewhere(t, e) && t.entries[e].slots == s.entries[e].slots
  {
    SameHands(s, SchedulerApply(c, s, QuitDispatch));
  }

  /** Neither channel ever blocks its sender: whoever is about to send finds
      room. */
  lemma SendersFindRoom(c: Config, states: seq<State>, steps: seq<Step>, k: nat)
    requires IsRun(c, states, steps) && k <= |steps|
    ensures |states[k].work| <= c.targets && |states[k].done| <= c.targets
    ensures states[k].control.Dispatching? ==> SchedulerEnabled(c, states[k], Enqueue)
    ensures forall w: nat :: InHand(states[k], w) && states[k].workers[w].stage.Acking? ==> WorkerEnabled(c, states[k], w, Ack)
  {
    InvAlways(c, states, steps, k);
    var s := states[k];
    DistinctBelow(s.work, c.targets);
    DistinctBelow(s.done, c.targets);
    if s.control.Dispatching? {
      Pigeonhole(s.work, c.targets, s.control.e);
    }
    forall w: nat | InHand(s, w) && s.workers[w].stage.Acking? ensures WorkerEnabled(c, s, w, Ack) {
      assert InSomeHand(s, s.workers[w].e);
      Pigeonhole(s.done, c.targets, s.workers[w].e);
    }
  }

  /** However large the pool, no more workers than targets are ever busy, and no
      two of them with the same target: `New`'s cap on the pool costs nothing. */
  lemma BusyWorkersAreBounded(c: Config, states: seq<State>, steps: seq<Step>, k: nat)
    requires IsRun(c, states, steps) && k <= |steps|
    ensures |HandList(states[k].workers)| <= c.targets
    ensures forall v, w :: 0 <= v < w < |states[k].workers| && states[k].workers[v].Busy? && states[k].workers[w].Busy? ==>
      states[k].workers[v].e != states[k].workers[w].e
  {
    InvAlways(c, states, steps, k);
    var ws := states[k].workers;
    HandListDistinct(ws);
    HandListHolds(ws);
    forall i | 0 <= i < |HandList(ws)| ensures HandList(ws)[i] < c.targets {
      assert HandList(ws)[i] in HandList(ws);
    }
    DistinctBelow(HandList(ws), c.targets);
  }

  // -------------------------------------------------------------- accounting

  /** Entry `e` is queued, or a worker holds it and has not reported its run. */
  ghost predicate QueuedOrHeld(s: State, e: nat) {
    e in s.work || exists w :: 0 <= w < |s.workers| && Hit(s.workers[w], Unreported(e)) == 1
  }

  lemma {:induction false} DistinctCount(q: seq<nat>, e: nat)
    requires Distinct(q)
    ensures multiset(q)[e] == OneIf(e in q)
  {
    if q != [] {
      HeadLeaves(q);
      MultisetOfTail(q, e);
      DistinctCount(q[1..], e);
    }
  }

  lemma {:induction false} UnreportedCount(ws: seq<Worker>, e: nat)
    requires forall v, w :: 0 <= v < w < |ws| && ws[v].Busy? && ws[w].Busy? ==> ws[v].e != ws[w].e
    ensures Hands(ws, Unreported(e)) == OneIf(exists w :: 0 <= w < |ws| && Hit(ws[w], Unreported(e)) == 1)
  {
    if ws != [] {
      var rest := ws[1..];
      assert forall v :: 0 <= v < |rest| ==> rest[v] == ws[v + 1];
      UnreportedCount(rest, e);
      if Hit(ws[0], Unreported(e)) == 1 {
        assert forall v :: 0 <= v < |rest| ==> Hit(rest[v], Unreported(e)) != 1;
      } else if w :| 0 <= w < |ws| && Hit(ws[w], Unreported(e)) == 1 {
        assert rest[w - 1] == ws[w];
      }
    }
  }

  /** Per entry, at every reachable state: slots processed = skips +
      dispatches, up to the slot in progress; and dispatches = reported runs +
      dispatches discarded at shutdown + 1 if it is queued or held. */
  lemma SlotsAndDispatchesAddUp(c: Config, states: seq<State>, steps: seq<Step>, k: nat, e: nat)
    requires IsRun(c, states, steps) && k <= |steps| && e < c.targets
    ensures |states[k].entries| == c.targets
    ensures var s := states[k]; var x := s.entries[e];
      && x.slots + SlotInProgress(s.control, e) == x.skips + x.dispatches
      && x.dispatches == x.runs + x.discarded + OneIf(QueuedOrHeld(s, e))
  {
    InvAlways(c, states, steps, k);
    var s := states[k];
    assert EntryBalanced(s, e);
    DistinctCount(s.work, e);
    UnreportedCount(s.workers, e);
    forall w | 0 <= w < |s.workers| && Hit(s.workers[w], Unreported(e)) == 1 ensures InSomeHand(s, e) {
      assert s.workers[w].Busy? && s.workers[w].e == e;
    }
  }

  /** A sender is with one result at a time. */
  lemma {:induction false} OneResultEach(ws: seq<Worker>)
    ensures Hands(ws, InReport(OfAll)) + Hands(ws, InLoss) <= |ws|
  {
    if ws != [] {
      OneResultEach(ws[1..]);
    }
  }

  /** Results in the hands of a goroutine: about to be sent, or lost and about
      to be counted. */
  function InSenders(s: State): nat {
    Hands(s.workers, InReport(OfAll)) + ControlReports(s.control, OfAll) + LossInProgress(s)
  }

  /** Fleet-wide, at every reachable state: skips + reported runs = received +
      buffered + Dropped() + those still in a sender's hands, one each at most. */
  lemma ResultsAddUp(c: Config, states: seq<State>, steps: seq<Step>, k: nat)
    requires IsRun(c, states, steps) && k <= |steps|
    ensures var s := states[k]; var counted := |s.received| + |s.results| + s.dropped;
      s.skipped + TotalRuns(s.entries) == counted + InSenders(s)
    ensures InSenders(states[k]) <= |states[k].workers| + 1
  {
    InvAlways(c, states, steps, k);
    var s := states[k];
    CountAllIsLength(s.received);
    CountAllIsLength(s.results);
    CountAllIsLength(s.lost);
    OneResultEach(s.workers);
  }

  lemma {:induction false} CountAtMostLength(rs: seq<Result>, t: Tally)
    ensures Count(rs, t) <= |rs|
  {
    if rs != [] {
      CountAtMostLength(rs[1..], t);
    }
  }

  lemma {:induction false} WorkersReportNoSkips(ws: seq<Worker>)
    requires forall w :: 0 <= w < |ws| && ws[w].Busy? && ws[w].stage.Reporting? ==> ws[w].stage.r.what.Ran?
    ensures Hands(ws, InReport(OfSkips)) == 0
  {
    if ws != [] {
      assert forall v :: 0 <= v < |ws[1..]| ==> ws[1..][v] == ws[v + 1];
      WorkersReportNoSkips(ws[1..]);
    }
  }

  /** The skips a consumer has seen never exceed Skipped(): they lag it by the
      skips buffered, lost, or in the scheduler's hands, hence by at most what
      is buffered, dropped or in hand. */
  lemma ObservedSkipsLagSkipped(c: Config, states: seq<State>, steps: seq<Step>, k: nat)
    requires IsRun(c, states, steps) && k <= |steps|
    ensures var s := states[k]; var seen := Count(s.received, OfSkips);
      && s.skipped == seen + Count(s.results, OfSkips) + Count(s.lost, OfSkips) + ControlReports(s.control, OfSkips)
      && seen <= s.skipped <= seen + |s.results| + s.dropped + LossInProgress(s) + 1
  {
    InvAlways(c, states, steps, k);
    var s := states[k];
    CountAtMostLength(s.results, OfSkips);
    CountAtMostLength(s.lost, OfSkips);
    WorkersReportNoSkips(s.workers);
  }

  /** With the channel drained and nobody holding a result, the lag is what was
      dropped. */
  lemma DrainedLagIsDropped(c: Config, states: seq<State>, steps: seq<Step>, k: nat)
    requires IsRun(c, states, steps) && k <= |steps| && states[k].results == [] && InSenders(states[k]) == 0
    ensures Count(states[k].received, OfSkips) <= states[k].skipped <= Count(states[k].received, OfSkips) + states[k].dropped
  {
    InvAlways(c, states, steps, k);
    CountAtMostLength(states[k].lost, OfSkips);
    WorkersReportNoSkips(states[k].workers);
  }

  /** After a clean Run nobody holds a result. */
  lemma CleanMeansNothingInHand(c: Config, states: seq<State>, steps: seq<Step>, k: nat)
    requires IsRun(c, states, steps) && k <= |steps| && states[k].life == Returned(Clean)
    ensures InSenders(states[k]) == 0
  {
    InvAlways(c, states, steps, k);
    ExitedHoldNothing(states[k].workers, InReport(OfAll));
    ExitedHoldNothing(states[k].workers, InLoss);
  }

  lemma {:induction false} ExitedHoldNothing(ws: seq<Worker>, h: HandTally)
    requires forall w :: 0 <= w < |ws| ==> ws[w].Exited?
    ensures Hands(ws, h) == 0
  {
    NobodyBusy(ws, h);
  }

  /** After a clean Run the books close exactly: every slot of every entry is a
      result received, buffered or dropped, or a dispatch discarded at
      shutdown, and Dropped() counts every lost result. */
  lemma BooksCloseAfterCleanRun(c: Config, states: seq<State>, steps: seq<Step>, k: nat, e: nat)
    requires IsRun(c, states, steps) && k <= |steps| && e < c.targets && c.workers > 0
    requires states[k].life == Returned(Clean)
    ensures |states[k].entries| == c.targets && states[k].dropped == |states[k].lost|
    ensures var s := states[k]; var x := s.entries[e];
      x.slots == Count(s.received, OfEntry(e)) + Count(s.results, OfEntry(e)) + Count(s.lost, OfEntry(e)) + x.discarded
  {
    InvAlways(c, states, steps, k);
    var s := states[k];
    assert EntryBalanced(s, e);
    assert s.workers[0].Exited? && s.work == [];
    ExitedHoldNothing(s.workers, InLoss);
    ExitedHoldNothing(s.workers, Unreported(e));
    ExitedHoldNothing(s.workers, InReport(OfEntry(e)));
  }

  /** The documented equality, completed runs + skips == slots processed, is
      then true of an entry exactly when none of its dispatches was discarded
      at shutdown (given that nothing was dropped and the channel is drained). */
  lemma DocumentedEqualityIffNothingDiscarded(c: Config, states: seq<State>, steps: seq<Step>, k: nat, e: nat)
    requires IsRun(c, states, steps) && k <= |steps| && e < c.targets && c.workers > 0
    requires states[k].life == Returned(Clean) && states[k].results == [] && states[k].dropped == 0
    ensures |states[k].entries| == c.targets
    ensures Count(states[k].received, OfEntry(e)) == states[k].entries[e].slots <==> states[k].entries[e].discarded == 0
  {
    BooksCloseAfterCleanRun(c, states, steps, k, e);
  }

  /** One target, dispatched and then cancelled before its worker looked at the
      context: the state once it has been queued, and once it has been acked. */
  const ONE_QUEUED := State(Serving, Draining, [IDLE.(inflight := true, dispatches := 1, slots := 1)],
                            [0], [], [Receiving], [], 0, false, false, 0, 0, [], [], {}, 0)
  const ONE_ACKED := ONE_QUEUED.(cancelled := true, work := [], done := [0],
                                 entries := [IDLE.(inflight := true, dispatches := 1, slots := 1, discarded := 1)])

  lemma UntilQueued(c: Config) returns (states: seq<State>, steps: seq<Step>)
    requires c == Sized(1, 1, false, true)
    ensures IsRun(c, states, steps) && states[|steps|] == ONE_QUEUED
  {
    var s := Init(c);
    states, steps := [s], [];
    states, steps, s := Then(c, states, steps, s, Run(Start), s.(life := Serving, control := Draining, workers := [Receiving]));
    states, steps, s := Then(c, states, steps, s, Schedule(DrainEnd), s.(control := Judging));
    var x := IDLE.(inflight := true);
    states, steps, s := Then(c, states, steps, s, Schedule(PickIdle(0)), s.(control := Dispatching(0), entries := [x]));
    x := x.(dispatches := 1);
    states, steps, s := Then(c, states, steps, s, Schedule(Enqueue), s.(control := Advancing(0), work := [0], entries := [x]));
    states, steps, s := Then(c, states, steps, s, Schedule(Advance), ONE_QUEUED);
  }

  lemma UntilAcked(c: Config) returns (states: seq<State>, steps: seq<Step>)
    requires c == Sized(1, 1, false, true)
    ensures IsRun(c, states, steps) && states[|steps|] == ONE_ACKED
  {
    states, steps := UntilQueued(c);
    var s := ONE_QUEUED;
    states, steps, s := Then(c, states, steps, s, Run(Cancel), s.(cancelled := true));
    states, steps, s := Then(c, states, steps, s, Work(0, Take), s.(workers := [Busy(0, Held)], work := []));
    var x := s.entries[0].(discarded := 1);
    states, steps, s := Then(c, states, steps, s, Work(0, SeeCancelled), s.(workers := [Busy(0, Acking)], entries := [x]));
    states, steps, s := Then(c, states, steps, s, Work(0, Ack), ONE_ACKED);
  }

  lemma UntilReturned(c: Config) returns (states: seq<State>, steps: seq<Step>)
    requires c == Sized(1, 1, false, true)
    ensures IsRun(c, states, steps)
    ensures states[|steps|] == ONE_ACKED.(life := Returned(Clean), control := Stopped, workers := [Exited], closes := 1,
                                          done := [], drained := 1, entries := [ONE_ACKED.entries[0].(inflight := false)])
  {
    states, steps := UntilAcked(c);
    var s := ONE_ACKED;
    var x := s.entries[0].(inflight := false);
    states, steps, s := Then(c, states, steps, s, Schedule(DrainOne), s.(done := [], drained := 1, entries := [x]));
    states, steps, s := Then(c, states, steps, s, Schedule(DrainEnd), s.(control := Judging));
    states, steps, s := Then(c, states, steps, s, Schedule(Arm), s.(control := Armed));
    states, steps, s := Then(c, states, steps, s, Schedule(QuitArmed), s.(control := Stopped));
    states, steps, s := Then(c, states, steps, s, Run(CloseWork), s.(life := Waiting));
    states, steps, s := Then(c, states, steps, s, Work(0, Exit), s.(workers := [Exited]));
    states, steps, s := Then(c, states, steps, s, Run(CloseResults), s.(life := Returned(Clean), closes := 1));
  }

  /** And it can fail: that run ends with one slot processed and no result. */
  lemma DocumentedEqualityCanFail(c: Config) returns (states: seq<State>, steps: seq<Step>)
    requires c == Sized(1, 1, false, true)
    ensures IsRun(c, states, steps)
    ensures states[|steps|].life == Returned(Clean) && states[|steps|].results == [] && states[|steps|].dropped == 0
    ensures |states[|steps|].entries| == 1 && states[|steps|].entries[0].slots == 1
    ensures Count(states[|steps|].received, OfEntry(0)) == 0
  {
    states, steps := UntilReturned(c);
  }

  lemma Then(c: Config, states: seq<State>, steps: seq<Step>, s: State, step: Step, t: State)
    returns (longer: seq<State>, more: seq<Step>, last: State)
    requires IsRun(c, states, steps) && states[|steps|] == s
    requires Enabled(c, s, step) && t == Apply(c, s, step)
    ensures IsRun(c, longer, more) && last == t && longer[|more|] == last
  {
    longer, more, last := states + [t], steps + [step], t;
  }

  // -------------------------------------------------------- skips and waiting

  /** A skip is reported as "prior run started" exactly when the worker of this
      entry's present dispatch had marked it started. */
  lemma SkipsAreClassifiedRight(c: Config, states: seq<State>, steps: seq<Step>, k: nat)
    requires IsRun(c, states, steps) && k < |steps| && steps[k] == Schedule(Classify)
    ensures states[k].control.Classifying? && states[k].control.e < |states[k].entries|
    ensures var x := states[k].entries[states[k].control.e];
      && x.inflight
      && states[k + 1].control == SkipReporting(Result(states[k].control.e,
           Missed(if x.startedFor == x.dispatches then PriorRunStarted else PriorRunQueued)))
  {
    InvAlways(c, states, steps, k);
  }

  /** `started` is never set on an entry that is idle or queued. */
  lemma StartedMeansInHandOrAcked(c: Config, states: seq<State>, steps: seq<Step>, k: nat, e: nat)
    requires IsRun(c, states, steps) && k <= |steps| && e < c.targets
    ensures |states[k].entries| == c.targets
    ensures states[k].entries[e].started ==> states[k].entries[e].inflight && e !in states[k].work
    ensures states[k].entries[e].started && !states[k].control.Stopped? ==> InSomeHand(states[k], e) || e in states[k].done
  {
    InvAlways(c, states, steps, k);
  }

  /** An entry whose ack was on `done` when the lap's drain began is not skipped
      in that lap, and the drain takes at most one ack per target. */
  lemma AckedEntriesAreNotSkipped(c: Config, states: seq<State>, steps: seq<Step>, k: nat)
    requires IsRun(c, states, steps) && k <= |steps|
    ensures k < |steps| && steps[k].Schedule? && steps[k].s.PickBusy? ==> steps[k].s.e !in states[k].acked
    ensures states[k].control.Draining? ==> states[k].drained <= c.targets
  {
    InvAlways(c, states, steps, k);
  }

  predicate Dequeues(step: Step) {
    step.Work? && step.t.Take?
  }

  /** Dequeues among steps i..j. */
  function Takes(steps: seq<Step>, i: nat, j: nat): nat
    requires i <= j <= |steps|
  {
    if i == j then 0 else Takes(steps, i, j - 1) + OneIf(Dequeues(steps[j - 1]))
  }

  /** `after` is `before` less its first `drop` entries, perhaps with more behind. */
  ghost predicate Shifts(before: seq<nat>, after: seq<nat>, drop: nat) {
    drop <= |before| && before[drop..] <= after
  }

  lemma StepOfRun(c: Config, states: seq<State>, steps: seq<Step>, k: nat)
    requires IsRun(c, states, steps) && k < |steps|
    ensures Enabled(c, states[k], steps[k]) && states[k + 1] == Apply(c, states[k], steps[k])
  {
  }

  lemma SchedulerShifts(c: Config, s: State, step: SchedulerStep)
    requires SchedulerEnabled(c, s, step)
    ensures s.work <= SchedulerApply(c, s, step).work
  {
  }

  lemma WorkerShifts(c: Config, s: State, w: nat, step: WorkerStep)
    requires WorkerEnabled(c, s, w, step)
    ensures Shifts(s.work, WorkerApply(c, s, w, step).work, OneIf(step.Take?))
  {
  }

  lemma RunKeepsQueue(c: Config, s: State, step: RunStep)
    requires RunEnabled(c, s, step)
    ensures RunApply(c, s, step).work == s.work
  {
  }

  lemma StepShifts(c: Config, s: State, step: Step)
    requires Enabled(c, s, step)
    ensures Shifts(s.work, Apply(c, s, step).work, OneIf(Dequeues(step)))
  {
    match step
    case Schedule(k) => SchedulerShifts(c, s, k);
    case Work(w, k) => WorkerShifts(c, s, w, k);
    case Run(k) => RunKeepsQueue(c, s, k);
  }

  /** The work queues of a run. */
  ghost predicate Moves(queues: seq<seq<nat>>, steps: seq<Step>) {
    && |queues| == |steps| + 1
    && forall k :: 0 <= k < |steps| ==> Shifts(queues[k], queues[k + 1], OneIf(Dequeues(steps[k])))
  }

  lemma QueuesMove(c: Config, states: seq<State>, steps: seq<Step>) returns (queues: seq<seq<nat>>)
    requires IsRun(c, states, steps)
    ensures Moves(queues, steps)
    ensures forall k :: 0 <= k < |states| ==> queues[k] == states[k].work
  {
    queues := seq(|states|, k requires 0 <= k < |states| => states[k].work);
    forall k | 0 <= k < |steps| ensures Shifts(queues[k], queues[k + 1], OneIf(Dequeues(steps[k]))) {
      StepOfRun(c, states, steps, k);
      StepShifts(c, states[k], steps[k]);
    }
  }

  /** `work` is first in, first out. */
  lemma {:induction false} QueueIsFifo(queues: seq<seq<nat>>, steps: seq<Step>, i: nat, j: nat, p: nat)
    requires Moves(queues, steps) && i <= j <= |steps|
    requires p < |queues[i]| && Takes(steps, i, j) <= p
    ensures p - Takes(steps, i, j) < |queues[j]| && queues[j][p - Takes(steps, i, j)] == queues[i][p]
    decreases j
  {
    if i < j {
      QueueIsFifo(queues, steps, i, j - 1, p);
      var drop := OneIf(Dequeues(steps[j - 1]));
      var before := p - Takes(steps, i, j - 1);
      assert Shifts(queues[j - 1], queues[j], drop);
      assert queues[j - 1][drop..][before - drop] == queues[j - 1][before];
    }
  }

  lemma DispatchedGoesLast(c: Config, states: seq<State>, steps: seq<Step>, i: nat)
    requires IsRun(c, states, steps) && i < |steps| && steps[i] == Schedule(Enqueue)
    ensures states[i].control.Dispatching? && |states[i].work| < c.targets
    ensures states[i + 1].work == states[i].work + [states[i].control.e]
  {
    StepOfRun(c, states, steps, i);
  }

  lemma WorkIsFifo(c: Config, states: seq<State>, steps: seq<Step>, i: nat, j: nat, p: nat)
    requires IsRun(c, states, steps) && i <= j <= |steps|
    requires p < |states[i].work| && Takes(steps, i, j) <= p
    ensures p - Takes(steps, i, j) < |states[j].work|
    ensures states[j].work[p - Takes(steps, i, j)] == states[i].work[p]
  {
    var queues := QueuesMove(c, states, steps);
    QueueIsFifo(queues, steps, i, j, p);
  }

  lemma DequeueTakesTheHead(c: Config, states: seq<State>, steps: seq<Step>, j: nat)
    requires IsRun(c, states, steps) && j < |steps| && Dequeues(steps[j])
    ensures states[j].work != [] && Distinct(states[j].work)
  {
    StepOfRun(c, states, steps, j);
    InvAlways(c, states, steps, j);
  }

  /** Bounded overtaking. An entry dispatched at step i finds fewer than n
      entries ahead of it; that many dequeues take other entries, and the next
      dequeue takes it. */
  lemma OvertakingIsBounded(c: Config, states: seq<State>, steps: seq<Step>, i: nat, j: nat)
    requires IsRun(c, states, steps) && i < j < |steps|
    requires steps[i] == Schedule(Enqueue) && Dequeues(steps[j])
    ensures states[i].control.Dispatching? && |states[i].work| < c.targets && states[j].work != []
    ensures Takes(steps, i + 1, j) < |states[i].work| ==> states[j].work[0] != states[i].control.e
    ensures Takes(steps, i + 1, j) == |states[i].work| ==> states[j].work[0] == states[i].control.e
  {
    DispatchedGoesLast(c, states, steps, i);
    DequeueTakesTheHead(c, states, steps, j);
    if Takes(steps, i + 1, j) <= |states[i].work| {
      WorkIsFifo(c, states, steps, i + 1, j, |states[i].work|);
    }
  }

  // ---------------------------------------------------------------- shutdown

  /** In every run: `results` is closed at most once; nobody sends on it, or on
      `work`, after it is closed; and whoever publishes after Run returned does
      so after ErrShutdownTimeout. */
  lemma ShutdownIsSafe(c: Config, states: seq<State>, steps: seq<Step>, k: nat)
    requires IsRun(c, states, steps) && k < |steps|
    ensures states[k].closes <= 1
    ensures TouchesResults(steps[k]) ==> states[k].closes == 0
    ensures steps[k] == Schedule(Enqueue) ==> !WorkClosed(states[k])
    ensures steps[k].Work? && steps[k].t.Publish? && states[k].life.Returned? ==> states[k].life == Returned(TimedOut)
    ensures states[k].closes == 1 ==> forall w :: 0 <= w < |states[k].workers| ==> states[k].workers[w].Exited?
  {
    InvAlways(c, states, steps, k);
    NobodyTouchesAClosedChannel(c, states[k], steps[k]);
    if steps[k].Work? && steps[k].t.Publish? && states[k].life.Returned? {
      PublishAfterReturnMeansTimeout(c, states[k], steps[k].w);
    }
  }

  /** How Run returned is settled when it returns: in particular the timeout
      path never closes `results` later. */
  lemma {:induction false} ReturnStaysAsItWas(c: Config, states: seq<State>, steps: seq<Step>, i: nat, j: nat)
    requires IsRun(c, states, steps) && i <= j <= |steps| && states[i].life.Returned?
    ensures states[j].life == states[i].life && states[j].closes == states[i].closes
    ensures states[i].life == Returned(TimedOut) ==> states[j].closes == 0
    decreases j
  {
    InvAlways(c, states, steps, i);
    if i < j {
      ReturnStaysAsItWas(c, states, steps, i, j - 1);
      InvAlways(c, states, steps, j - 1);
      ReturnIsFinal(c, states[j - 1], steps[j - 1]);
    }
  }

  /** A Run whose event config was rejected never has a worker, however often
      Run is called, and leaves `results` closed. */
  lemma BadConfigStartsNothing(c: Config, states: seq<State>, steps: seq<Step>, k: nat)
    requires IsRun(c, states, steps) && k <= |steps| && !c.encoderOk
    ensures states[k].workers == []
    ensures !states[k].life.Fresh? ==> states[k].closes == 1 && states[k].life == Returned(BadConfig)
  {
    InvAlways(c, states, steps, k);
  }
}
