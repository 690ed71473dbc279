/** How many acks a drain takes, and what a skip says about the run it waited
    for. */
module PoolProgress {
  import opened Pool
  import opened PoolPlacement

  function InFlight(es: seq<Entry>): nat {
    if es == [] then 0 else (if es[0].inflight then 1 else 0) + InFlight(es[1..])
  }

  lemma {:induction false} InFlightAtMostAll(es: seq<Entry>)
    ensures InFlight(es) <= |es|
  {
    if es != [] {
      InFlightAtMostAll(es[1..]);
    }
  }

  lemma {:induction false} InFlightChange(es: seq<Entry>, e: nat, x: Entry)
    requires e < |es|
    ensures InFlight(es[e := x]) + (if es[e].inflight then 1 else 0) == InFlight(es) + (if x.inflight then 1 else 0)
  {
    if e == 0 {
      assert es[e := x][1..] == es[1..];
    } else {
      InFlightChange(es[1..], e - 1, x);
      assert es[e := x][1..] == es[1..][e - 1 := x];
    }
  }

  /** While draining, each ack taken used up one entry in flight; and whatever
      was on `done` when the drain began is still there or idle again. */
  ghost predicate DrainBounded(s: State) {
    && (s.control.Draining? ==> s.drained + InFlight(s.entries) <= |s.entries|)
    && (s.control.Draining? ==> forall e :: 0 <= e < |s.entries| && e in s.acked ==> e in s.done || !s.entries[e].inflight)
    && (s.control.Judging? ==> forall e :: 0 <= e < |s.entries| && e in s.acked ==> !s.entries[e].inflight)
    && (s.control.Classifying? ==> s.control.e !in s.acked)
  }

  /** `startedFor` is the number of a past or present dispatch; while the
      scheduler runs, the flag says whether it is the present one. */
  ghost predicate StartsNumbered(s: State) {
    && (forall e :: 0 <= e < |s.entries| ==> s.entries[e].startedFor <= s.entries[e].dispatches)
    && (!s.control.Stopped? ==> forall e :: 0 <= e < |s.entries| && s.entries[e].inflight && s.control != Dispatching(e) ==>
          (s.entries[e].started <==> s.entries[e].startedFor == s.entries[e].dispatches))
  }

  ghost predicate Progressing(s: State) {
    DrainBounded(s) && StartsNumbered(s)
  }

  lemma ProgressingInitially(c: Config)
    ensures Progressing(Init(c))
  {
  }

  lemma AckTakenKeepsDrain(c: Config, s: State)
    requires Placed(c, s) && DrainBounded(s) && s.control.Draining? && s.done != []
    ensures DrainBounded(SchedulerApply(c, s, DrainOne))
  {
    var e := s.done[0];
    assert e in s.done && Somewhere(s, e);
    InFlightChange(s.entries, e, TakeAck(s).entries[e]);
    HeadLeaves(s.done);
  }

  lemma SchedulerKeepsDrain(c: Config, s: State, step: SchedulerStep)
    requires Placed(c, s) && DrainBounded(s) && SchedulerEnabled(c, s, step)
    ensures DrainBounded(SchedulerApply(c, s, step))
  {
    var t := SchedulerApply(c, s, step);
    InFlightAtMostAll(t.entries);
    if step.DrainOne? {
      AckTakenKeepsDrain(c, s);
    }
  }

  lemma WorkerKeepsDrain(c: Config, s: State, w: nat, step: WorkerStep)
    requires Placed(c, s) && DrainBounded(s) && WorkerEnabled(c, s, w, step)
    ensures DrainBounded(WorkerApply(c, s, w, step))
  {
    var t := WorkerApply(c, s, w, step);
    if step.SeeCancelled? || step.MarkStarted? || step.FinishRun? {
      InFlightChange(s.entries, s.workers[w].e, t.entries[s.workers[w].e]);
    } else if step.Ack? {
      assert forall e :: e in s.done ==> e in t.done;
    }
  }

  lemma RunKeepsProgress(c: Config, s: State, step: RunStep)
    requires Progressing(s) && RunEnabled(c, s, step)
    requires s.life.Fresh? ==> s.control.NotStarted? && s.done == []
    ensures Progressing(RunApply(c, s, step))
  {
    InFlightAtMostAll(s.entries);
  }

  lemma SchedulerKeepsStarts(c: Config, s: State, step: SchedulerStep)
    requires Placed(c, s) && StartsNumbered(s) && SchedulerEnabled(c, s, step)
    ensures StartsNumbered(SchedulerApply(c, s, step))
  {
  }

  lemma WorkerKeepsStarts(c: Config, s: State, w: nat, step: WorkerStep)
    requires Placed(c, s) && StartsNumbered(s) && WorkerEnabled(c, s, w, step)
    ensures StartsNumbered(WorkerApply(c, s, w, step))
  {
  }
}
