/** Where an entry can be: in `work`, in one worker's hands, or in `done`, and
    never in two of these. `inflight` says exactly whether it is anywhere. */
module PoolPlacement {
  import opened Common
  import opened Pool

  ghost predicate AllBelow(s: seq<nat>, n: nat) {
    forall i :: 0 <= i < |s| ==> s[i] < n
  }

  /** Some worker has entry `e` in hand. */
  ghost predicate InSomeHand(s: State, e: nat) {
    exists w :: 0 <= w < |s.workers| && s.workers[w].Busy? && s.workers[w].e == e
  }

  ghost predicate Somewhere(s: State, e: nat) {
    e in s.work || e in s.done || InSomeHand(s, e)
  }

  ghost predicate ControlInRange(s: State) {
    match s.control
    case Dispatching(e) => e < |s.entries|
    case Classifying(e) => e < |s.entries|
    case Advancing(e) => e < |s.entries|
    case SkipReporting(r) => r.entry < |s.entries|
    case SkipLosing(r) => r.entry < |s.entries|
    case _ => true
  }

  ghost predicate InRange(c: Config, s: State) {
    && |s.entries| == c.targets
    && AllBelow(s.work, c.targets) && AllBelow(s.done, c.targets)
    && (forall w :: 0 <= w < |s.workers| && s.workers[w].Busy? ==> s.workers[w].e < c.targets)
    && ControlInRange(s)
  }

  /** In at most one place. */
  ghost predicate OnePlace(s: State) {
    && Distinct(s.work) && Distinct(s.done)
    && (forall e :: e in s.work ==> e !in s.done && !InSomeHand(s, e))
    && (forall e :: e in s.done ==> !InSomeHand(s, e))
    && (forall v, w :: 0 <= v < w < |s.workers| && s.workers[v].Busy? && s.workers[w].Busy? ==> s.workers[v].e != s.workers[w].e)
  }

  /** The flags tell where: an entry that is somewhere is in flight, a queued one
      is not started, an idle one is neither; and while the scheduler runs, an
      entry in flight is somewhere, save for the one it is about to queue. */
  ghost predicate FlagsTell(s: State) {
    && (forall e :: 0 <= e < |s.entries| && Somewhere(s, e) ==> s.entries[e].inflight)
    && (forall e :: 0 <= e < |s.entries| && e in s.work ==> !s.entries[e].started)
    && (forall e :: 0 <= e < |s.entries| && !s.entries[e].inflight ==> !s.entries[e].started)
    && (s.control.Dispatching? && s.control.e < |s.entries| ==>
          s.entries[s.control.e].inflight && !s.entries[s.control.e].started && !Somewhere(s, s.control.e))
    && (!s.control.Stopped? ==> forall e :: 0 <= e < |s.entries| && s.entries[e].inflight ==>
          Somewhere(s, e) || s.control == Dispatching(e))
    && (s.control.Classifying? && s.control.e < |s.entries| ==> s.entries[s.control.e].inflight)
  }

  predicate HasRun(stage: Stage) {
    stage.Running? || stage.Reporting? || stage.Losing?
  }

  /** A worker that has not marked its entry started is telling the truth, and
      one that runs it has marked it. */
  ghost predicate StagesTell(s: State) {
    && (forall w :: 0 <= w < |s.workers| && InHand(s, w) && (s.workers[w].stage.Held? || s.workers[w].stage.Cleared?) ==>
          !s.entries[s.workers[w].e].started)
    && (forall w :: 0 <= w < |s.workers| && InHand(s, w) && HasRun(s.workers[w].stage) ==> s.entries[s.workers[w].e].started)
  }

  ghost predicate Placed(c: Config, s: State) {
    && InRange(c, s) && OnePlace(s) && FlagsTell(s) && StagesTell(s)
    && (s.control.NotStarted? ==> s.workers == [] && s.work == [])
  }

  lemma PlacedInitially(c: Config)
    ensures Placed(c, Init(c))
  {
  }

  /** Taking the head of a distinct queue. */
  lemma HeadLeaves(q: seq<nat>)
    requires q != [] && Distinct(q)
    ensures Distinct(q[1..])
    ensures forall e :: e in q[1..] <==> e in q && e != q[0]
  {
    forall e | e in q && e != q[0] ensures e in q[1..] {
      var i :| 0 <= i < |q| && q[i] == e;
      assert q[1..][i - 1] == e;
    }
  }

  lemma TailJoins(q: seq<nat>, x: nat)
    requires Distinct(q) && x !in q
    ensures Distinct(q + [x])
    ensures forall e :: e in q + [x] <==> e in q || e == x
  {
  }

  lemma AckTakenKeepsPlaced(c: Config, s: State)
    requires Placed(c, s) && s.done != [] && !s.control.Dispatching? && !s.control.Classifying?
    ensures Placed(c, TakeAck(s))
  {
    HeadLeaves(s.done);
    var t := TakeAck(s);
    assert forall e :: InSomeHand(t, e) <==> InSomeHand(s, e);
    assert s.done[0] in s.done;
    assert forall w :: 0 <= w < |s.workers| && InHand(t, w) ==> InHand(s, w) && InSomeHand(s, s.workers[w].e);
  }

  lemma SameHands(s: State, t: State)
    requires |t.workers| == |s.workers|
    requires forall w :: 0 <= w < |s.workers| ==> SameEntryInHand(s.workers[w], t.workers[w])
    ensures forall e :: InSomeHand(t, e) <==> InSomeHand(s, e)
  {
    forall e | InSomeHand(s, e) ensures InSomeHand(t, e) {
      var w :| 0 <= w < |s.workers| && s.workers[w].Busy? && s.workers[w].e == e;
      assert SameEntryInHand(s.workers[w], t.workers[w]);
    }
    forall e | InSomeHand(t, e) ensures InSomeHand(s, e) {
      var w :| 0 <= w < |t.workers| && t.workers[w].Busy? && t.workers[w].e == e;
      assert SameEntryInHand(s.workers[w], t.workers[w]);
    }
  }

  predicate SameEntryInHand(v: Worker, w: Worker) {
    (v.Busy? <==> w.Busy?) && (v.Busy? ==> v.e == w.e)
  }

  predicate SameFlags(v: Entry, w: Entry) {
    v.inflight == w.inflight && v.started == w.started
  }

  /** Nothing moved and no flag changed; only control, stages and history did. */
  ghost predicate NothingMoved(s: State, t: State) {
    && t.work == s.work && t.done == s.done
    && |t.workers| == |s.workers| && |t.entries| == |s.entries|
    && (forall w :: 0 <= w < |s.workers| ==> SameEntryInHand(s.workers[w], t.workers[w]))
    && (forall e :: 0 <= e < |s.entries| ==> SameFlags(s.entries[e], t.entries[e]))
  }

  /** A change of control that needs no change of place. */
  ghost predicate ControlMayMove(s: State, t: State) {
    && ControlInRange(t)
    && (s.control.Stopped? ==> t.control.Stopped?)
    && (s.control.Dispatching? ==> t.control == s.control || t.control.Stopped?)
    && (t.control.Dispatching? ==> t.control == s.control)
    && (t.control.Classifying? && t.control.e < |t.entries| ==> t.entries[t.control.e].inflight)
    && (t.control.NotStarted? ==> s.control.NotStarted?)
  }

  lemma StayingPut(c: Config, s: State, t: State)
    requires Placed(c, s) && NothingMoved(s, t) && ControlMayMove(s, t) && StagesTell(t)
    ensures Placed(c, t)
  {
    SameHands(s, t);
    assert forall e :: Somewhere(t, e) <==> Somewhere(s, e);
    assert forall e :: 0 <= e < |s.entries| ==> SameFlags(s.entries[e], t.entries[e]);
    assert forall w :: 0 <= w < |s.workers| ==> SameEntryInHand(s.workers[w], t.workers[w]);
    StayingPutInOnePlace(s, t);
  }

  lemma StayingPutInOnePlace(s: State, t: State)
    requires OnePlace(s) && NothingMoved(s, t)
    ensures OnePlace(t)
  {
    SameHands(s, t);
    forall v, w | 0 <= v < w < |t.workers| && t.workers[v].Busy? && t.workers[w].Busy? ensures t.workers[v].e != t.workers[w].e {
      assert SameEntryInHand(s.workers[v], t.workers[v]) && SameEntryInHand(s.workers[w], t.workers[w]);
    }
  }

  lemma StagesStay(s: State, t: State)
    requires StagesTell(s) && t.workers == s.workers && |t.entries| == |s.entries|
    requires forall e :: 0 <= e < |s.entries| ==> SameFlags(s.entries[e], t.entries[e])
    ensures StagesTell(t)
  {
    assert forall w: nat :: InHand(t, w) ==> InHand(s, w) && SameFlags(s.entries[s.workers[w].e], t.entries[s.workers[w].e]);
  }

  lemma EnqueueKeepsPlaced(c: Config, s: State)
    requires Placed(c, s) && SchedulerEnabled(c, s, Enqueue)
    ensures Placed(c, SchedulerApply(c, s, Enqueue))
  {
    TailJoins(s.work, s.control.e);
    SameHands(s, SchedulerApply(c, s, Enqueue));
  }

  lemma PickIdleKeepsPlaced(c: Config, s: State, e: nat)
    requires Placed(c, s) && SchedulerEnabled(c, s, PickIdle(e))
    ensures Placed(c, SchedulerApply(c, s, PickIdle(e)))
  {
    var t := SchedulerApply(c, s, PickIdle(e));
    SameHands(s, t);
    forall w | 0 <= w < |s.workers| && InHand(s, w) ensures s.workers[w].e != e {
      assert InSomeHand(s, s.workers[w].e);
    }
  }

  lemma AckStepKeepsPlaced(c: Config, s: State, step: SchedulerStep)
    requires Placed(c, s) && SchedulerEnabled(c, s, step) && (step.DrainOne? || step.AckWake?)
    ensures Placed(c, SchedulerApply(c, s, step))
  {
    AckTakenKeepsPlaced(c, s);
    var u, t := TakeAck(s), SchedulerApply(c, s, step);
    StagesStay(u, t);
    StayingPut(c, u, t);
  }

  /** The scheduler steps that move no entry. */
  lemma SchedulerStaysPut(c: Config, s: State, step: SchedulerStep)
    requires InRange(c, s) && SchedulerEnabled(c, s, step)
    requires !step.DrainOne? && !step.AckWake? && !step.Enqueue? && !step.PickIdle?
    ensures NothingMoved(s, SchedulerApply(c, s, step)) && ControlMayMove(s, SchedulerApply(c, s, step))
    ensures SchedulerApply(c, s, step).workers == s.workers
  {
  }

  lemma PrivateStepKeepsPlaced(c: Config, s: State, step: SchedulerStep)
    requires Placed(c, s) && SchedulerEnabled(c, s, step)
    requires !step.DrainOne? && !step.AckWake? && !step.Enqueue? && !step.PickIdle?
    ensures Placed(c, SchedulerApply(c, s, step))
  {
    var t := SchedulerApply(c, s, step);
    SchedulerStaysPut(c, s, step);
    StagesStay(s, t);
    StayingPut(c, s, t);
  }

  lemma SchedulerKeepsPlaced(c: Config, s: State, step: SchedulerStep)
    requires Placed(c, s) && SchedulerEnabled(c, s, step)
    ensures Placed(c, SchedulerApply(c, s, step))
  {
    if step.DrainOne? || step.AckWake? {
      AckStepKeepsPlaced(c, s, step);
    } else if step.Enqueue? {
      EnqueueKeepsPlaced(c, s);
    } else if step.PickIdle? {
      PickIdleKeepsPlaced(c, s, step.e);
    } else {
      PrivateStepKeepsPlaced(c, s, step);
    }
  }

  /** What one worker's move does to "in some hand". */
  lemma HandsAfter(s: State, t: State, w: nat)
    requires w < |s.workers| == |t.workers| && t.workers == s.workers[w := t.workers[w]]
    ensures forall e :: InSomeHand(t, e) ==> InSomeHand(s, e) || (t.workers[w].Busy? && t.workers[w].e == e)
    ensures forall e :: InSomeHand(s, e) && !(s.workers[w].Busy? && s.workers[w].e == e) ==> InSomeHand(t, e)
    ensures t.workers[w].Busy? ==> InSomeHand(t, t.workers[w].e)
    ensures s.workers[w].Busy? ==> InSomeHand(s, s.workers[w].e)
  {
    forall e | InSomeHand(s, e) && !(s.workers[w].Busy? && s.workers[w].e == e) ensures InSomeHand(t, e) {
      var v :| 0 <= v < |s.workers| && s.workers[v].Busy? && s.workers[v].e == e;
      assert t.workers[v] == s.workers[v];
    }
    forall e | InSomeHand(t, e) && !(t.workers[w].Busy? && t.workers[w].e == e) ensures InSomeHand(s, e) {
      var v :| 0 <= v < |t.workers| && t.workers[v].Busy? && t.workers[v].e == e;
      assert t.workers[v] == s.workers[v];
    }
  }

  lemma TakeKeepsPlaced(c: Config, s: State, w: nat)
    requires Placed(c, s) && WorkerEnabled(c, s, w, Take)
    ensures Placed(c, WorkerApply(c, s, w, Take))
  {
    var t := WorkerApply(c, s, w, Take);
    HeadLeaves(s.work);
    HandsAfter(s, t, w);
    assert s.work[0] in s.work;
    forall v | 0 <= v < |s.workers| && s.workers[v].Busy? ensures s.workers[v].e != s.work[0] {
      assert InSomeHand(s, s.workers[v].e);
    }
  }

  lemma AckKeepsPlaced(c: Config, s: State, w: nat)
    requires Placed(c, s) && WorkerEnabled(c, s, w, Ack)
    ensures Placed(c, WorkerApply(c, s, w, Ack))
  {
    var t := WorkerApply(c, s, w, Ack);
    HandsAfter(s, t, w);
    TailJoins(s.done, s.workers[w].e);
    assert !InSomeHand(t, s.workers[w].e);
  }

  lemma MarkStartedKeepsPlaced(c: Config, s: State, w: nat)
    requires Placed(c, s) && WorkerEnabled(c, s, w, MarkStarted)
    ensures Placed(c, WorkerApply(c, s, w, MarkStarted))
  {
    var t := WorkerApply(c, s, w, MarkStarted);
    HandsAfter(s, t, w);
    assert forall e :: InSomeHand(t, e) <==> InSomeHand(s, e);
  }

  /** The worker steps that move no entry and change no flag. */
  lemma WorkerStaysPut(c: Config, s: State, w: nat, step: WorkerStep)
    requires InRange(c, s) && StagesTell(s) && WorkerEnabled(c, s, w, step)
    requires !step.Take? && !step.Ack? && !step.MarkStarted?
    ensures NothingMoved(s, WorkerApply(c, s, w, step))
    ensures WorkerApply(c, s, w, step).control == s.control
    ensures StagesTell(WorkerApply(c, s, w, step))
  {
    WorkerMovesOnlyItself(c, s, w, step);
    var t := WorkerApply(c, s, w, step);
    forall v: nat | v != w && InHand(t, v) ensures InHand(s, v) && SameFlags(s.entries[s.workers[v].e], t.entries[s.workers[v].e]) {
      assert t.workers[v] == s.workers[v];
    }
  }

  lemma WorkerMovesOnlyItself(c: Config, s: State, w: nat, step: WorkerStep)
    requires WorkerEnabled(c, s, w, step) && !step.Take? && !step.Ack? && !step.MarkStarted?
    ensures var t := WorkerApply(c, s, w, step);
      && t.work == s.work && t.done == s.done && t.control == s.control
      && |t.workers| == |s.workers| && (forall v :: 0 <= v < |s.workers| && v != w ==> t.workers[v] == s.workers[v])
      && SameEntryInHand(s.workers[w], t.workers[w])
      && |t.entries| == |s.entries| && (forall e :: 0 <= e < |s.entries| ==> SameFlags(s.entries[e], t.entries[e]))
  {
  }

  lemma WorkerKeepsPlaced(c: Config, s: State, w: nat, step: WorkerStep)
    requires Placed(c, s) && WorkerEnabled(c, s, w, step)
    ensures Placed(c, WorkerApply(c, s, w, step))
  {
    if step.Take? {
      TakeKeepsPlaced(c, s, w);
    } else if step.Ack? {
      AckKeepsPlaced(c, s, w);
    } else if step.MarkStarted? {
      MarkStartedKeepsPlaced(c, s, w);
    } else {
      WorkerStaysPut(c, s, w, step);
      StayingPut(c, s, WorkerApply(c, s, w, step));
    }
  }

  lemma StartKeepsPlaced(c: Config, s: State)
    requires Placed(c, s) && RunEnabled(c, s, Start) && s.control.NotStarted? && s.done == []
    ensures Placed(c, RunApply(c, s, Start))
  {
    var t := RunApply(c, s, Start);
    assert forall e :: !InSomeHand(t, e) && !InSomeHand(s, e);
  }

  /** Run, the canceller and the consumer move no entry. */
  lemma RunStaysPut(c: Config, s: State, step: RunStep)
    requires RunEnabled(c, s, step) && !step.Start? && InRange(c, s)
    ensures NothingMoved(s, RunApply(c, s, step)) && RunApply(c, s, step).control == s.control
    ensures RunApply(c, s, step).workers == s.workers
  {
  }

  lemma RunStepKeepsPlaced(c: Config, s: State, step: RunStep)
    requires Placed(c, s) && RunEnabled(c, s, step)
    requires s.life.Fresh? ==> s.control.NotStarted? && s.done == []
    ensures Placed(c, RunApply(c, s, step))
  {
    if step.Start? {
      StartKeepsPlaced(c, s);
    } else {
      var t := RunApply(c, s, step);
      RunStaysPut(c, s, step);
      StagesStay(s, t);
      StayingPut(c, s, t);
    }
  }
}
