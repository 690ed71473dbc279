/** Dispatches and acks over any number of laps: an entry that has been queued is
    in flight until it is acked, and until then it is skipped, not queued again. */
module Flights {
  import opened Turns
  import opened LapViews

  /** One iteration, whether it arms or not, and its reading of the clock. */
  datatype Round = Round(now: int, turn: Turn)

  ghost predicate RoundStep(f: Fleet, v: View, r: Round, w: View) {
    var t := r.turn;
    && Consistent(f, v) && AreMarks(v, t.marks) && AreEntries(t.acks, |v.next|) && IsTop(v.next, t.top)
    && w == Iterated(f, Found(f, v, t.marks, t.acks), r.now, t.top)
  }

  /** Iterations one after the other, over any readings of the clock. */
  ghost predicate IsService(f: Fleet, views: seq<View>, rounds: seq<Round>) {
    && |views| == |rounds| + 1 && Consistent(f, views[0])
    && forall k :: 0 <= k < |rounds| ==> RoundStep(f, views[k], rounds[k], views[k + 1])
  }

  // ------------------------------------------------------------- one iteration

  /** What is on its way when the round has drained. */
  ghost predicate Busy(v: View, t: Turn, e: nat) {
    e < |v.inflight| && v.inflight[e] && e !in v.done && e !in t.acks
  }

  ghost predicate Started(v: View, t: Turn, e: nat) {
    e < |v.started| && (v.started[e] || e in t.marks) && e !in v.done && e !in t.acks
  }

  /** The round judges entry `e`. */
  ghost predicate Judges(v: View, r: Round, e: nat) {
    r.turn.top == e < |v.next| && v.next[e] <= r.now
  }

  /** An iteration, in terms of what can be seen before and after it: a due top is
      in flight afterwards, queued if it was idle and reported if not; everything
      else only has its acks and marks taken. */
  lemma OneRound(f: Fleet, v: View, r: Round, w: View, e: nat)
    requires RoundStep(f, v, r, w) && e < |v.next|
    ensures Consistent(f, w) && w.done == [] && |w.next| == |v.next|
    ensures w.inflight[e] <==> Busy(v, r.turn, e) || Judges(v, r, e)
    ensures w.started[e] <==> Started(v, r.turn, e)
    ensures Judges(v, r, r.turn.top) ==>
      var top := r.turn.top;
      && w.work == v.work + (if Busy(v, r.turn, top) then [] else [top])
      && w.skips == v.skips + if !Busy(v, r.turn, top) then []
                              else [Skip(top, if Started(v, r.turn, top) then PriorRunStarted else PriorRunQueued)]
    ensures !Judges(v, r, r.turn.top) ==> w.work == v.work && w.skips == v.skips
  {
  }

  // ------------------------------------------------------------ over all rounds

  lemma RoundOfService(f: Fleet, views: seq<View>, rounds: seq<Round>, k: nat)
    requires IsService(f, views, rounds) && k < |rounds|
    ensures RoundStep(f, views[k], rounds[k], views[k + 1])
  {
  }

  lemma {:induction false} ServiceIsConsistent(f: Fleet, views: seq<View>, rounds: seq<Round>, k: nat)
    requires IsService(f, views, rounds) && k <= |rounds|
    ensures Consistent(f, views[k]) && |views[k].next| == |f.intervals| && (k > 0 ==> views[k].done == [])
  {
    if k > 0 {
      ServiceIsConsistent(f, views, rounds, k - 1);
      RoundOfService(f, views, rounds, k - 1);
      OneRound(f, views[k - 1], rounds[k - 1], views[k], rounds[k - 1].turn.top);
    }
  }

  /** Round `i` puts the entry into the work queue. */
  ghost predicate QueuedAt(views: seq<View>, i: nat, e: nat) {
    i + 1 < |views| && views[i + 1].work == views[i].work + [e]
  }

  /** Round `i` reports a slot of the entry as skipped. */
  ghost predicate SkippedAt(views: seq<View>, i: nat, e: nat, kind: SkipKind) {
    i + 1 < |views| && views[i + 1].skips == views[i].skips + [Skip(e, kind)]
  }

  /** No ack of the entry is drained by rounds i up to k. */
  ghost predicate NoAck(rounds: seq<Round>, i: nat, k: nat, e: nat)
    requires k <= |rounds|
  {
    forall r :: i <= r < k ==> e !in rounds[r].turn.acks
  }

  /** Queued before round `k` (or in flight from the start), and not acked before
      round `m`. */
  ghost predicate Open(views: seq<View>, rounds: seq<Round>, k: nat, m: nat, e: nat)
    requires k <= m <= |rounds| && |views| == |rounds| + 1
  {
    || (exists i :: 0 <= i < k && QueuedAt(views, i, e) && NoAck(rounds, i + 1, m, e))
    || (e < |views[0].inflight| && views[0].inflight[e] && e !in views[0].done && NoAck(rounds, 0, m, e))
  }

  /** Marked started before round `k` (or from the start), and not acked before
      round `m`. */
  ghost predicate Running(views: seq<View>, rounds: seq<Round>, k: nat, m: nat, e: nat)
    requires k <= m <= |rounds| && |views| == |rounds| + 1
  {
    || (exists i :: 0 <= i < k && e in rounds[i].turn.marks && NoAck(rounds, i, m, e))
    || (e < |views[0].started| && views[0].started[e] && e !in views[0].done && NoAck(rounds, 0, m, e))
  }

  lemma OpenUnlessAcked(views: seq<View>, rounds: seq<Round>, k: nat, e: nat)
    requires k < |rounds| && |views| == |rounds| + 1
    ensures Open(views, rounds, k, k + 1, e) <==> Open(views, rounds, k, k, e) && e !in rounds[k].turn.acks
  {
    if Open(views, rounds, k, k, e) && e !in rounds[k].turn.acks {
      if i :| 0 <= i < k && QueuedAt(views, i, e) && NoAck(rounds, i + 1, k, e) {
        assert NoAck(rounds, i + 1, k + 1, e);
      }
    }
    if Open(views, rounds, k, k + 1, e) {
      if i :| 0 <= i < k && QueuedAt(views, i, e) && NoAck(rounds, i + 1, k + 1, e) {
        assert NoAck(rounds, i + 1, k, e);
      }
    }
  }

  lemma OpenWhenQueued(views: seq<View>, rounds: seq<Round>, k: nat, e: nat)
    requires k < |rounds| && |views| == |rounds| + 1
    ensures Open(views, rounds, k + 1, k + 1, e) <==> Open(views, rounds, k, k + 1, e) || QueuedAt(views, k, e)
  {
    if QueuedAt(views, k, e) {
      assert NoAck(rounds, k + 1, k + 1, e);
    }
  }

  lemma RunningUnlessAcked(views: seq<View>, rounds: seq<Round>, k: nat, e: nat)
    requires k < |rounds| && |views| == |rounds| + 1
    ensures Running(views, rounds, k + 1, k + 1, e) <==>
      (Running(views, rounds, k, k, e) || e in rounds[k].turn.marks) && e !in rounds[k].turn.acks
  {
    var now := Running(views, rounds, k + 1, k + 1, e);
    if e !in rounds[k].turn.acks {
      if i :| 0 <= i < k && e in rounds[i].turn.marks && NoAck(rounds, i, k, e) {
        assert NoAck(rounds, i, k + 1, e);
      }
      if e in rounds[k].turn.marks {
        assert NoAck(rounds, k, k + 1, e);
      }
    }
    if i :| 0 <= i < k + 1 && e in rounds[i].turn.marks && NoAck(rounds, i, k + 1, e) {
      assert i < k ==> NoAck(rounds, i, k, e);
    }
  }

  lemma AppendedOne(work: seq<nat>, top: nat, e: nat)
    ensures work + [top] == work + [e] <==> top == e
    ensures work != work + [e]
  {
    assert (work + [top])[|work|] == top && (work + [e])[|work|] == e;
  }

  lemma QueuesOnlyItsTop(f: Fleet, views: seq<View>, rounds: seq<Round>, k: nat, e: nat)
    requires IsService(f, views, rounds) && k < |rounds|
    ensures QueuedAt(views, k, e) <==> Judges(views[k], rounds[k], e) && !Busy(views[k], rounds[k].turn, e)
  {
    RoundOfService(f, views, rounds, k);
    OneRound(f, views[k], rounds[k], views[k + 1], rounds[k].turn.top);
    AppendedOne(views[k].work, rounds[k].turn.top, e);
  }

  lemma BusyOrQueued(f: Fleet, views: seq<View>, rounds: seq<Round>, k: nat, e: nat)
    requires IsService(f, views, rounds) && k < |rounds| && e < |f.intervals|
    ensures Consistent(f, views[k + 1]) && |views[k + 1].inflight| == |f.intervals| && views[k + 1].done == []
    ensures views[k + 1].inflight[e] <==> Busy(views[k], rounds[k].turn, e) || QueuedAt(views, k, e)
  {
    ServiceIsConsistent(f, views, rounds, k);
    RoundOfService(f, views, rounds, k);
    OneRound(f, views[k], rounds[k], views[k + 1], e);
    QueuesOnlyItsTop(f, views, rounds, k, e);
  }

  /** In flight, pending acks apart. */
  ghost predicate Flies(v: View, e: nat) { e < |v.inflight| && v.inflight[e] && e !in v.done }

  /** Marked started, pending acks apart. */
  ghost predicate Runs(v: View, e: nat) { e < |v.started| && v.started[e] && e !in v.done }

  lemma OpenOneRoundLater(f: Fleet, views: seq<View>, rounds: seq<Round>, k: nat, e: nat)
    requires IsService(f, views, rounds) && k < |rounds| && e < |f.intervals|
    requires Flies(views[k], e) <==> Open(views, rounds, k, k, e)
    ensures Flies(views[k + 1], e) <==> Open(views, rounds, k + 1, k + 1, e)
  {
    OpenUnlessAcked(views, rounds, k, e);
    BusyOrQueued(f, views, rounds, k, e);
    OpenWhenQueued(views, rounds, k, e);
  }

  /** At every point of every service an entry is in flight, its pending acks
      apart, if and only if it has been queued and not been acked since. A skip
      changes nothing about that. */
  lemma {:induction false} InFlightIffOpen(f: Fleet, views: seq<View>, rounds: seq<Round>, k: nat, e: nat)
    requires IsService(f, views, rounds) && k <= |rounds| && e < |f.intervals|
    ensures Flies(views[k], e) <==> Open(views, rounds, k, k, e)
  {
    if k > 0 {
      InFlightIffOpen(f, views, rounds, k - 1, e);
      OpenOneRoundLater(f, views, rounds, k - 1, e);
    }
  }

  lemma MarkedOrRunning(f: Fleet, views: seq<View>, rounds: seq<Round>, k: nat, e: nat)
    requires IsService(f, views, rounds) && k < |rounds| && e < |f.intervals|
    ensures Runs(views[k + 1], e) <==> (Runs(views[k], e) || e in rounds[k].turn.marks) && e !in rounds[k].turn.acks
  {
    ServiceIsConsistent(f, views, rounds, k);
    RoundOfService(f, views, rounds, k);
    OneRound(f, views[k], rounds[k], views[k + 1], e);
    if e in views[k].done {
      assert e !in rounds[k].turn.marks;
    }
  }

  /** And it is marked started if and only if a worker has marked it, and no ack
      has come since: neither a dispatch nor a skip changes that. */
  lemma {:induction false} StartedIffRunning(f: Fleet, views: seq<View>, rounds: seq<Round>, k: nat, e: nat)
    requires IsService(f, views, rounds) && k <= |rounds| && e < |f.intervals|
    ensures Runs(views[k], e) <==> Running(views, rounds, k, k, e)
  {
    if k > 0 {
      StartedIffRunning(f, views, rounds, k - 1, e);
      MarkedOrRunning(f, views, rounds, k - 1, e);
      RunningUnlessAcked(views, rounds, k - 1, e);
    }
  }

  lemma BusyIffOpen(f: Fleet, views: seq<View>, rounds: seq<Round>, k: nat, e: nat)
    requires IsService(f, views, rounds) && k < |rounds| && e < |f.intervals|
    ensures Busy(views[k], rounds[k].turn, e) <==> Open(views, rounds, k, k + 1, e)
  {
    ServiceIsConsistent(f, views, rounds, k);
    InFlightIffOpen(f, views, rounds, k, e);
    OpenUnlessAcked(views, rounds, k, e);
  }

  lemma StartedIffRunningHere(f: Fleet, views: seq<View>, rounds: seq<Round>, k: nat, e: nat)
    requires IsService(f, views, rounds) && k < |rounds| && e < |f.intervals|
    ensures Started(views[k], rounds[k].turn, e) <==> Running(views, rounds, k + 1, k + 1, e)
  {
    StartedIffRunning(f, views, rounds, k, e);
    RunningUnlessAcked(views, rounds, k, e);
    ServiceIsConsistent(f, views, rounds, k);
    RoundOfService(f, views, rounds, k);
  }

  /** Every judgement is right: a due entry on top is queued if its last dispatch
      has been acked, and otherwise its slot is skipped, as "started" exactly if a
      worker has marked that run started. */
  lemma JudgedByItsLastDispatch(f: Fleet, views: seq<View>, rounds: seq<Round>, k: nat, e: nat)
    requires IsService(f, views, rounds) && k < |rounds| && Judges(views[k], rounds[k], e)
    ensures if Open(views, rounds, k, k + 1, e)
      then SkippedAt(views, k, e, if Running(views, rounds, k + 1, k + 1, e) then PriorRunStarted else PriorRunQueued)
        && views[k + 1].work == views[k].work
      else QueuedAt(views, k, e) && views[k + 1].skips == views[k].skips
  {
    RoundOfService(f, views, rounds, k);
    OneRound(f, views[k], rounds[k], views[k + 1], e);
    BusyIffOpen(f, views, rounds, k, e);
    StartedIffRunningHere(f, views, rounds, k, e);
  }

  /** A target never overlaps itself: between two dispatches of an entry, over
      however many laps and skips, an ack of it has been drained. */
  lemma QueuedAgainOnlyAfterAck(f: Fleet, views: seq<View>, rounds: seq<Round>, i: nat, k: nat, e: nat)
    requires IsService(f, views, rounds) && i < k < |rounds| && QueuedAt(views, i, e) && QueuedAt(views, k, e)
    ensures exists r :: i < r <= k && e in rounds[r].turn.acks
  {
    QueuesOnlyItsTop(f, views, rounds, k, e);
    BusyIffOpen(f, views, rounds, k, e);
    assert !NoAck(rounds, i + 1, k + 1, e);
  }

  // --------------------------------------------------------------- laps are that

  /** The burst of a lap, all at one reading. */
  function RoundsOf(now: int, turns: seq<Turn>): (rounds: seq<Round>)
    ensures |rounds| == |turns| && forall k :: 0 <= k < |turns| ==> rounds[k] == Round(now, turns[k])
  {
    seq(|turns|, k requires 0 <= k < |turns| => Round(now, turns[k]))
  }

  lemma BurstIsService(f: Fleet, now: int, views: seq<View>, turns: seq<Turn>)
    requires IsBurst(f, now, views, turns)
    ensures IsService(f, views, RoundsOf(now, turns))
  {
    forall k | 0 <= k < |turns| ensures RoundStep(f, views[k], RoundsOf(now, turns)[k], views[k + 1]) {
      TurnOfBurst(f, now, views, turns, k);
    }
  }

  lemma ServiceGrows(f: Fleet, views: seq<View>, rounds: seq<Round>, r: Round, w: View)
    requires IsService(f, views, rounds) && RoundStep(f, views[|rounds|], r, w)
    ensures IsService(f, views + [w], rounds + [r])
  {
    var more, longer := views + [w], rounds + [r];
    forall k | 0 <= k < |longer| ensures RoundStep(f, more[k], longer[k], more[k + 1]) {
      assert k < |rounds| ==> more[k] == views[k] && more[k + 1] == views[k + 1] && longer[k] == rounds[k];
    }
  }
}
