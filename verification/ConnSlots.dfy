/** The admin listener's connection slots: Accept calls, connection closes and
    listener closes in any interleaving over one semaphore channel. */
module ConnSlots {

  /** An Accept call: choosing between a slot and the done channel, inside the
      inner Accept with a slot, giving the slot back after an error, returned. */
  datatype Call = Choosing | Accepting | GivingBack | Over

  /** `sync.Once` of one connection's release: not entered, entered, done. */
  datatype Once = Unused | Entered | Done

  /** `returned` counts the slots this connection has given back. */
  datatype Conn = Conn(once: Once, returned: nat)

  /** `slots` is how many tokens are in the semaphore channel. */
  datatype State = State(cap: nat, slots: nat, done: bool, doneCloses: nat, calls: seq<Call>, conns: seq<Conn>)

  datatype Step =
    | CallAccept | TakeSlot(a: nat) | SeeDone(a: nat)
    | InnerAccepts(a: nat) | InnerFails(a: nat) | GiveBack(a: nat)
    | CloseConn(i: nat) | Release(i: nat)
    | CloseListener

  function Init(cap: nat): State { State(cap, 0, false, 0, [], []) }

  predicate Enabled(s: State, step: Step) {
    match step
    case CallAccept => true
    case TakeSlot(a) => a < |s.calls| && s.calls[a].Choosing? && s.slots < s.cap
    case SeeDone(a) => a < |s.calls| && s.calls[a].Choosing? && s.done
    case InnerAccepts(a) => a < |s.calls| && s.calls[a].Accepting?
    case InnerFails(a) => a < |s.calls| && s.calls[a].Accepting?
    case GiveBack(a) => a < |s.calls| && s.calls[a].GivingBack? && s.slots > 0
    case CloseConn(i) => i < |s.conns|
    case Release(i) => i < |s.conns| && s.conns[i].once.Entered? && s.slots > 0
    case CloseListener => true
  }

  function Apply(s: State, step: Step): State
    requires Enabled(s, step)
  {
    match step
    case CallAccept => s.(calls := s.calls + [Choosing])
    case TakeSlot(a) => s.(slots := s.slots + 1, calls := s.calls[a := Accepting])
    case SeeDone(a) => s.(calls := s.calls[a := Over])
    case InnerAccepts(a) => s.(calls := s.calls[a := Over], conns := s.conns + [Conn(Unused, 0)])
    case InnerFails(a) => s.(calls := s.calls[a := GivingBack])
    case GiveBack(a) => s.(slots := s.slots - 1, calls := s.calls[a := Over])
    case CloseConn(i) =>
      // Only the first Close enters the once; a later one waits for it or returns.
      if s.conns[i].once.Unused? then s.(conns := s.conns[i := s.conns[i].(once := Entered)]) else s
    case Release(i) => s.(slots := s.slots - 1, conns := s.conns[i := Conn(Done, s.conns[i].returned + 1)])
    case CloseListener => if s.done then s else s.(done := true, doneCloses := s.doneCloses + 1)
  }

  ghost predicate IsRun(states: seq<State>, steps: seq<Step>) {
    && |states| == |steps| + 1
    && (exists cap: nat :: states[0] == Init(cap))
    && forall k :: 0 <= k < |steps| ==> Enabled(states[k], steps[k]) && states[k + 1] == Apply(states[k], steps[k])
  }

  function CallHolds(c: Call): nat { if c.Accepting? || c.GivingBack? then 1 else 0 }

  function ConnHolds(c: Conn): nat { if c.once.Done? then 0 else 1 }

  /** Accepts in progress. */
  function HeldByCalls(calls: seq<Call>): nat {
    if calls == [] then 0 else CallHolds(calls[0]) + HeldByCalls(calls[1..])
  }

  /** Connections not yet released. */
  function HeldByConns(conns: seq<Conn>): nat {
    if conns == [] then 0 else ConnHolds(conns[0]) + HeldByConns(conns[1..])
  }

  lemma {:induction false} CallChanges(calls: seq<Call>, a: nat, c: Call)
    requires a < |calls|
    ensures HeldByCalls(calls[a := c]) + CallHolds(calls[a]) == HeldByCalls(calls) + CallHolds(c)
  {
    if a == 0 {
      assert calls[a := c][1..] == calls[1..];
    } else {
      CallChanges(calls[1..], a - 1, c);
      assert calls[a := c][1..] == calls[1..][a - 1 := c];
    }
  }

  lemma {:induction false} CallAdded(calls: seq<Call>, c: Call)
    ensures HeldByCalls(calls + [c]) == HeldByCalls(calls) + CallHolds(c)
  {
    if calls == [] {
      assert calls + [c] == [c];
    } else {
      CallAdded(calls[1..], c);
      assert (calls + [c])[1..] == calls[1..] + [c];
    }
  }

  lemma {:induction false} ConnChanges(conns: seq<Conn>, i: nat, c: Conn)
    requires i < |conns|
    ensures HeldByConns(conns[i := c]) + ConnHolds(conns[i]) == HeldByConns(conns) + ConnHolds(c)
  {
    if i == 0 {
      assert conns[i := c][1..] == conns[1..];
    } else {
      ConnChanges(conns[1..], i - 1, c);
      assert conns[i := c][1..] == conns[1..][i - 1 := c];
    }
  }

  lemma {:induction false} ConnAdded(conns: seq<Conn>, c: Conn)
    ensures HeldByConns(conns + [c]) == HeldByConns(conns) + ConnHolds(c)
  {
    if conns == [] {
      assert conns + [c] == [c];
    } else {
      ConnAdded(conns[1..], c);
      assert (conns + [c])[1..] == conns[1..] + [c];
    }
  }

  ghost predicate Inv(s: State) {
    && s.slots == HeldByCalls(s.calls) + HeldByConns(s.conns)
    && s.slots <= s.cap
    && (forall i :: 0 <= i < |s.conns| ==> s.conns[i].returned == if s.conns[i].once.Done? then 1 else 0)
    && s.doneCloses == if s.done then 1 else 0
  }

  lemma CallStepKeepsInv(s: State, step: Step)
    requires Inv(s) && Enabled(s, step)
    requires step.CallAccept? || step.TakeSlot? || step.SeeDone? || step.InnerFails? || step.GiveBack?
    ensures Inv(Apply(s, step)) && Apply(s, step).cap == s.cap
  {
    match step
    case CallAccept => CallAdded(s.calls, Choosing);
    case TakeSlot(a) => CallChanges(s.calls, a, Accepting);
    case SeeDone(a) => CallChanges(s.calls, a, Over);
    case InnerFails(a) => CallChanges(s.calls, a, GivingBack);
    case GiveBack(a) => CallChanges(s.calls, a, Over);
  }

  lemma ConnStepKeepsInv(s: State, step: Step)
    requires Inv(s) && Enabled(s, step)
    requires step.InnerAccepts? || step.CloseConn? || step.Release? || step.CloseListener?
    ensures Inv(Apply(s, step)) && Apply(s, step).cap == s.cap
  {
    match step
    case InnerAccepts(a) =>
      CallChanges(s.calls, a, Over);
      ConnAdded(s.conns, Conn(Unused, 0));
    case CloseConn(i) => ConnChanges(s.conns, i, s.conns[i].(once := Entered));
    case Release(i) => ConnChanges(s.conns, i, Conn(Done, s.conns[i].returned + 1));
    case CloseListener =>
  }

  lemma StepKeepsInv(s: State, step: Step)
    requires Inv(s) && Enabled(s, step)
    ensures Inv(Apply(s, step)) && Apply(s, step).cap == s.cap
  {
    if step.InnerAccepts? || step.CloseConn? || step.Release? || step.CloseListener? {
      ConnStepKeepsInv(s, step);
    } else {
      CallStepKeepsInv(s, step);
    }
  }

  lemma {:induction false} InvAlways(states: seq<State>, steps: seq<Step>, k: nat)
    requires IsRun(states, steps) && k <= |steps|
    ensures Inv(states[k]) && states[k].cap == states[0].cap
  {
    if k > 0 {
      InvAlways(states, steps, k - 1);
      StepKeepsInv(states[k - 1], steps[k - 1]);
    }
  }

  lemma {:induction false} CallHasItsSlot(calls: seq<Call>, a: nat)
    requires a < |calls|
    ensures HeldByCalls(calls) >= CallHolds(calls[a])
  {
    if a > 0 {
      CallHasItsSlot(calls[1..], a - 1);
    }
  }

  lemma {:induction false} ConnHasItsSlot(conns: seq<Conn>, i: nat)
    requires i < |conns|
    ensures HeldByConns(conns) >= ConnHolds(conns[i])
  {
    if i > 0 {
      ConnHasItsSlot(conns[1..], i - 1);
    }
  }

  /** In every interleaving: slots in use = accepts in progress + connections
      not yet released, so open connections never exceed the cap; and every
      connection gives back at most one slot, exactly one once released. */
  lemma SlotsAddUp(states: seq<State>, steps: seq<Step>, k: nat)
    requires IsRun(states, steps) && k <= |steps|
    ensures var s := states[k];
      && s.slots == HeldByCalls(s.calls) + HeldByConns(s.conns) <= states[0].cap
      && forall i :: 0 <= i < |s.conns| ==> s.conns[i].returned == 1 - ConnHolds(s.conns[i])
  {
    InvAlways(states, steps, k);
  }

  // ---------------------------------------------------------------- progress

  /** How far a call is on its way to returning. */
  function CallRank(c: Call): nat {
    match c case Choosing => 0 case Accepting => 1 case GivingBack => 2 case Over => 3
  }

  function OnceRank(o: Once): nat {
    match o case Unused => 0 case Entered => 1 case Done => 2
  }

  /** The Accept call that takes the step, if it is one's. */
  function CallerOf(step: Step): (a: int)
    ensures a >= -1
  {
    match step
    case TakeSlot(a) => a case SeeDone(a) => a case InnerAccepts(a) => a case InnerFails(a) => a case GiveBack(a) => a
    case _ => -1
  }

  /** No step takes anything back: calls and connections only get further, the one
      whose step it is does, and the listener stays closed. */
  lemma StepsGoForward(s: State, step: Step)
    requires Enabled(s, step)
    ensures var t := Apply(s, step);
      && |s.calls| <= |t.calls| && |s.conns| <= |t.conns| && (s.done ==> t.done)
      && (forall a :: 0 <= a < |s.calls| ==> CallRank(s.calls[a]) <= CallRank(t.calls[a]))
      && (forall i :: 0 <= i < |s.conns| ==> OnceRank(s.conns[i].once) <= OnceRank(t.conns[i].once))
      && (CallerOf(step) >= 0 ==> CallRank(s.calls[CallerOf(step)]) < CallRank(t.calls[CallerOf(step)]))
      && (step.CallAccept? ==> t.calls == s.calls + [Choosing])
      && (step.SeeDone? ==> t.calls[step.a].Over? && t.conns == s.conns)
      && (step.InnerAccepts? ==> t.calls[step.a].Over? && |t.conns| == |s.conns| + 1)
      && (step.CloseConn? ==> !t.conns[step.i].once.Unused?)
      && (step.Release? ==> t.conns[step.i].once.Done? && t.slots == s.slots - 1)
      && (step.CloseListener? ==> t.done)
  {
  }

  lemma StepOfRun(states: seq<State>, steps: seq<Step>, k: nat)
    requires IsRun(states, steps) && k < |steps|
    ensures Enabled(states[k], steps[k]) && states[k + 1] == Apply(states[k], steps[k])
  {
  }

  /** What has been closed stays closed. */
  lemma {:induction false} ClosedStays(states: seq<State>, steps: seq<Step>, j: nat, k: nat)
    requires IsRun(states, steps) && j <= k <= |steps|
    ensures states[j].done ==> states[k].done
    ensures |states[j].conns| <= |states[k].conns| && |states[j].calls| <= |states[k].calls|
    ensures forall i :: 0 <= i < |states[j].conns| && !states[j].conns[i].once.Unused? ==> !states[k].conns[i].once.Unused?
    ensures forall a :: 0 <= a < |states[j].calls| ==> CallRank(states[j].calls[a]) <= CallRank(states[k].calls[a])
    decreases k
  {
    if j < k {
      ClosedStays(states, steps, j, k - 1);
      StepOfRun(states, steps, k - 1);
      StepsGoForward(states[k - 1], steps[k - 1]);
    }
  }

  /** From the first Close of the listener on, `done` has been closed exactly once,
      and every Accept that waits for a slot can return. */
  lemma CloseWakesEveryAccept(states: seq<State>, steps: seq<Step>, j: nat, k: nat)
    requires IsRun(states, steps) && j < k <= |steps| && steps[j] == CloseListener
    ensures states[k].doneCloses == 1
    ensures forall a: nat :: a < |states[k].calls| && states[k].calls[a].Choosing? ==>
      Enabled(states[k], SeeDone(a)) && Apply(states[k], SeeDone(a)).calls[a].Over?
  {
    StepOfRun(states, steps, j);
    StepsGoForward(states[j], steps[j]);
    ClosedStays(states, steps, j + 1, k);
    InvAlways(states, steps, k);
  }

  /** Once somebody has closed a connection its slot is back, exactly once, or on
      its way: the release can be made, and gives it back. */
  lemma ClosedConnGivesBack(states: seq<State>, steps: seq<Step>, j: nat, k: nat, i: nat)
    requires IsRun(states, steps) && j < k <= |steps| && steps[j] == CloseConn(i)
    ensures i < |states[k].conns|
    ensures var x := states[k].conns[i];
      (x.once.Done? && x.returned == 1) ||
      (Enabled(states[k], Release(i)) && Apply(states[k], Release(i)).conns[i].returned == 1
        && Apply(states[k], Release(i)).slots == states[k].slots - 1)
  {
    StepOfRun(states, steps, j);
    StepsGoForward(states[j], steps[j]);
    ClosedStays(states, steps, j + 1, k);
    NobodyIsStuck(states, steps, k);
    InvAlways(states, steps, k);
  }

  /** Nobody waits for good: a connection inside its once and an Accept giving
      its slot back find a token to take at once; with the listener closed
      every Accept still choosing can return; and as long as accepts in progress
      and unreleased connections are fewer than the cap, it can take a slot. Calls
      and closes may come at any time, and an inner Accept may end either way. */
  lemma NobodyIsStuck(states: seq<State>, steps: seq<Step>, k: nat)
    requires IsRun(states, steps) && k <= |steps|
    ensures forall i: nat :: i < |states[k].conns| && states[k].conns[i].once.Entered? ==> Enabled(states[k], Release(i))
    ensures forall a: nat :: a < |states[k].calls| && states[k].calls[a].GivingBack? ==> Enabled(states[k], GiveBack(a))
    ensures forall a: nat :: a < |states[k].calls| && states[k].calls[a].Accepting? ==>
      Enabled(states[k], InnerAccepts(a)) && Enabled(states[k], InnerFails(a))
    ensures Enabled(states[k], CallAccept) && Enabled(states[k], CloseListener)
    ensures forall i: nat :: i < |states[k].conns| ==> Enabled(states[k], CloseConn(i))
    ensures states[k].done ==> forall a: nat :: a < |states[k].calls| && states[k].calls[a].Choosing? ==> Enabled(states[k], SeeDone(a))
    ensures HeldByCalls(states[k].calls) + HeldByConns(states[k].conns) < states[0].cap ==>
      forall a: nat :: a < |states[k].calls| && states[k].calls[a].Choosing? ==> Enabled(states[k], TakeSlot(a))
  {
    InvAlways(states, steps, k);
    var s := states[k];
    forall i: nat | i < |s.conns| && s.conns[i].once.Entered? ensures Enabled(s, Release(i)) {
      ConnHasItsSlot(s.conns, i);
    }
    forall a: nat | a < |s.calls| && s.calls[a].GivingBack? ensures Enabled(s, GiveBack(a)) {
      CallHasItsSlot(s.calls, a);
    }
  }
}
