/** What one iteration and one lap do to everything the scheduler owns: slots,
    flags, the work queue and the skip reports. Entries are numbered. */
module LapViews {
  import opened Turns

  /** ErrSkipped: the prior run had started. ErrSkippedQueued: it had not. */
  datatype SkipKind = PriorRunStarted | PriorRunQueued

  datatype Skip = Skip(entry: nat, kind: SkipKind)

  datatype View = View(
    next: seq<int>, inflight: seq<bool>, started: seq<bool>,
    work: seq<nat>, done: seq<nat>, skips: seq<Skip>)

  ghost predicate Consistent(f: Fleet, v: View) {
    && Fits(f, v.next)
    && |v.inflight| == |v.started| == |v.next|
    && forall i :: 0 <= i < |v.done| ==> v.done[i] < |v.next|
  }

  /** After `drainDone`: every acked entry is idle again. */
  ghost function Drained(f: Fleet, v: View): (r: View)
    requires Consistent(f, v)
    ensures Consistent(f, r) && r.done == []
  {
    v.(inflight := seq(|v.next|, i requires 0 <= i < |v.next| => v.inflight[i] && i !in v.done),
       started := seq(|v.next|, i requires 0 <= i < |v.next| => v.started[i] && i !in v.done),
       done := [])
  }

  /** The due top is dispatched or skipped, and its slot advances. */
  ghost function Process(f: Fleet, v: View, now: int, top: nat): (r: View)
    requires Consistent(f, v) && top < |v.next| && v.next[top] <= now
    ensures Consistent(f, r)
  {
    var moved := v.(next := Fire(f, v.next, now, top));
    if v.inflight[top] then
      moved.(skips := v.skips + [Skip(top, if v.started[top] then PriorRunStarted else PriorRunQueued)])
    else
      moved.(inflight := v.inflight[top := true], work := v.work + [top])
  }

  ghost function Iterated(f: Fleet, v: View, now: int, top: nat): (r: View)
    requires Consistent(f, v) && top < |v.next|
    ensures Consistent(f, r) && r.next == AfterTurn(f, v.next, now, top) && r.done == v.done
  {
    match Judge(f, v.next, now, top)
    case Reanchored => v.(next := Reanchor(f, v.next, now))
    case Armed => v
    case Fired => Process(f, v, now, top)
  }

  // ------------------------------------------------- iterations at one reading

  /** One iteration that does not arm: the entries that workers marked started
      since the last one, then the acks that arrived, and the heap top it finds. */
  datatype Turn = Turn(marks: seq<nat>, acks: seq<nat>, top: nat)

  ghost predicate AreEntries(acks: seq<nat>, n: nat) {
    forall i :: 0 <= i < |acks| ==> acks[i] < n
  }

  /** Workers mark entries that they hold, not ones that they have acked. */
  ghost predicate AreMarks(v: View, marks: seq<nat>) {
    AreEntries(marks, |v.next|) && forall i :: 0 <= i < |marks| ==> marks[i] !in v.done
  }

  /** Workers have marked these entries started. */
  ghost function Marked(f: Fleet, v: View, marks: seq<nat>): (r: View)
    requires Consistent(f, v)
    ensures Consistent(f, r)
  {
    v.(started := seq(|v.next|, i requires 0 <= i < |v.next| => v.started[i] || i in marks))
  }

  /** What an iteration finds once it has drained. */
  ghost function Found(f: Fleet, v: View, marks: seq<nat>, acks: seq<nat>): (r: View)
    requires Consistent(f, v) && AreEntries(acks, |v.next|)
    ensures Consistent(f, r) && r.next == v.next && r.done == []
  {
    var marked := Marked(f, v, marks);
    Drained(f, marked.(done := v.done + acks))
  }

  /** From `v` to `w` by one iteration. */
  ghost predicate TurnStep(f: Fleet, now: int, v: View, t: Turn, w: View) {
    && Consistent(f, v) && AreMarks(v, t.marks) && AreEntries(t.acks, |v.next|) && IsTop(v.next, t.top)
    && !Judge(f, v.next, now, t.top).Armed?
    && w == Iterated(f, Found(f, v, t.marks, t.acks), now, t.top)
  }

  /** Successive iterations none of which arms the timer yet. */
  ghost predicate IsBurst(f: Fleet, now: int, views: seq<View>, turns: seq<Turn>) {
    && |views| == |turns| + 1 && Consistent(f, views[0])
    && forall k :: 0 <= k < |turns| ==> TurnStep(f, now, views[k], turns[k], views[k + 1])
  }

  lemma TurnKeepsConsistent(f: Fleet, now: int, v: View, t: Turn, w: View)
    requires TurnStep(f, now, v, t, w)
    ensures Consistent(f, w) && |w.next| == |v.next| && w.next == AfterTurn(f, v.next, now, t.top) && w.done == []
  {
  }

  lemma BurstGrows(f: Fleet, now: int, views: seq<View>, turns: seq<Turn>, t: Turn, w: View)
    requires IsBurst(f, now, views, turns) && TurnStep(f, now, views[|turns|], t, w)
    ensures IsBurst(f, now, views + [w], turns + [t])
  {
    var more, longer := views + [w], turns + [t];
    forall k | 0 <= k < |longer| ensures TurnStep(f, now, more[k], longer[k], more[k + 1]) {
      assert k < |turns| ==> more[k] == views[k] && more[k + 1] == views[k + 1] && longer[k] == turns[k];
    }
  }

  function Tops(turns: seq<Turn>): (tops: seq<nat>)
    ensures |tops| == |turns|
  {
    seq(|turns|, i requires 0 <= i < |turns| => turns[i].top)
  }

  lemma ArmIsALap(f: Fleet, next: seq<int>, now: int, top: nat)
    requires Fits(f, next) && IsTop(next, top) && Judge(f, next, now, top).Armed?
    ensures IsLap(f, next, now, [top]) && LapEnd(f, next, now, [top]) == next
  {
  }

  lemma LapGrows(f: Fleet, next: seq<int>, now: int, top: nat, rest: seq<nat>)
    requires Fits(f, next) && IsTop(next, top) && !Judge(f, next, now, top).Armed?
    requires IsLap(f, AfterTurn(f, next, now, top), now, rest)
    ensures IsLap(f, next, now, [top] + rest)
    ensures LapEnd(f, next, now, [top] + rest) == LapEnd(f, AfterTurn(f, next, now, top), now, rest)
  {
    assert ([top] + rest)[1..] == rest;
  }

  lemma TopsFrom(turns: seq<Turn>, top: nat, k: nat)
    requires k <= |turns|
    ensures Tops(turns)[k..] + [top] == if k == |turns| then [top] else [turns[k].top] + (Tops(turns)[k + 1..] + [top])
  {
  }

  lemma TurnOfBurst(f: Fleet, now: int, views: seq<View>, turns: seq<Turn>, k: nat)
    requires IsBurst(f, now, views, turns) && k < |turns|
    ensures TurnStep(f, now, views[k], turns[k], views[k + 1])
  {
  }

  /** As far as slots go, acks do not matter. */
  lemma {:induction false} BurstThenArmIsALap(f: Fleet, now: int, views: seq<View>, turns: seq<Turn>, top: nat, k: nat)
    requires IsBurst(f, now, views, turns) && k <= |turns| && Consistent(f, views[|turns|]) && Consistent(f, views[k])
    requires IsTop(views[|turns|].next, top) && Judge(f, views[|turns|].next, now, top).Armed?
    ensures IsLap(f, views[k].next, now, Tops(turns)[k..] + [top])
    ensures LapEnd(f, views[k].next, now, Tops(turns)[k..] + [top]) == views[|turns|].next
    decreases |turns| - k
  {
    if k == |turns| {
      ArmIsALap(f, views[k].next, now, top);
      TopsFrom(turns, top, k);
    } else {
      TurnOfBurst(f, now, views, turns, k);
      TurnKeepsConsistent(f, now, views[k], turns[k], views[k + 1]);
      BurstThenArmIsALap(f, now, views, turns, top, k + 1);
      LapGrows(f, views[k].next, now, turns[k].top, Tops(turns)[k + 1..] + [top]);
      TopsFrom(turns, top, k);
    }
  }

  // ------------------------------------------------ what a whole lap amounts to

  /** How a due entry was judged: its flags at that moment. */
  datatype Judgement = Judgement(e: nat, inflight: bool, started: bool)

  ghost function JudgementOf(f: Fleet, v: View, t: Turn): Judgement
    requires Consistent(f, v) && AreEntries(t.acks, |v.next|) && t.top < |v.next|
  {
    Judgement(t.top, Found(f, v, t.marks, t.acks).inflight[t.top], Found(f, v, t.marks, t.acks).started[t.top])
  }

  /** The judgements in the first k iterations of a burst, in order. (One that
      re-anchors judges nobody.) */
  ghost function Judgements(f: Fleet, now: int, views: seq<View>, turns: seq<Turn>, k: nat): (js: seq<Judgement>)
    requires IsBurst(f, now, views, turns) && k <= |turns|
  {
    if k == 0 then []
    else
      assert TurnStep(f, now, views[k - 1], turns[k - 1], views[k]);
      Judgements(f, now, views, turns, k - 1) +
        if Judge(f, views[k - 1].next, now, turns[k - 1].top).Fired? then [JudgementOf(f, views[k - 1], turns[k - 1])] else []
  }

  function JudgedEntries(js: seq<Judgement>): (es: seq<nat>)
    ensures |es| == |js|
  {
    seq(|js|, i requires 0 <= i < |js| => js[i].e)
  }

  /** The idle ones are queued ... */
  function Queued(js: seq<Judgement>): seq<nat> {
    if js == [] then []
    else Queued(js[..|js| - 1]) + if js[|js| - 1].inflight then [] else [js[|js| - 1].e]
  }

  /** ... and the others reported, by whether their run had started. */
  function Reported(js: seq<Judgement>): seq<Skip> {
    if js == [] then []
    else
      var j := js[|js| - 1];
      Reported(js[..|js| - 1]) + if j.inflight then [Skip(j.e, if j.started then PriorRunStarted else PriorRunQueued)] else []
  }

  /** `order` lists each element of `all` once. */
  ghost predicate Lists(order: seq<nat>, all: set<nat>) {
    && (forall t :: t in order <==> t in all)
    && (forall i, j :: 0 <= i < j < |order| ==> order[i] != order[j])
  }

  /** From `v` to `r` these judgements were made, of the entries that were due at
      `v` and no longer are at `r`, once each. */
  ghost predicate Processed(v: View, now: int, js: seq<Judgement>, r: View) {
    && r.work == v.work + Queued(js) && r.skips == v.skips + Reported(js)
    && Due(r.next, now) <= Due(v.next, now)
    && Lists(JudgedEntries(js), Due(v.next, now) - Due(r.next, now))
  }

  /** Every due slot is now its first slot after `now`, every other slot is as
      it was; and if the top was then stale, so are all stale slots. */
  ghost predicate SlotsSettled(f: Fleet, next: seq<int>, now: int, r: seq<int>)
    requires Fits(f, next)
  {
    var fired := FireAll(f, next, now);
    || (r == fired && exists t :: IsTop(fired, t) && !StaleAt(f, fired, now, t))
    || (r == Reanchor(f, fired, now) && exists t :: IsTop(fired, t) && StaleAt(f, fired, now, t))
  }

  lemma ProcessedGrows(v: View, now: int, js: seq<Judgement>, u: View, j: Judgement, w: View)
    requires Processed(v, now, js, u) && j.e in Due(u.next, now) && Due(w.next, now) == Due(u.next, now) - {j.e}
    requires w.work == u.work + (if j.inflight then [] else [j.e])
    requires w.skips == u.skips + if j.inflight then [Skip(j.e, if j.started then PriorRunStarted else PriorRunQueued)] else []
    ensures Processed(v, now, js + [j], w)
  {
    assert (js + [j])[..|js|] == js;
    assert JudgedEntries(js + [j]) == JudgedEntries(js) + [j.e];
    ListsGrow(JudgedEntries(js), Due(v.next, now) - Due(u.next, now), j.e);
    assert Due(v.next, now) - Due(w.next, now) == Due(v.next, now) - Due(u.next, now) + {j.e};
  }

  /** What an iteration with a due top does. */
  lemma FiredTurn(f: Fleet, now: int, u: View, t: Turn, w: View)
    requires TurnStep(f, now, u, t, w) && Judge(f, u.next, now, t.top).Fired?
    ensures t.top in Due(u.next, now) && Due(w.next, now) == Due(u.next, now) - {t.top}
    ensures var j := JudgementOf(f, u, t);
      && w.work == u.work + (if j.inflight then [] else [j.e])
      && w.skips == u.skips + if j.inflight then [Skip(j.e, if j.started then PriorRunStarted else PriorRunQueued)] else []
  {
    FiringOne(f, u.next, now, t.top);
  }

  lemma ListsGrow(order: seq<nat>, all: set<nat>, e: nat)
    requires Lists(order, all) && e !in all
    ensures Lists(order + [e], all + {e})
  {
    assert forall i :: 0 <= i < |order| ==> order[i] in order;
  }

  lemma ReanchorProcessesNone(f: Fleet, now: int, u: View, t: Turn, w: View)
    requires TurnStep(f, now, u, t, w) && Judge(f, u.next, now, t.top).Reanchored?
    ensures Due(u.next, now) == Due(w.next, now) == {} && w.work == u.work && w.skips == u.skips
  {
    NothingDue(f, u.next, now, t.top);
    ReanchoringSettles(f, u.next, now, t.top);
  }

  lemma NothingProcessed(v: View, now: int)
    ensures Processed(v, now, [], v)
  {
    assert Due(v.next, now) - Due(v.next, now) == {};
  }

  /** These judgements were made by iteration `k` of the burst. */
  ghost predicate ProcessedBy(f: Fleet, now: int, views: seq<View>, turns: seq<Turn>, k: nat, js: seq<Judgement>)
    requires IsBurst(f, now, views, turns) && k <= |turns|
  {
    js == Judgements(f, now, views, turns, k) && Processed(views[0], now, js, views[k])
  }

  lemma {:induction false} BurstGivesJudgements(f: Fleet, now: int, views: seq<View>, turns: seq<Turn>, k: nat)
    returns (js: seq<Judgement>)
    requires IsBurst(f, now, views, turns) && k <= |turns|
    ensures ProcessedBy(f, now, views, turns, k, js)
  {
    if k == 0 {
      js := [];
      NothingProcessed(views[0], now);
    } else {
      var before := BurstGivesJudgements(f, now, views, turns, k - 1);
      var u, t, w := views[k - 1], turns[k - 1], views[k];
      TurnOfBurst(f, now, views, turns, k - 1);
      js := before + if Judge(f, u.next, now, t.top).Fired? then [JudgementOf(f, u, t)] else [];
      TurnProcesses(f, now, views[0], before, u, t, w);
    }
  }

  lemma BurstProcesses(f: Fleet, now: int, views: seq<View>, turns: seq<Turn>, k: nat)
    requires IsBurst(f, now, views, turns) && k <= |turns|
    ensures Processed(views[0], now, Judgements(f, now, views, turns, k), views[k])
  {
    var js := BurstGivesJudgements(f, now, views, turns, k);
  }

  lemma TurnProcesses(f: Fleet, now: int, v: View, js: seq<Judgement>, u: View, t: Turn, w: View)
    requires TurnStep(f, now, u, t, w) && Processed(v, now, js, u)
    ensures Processed(v, now, js + if Judge(f, u.next, now, t.top).Fired? then [JudgementOf(f, u, t)] else [], w)
  {
    if Judge(f, u.next, now, t.top).Fired? {
      FiredTurn(f, now, u, t, w);
      ProcessedGrows(v, now, js, u, JudgementOf(f, u, t), w);
    } else {
      ReanchorProcessesNone(f, now, u, t, w);
      assert js + [] == js;
    }
  }

  /** An ack of `e` has arrived by the end of these turns. */
  ghost predicate Acked(turns: seq<Turn>, e: nat) {
    exists i :: 0 <= i < |turns| && e in turns[i].acks
  }

  lemma AckedLast(turns: seq<Turn>, t: Turn, e: nat)
    ensures Acked(turns + [t], e) <==> Acked(turns, e) || e in t.acks
  {
    if Acked(turns, e) {
      var i :| 0 <= i < |turns| && e in turns[i].acks;
      assert e in (turns + [t])[i].acks;
    }
    if e in t.acks {
      assert e in (turns + [t])[|turns|].acks;
    }
  }

  /** A turn leaves the flags of every entry but the one it judges, acks apart. */
  lemma OthersUnaffected(f: Fleet, now: int, v: View, t: Turn, w: View, e: nat)
    requires TurnStep(f, now, v, t, w) && e < |v.next| && (e != t.top || !Judge(f, v.next, now, t.top).Fired?)
    ensures |w.inflight| == |v.inflight| && |w.started| == |v.started| && e !in w.done
    ensures w.inflight[e] <==> v.inflight[e] && e !in v.done && e !in t.acks
    ensures w.started[e] <==> (v.started[e] || e in t.marks) && e !in v.done && e !in t.acks
  {
  }

  /** The flag after these turns: set by a mark, cleared by an ack. */
  function StartedAfter(before: bool, turns: seq<Turn>, e: nat): bool {
    if turns == [] then before
    else
      var last := turns[|turns| - 1];
      (StartedAfter(before, turns[..|turns| - 1], e) || e in last.marks) && e !in last.acks
  }

  lemma StartedLast(before: bool, turns: seq<Turn>, t: Turn, e: nat)
    ensures StartedAfter(before, turns + [t], e) <==> (StartedAfter(before, turns, e) || e in t.marks) && e !in t.acks
  {
    assert (turns + [t])[..|turns|] == turns;
  }

  /** The flags in `w`, with its pending acks taken, are those of `v`, but for the
      acks and marks of these turns. */
  ghost predicate FlagsSince(v: View, turns: seq<Turn>, w: View, e: nat) {
    && e < |v.inflight| == |w.inflight| && e < |v.started| == |w.started|
    && (w.inflight[e] && e !in w.done <==> v.inflight[e] && e !in v.done && !Acked(turns, e))
    && (w.started[e] && e !in w.done <==> StartedAfter(v.started[e] && e !in v.done, turns, e))
  }

  lemma FlagsOneTurnLater(f: Fleet, now: int, v: View, turns: seq<Turn>, u: View, t: Turn, w: View, e: nat)
    requires FlagsSince(v, turns, u, e) && TurnStep(f, now, u, t, w) && IsDue(u, now, e) && e != t.top
    ensures FlagsSince(v, turns + [t], w, e)
  {
    AckedLast(turns, t, e);
    StartedLast(v.started[e] && e !in v.done, turns, t, e);
    OthersUnaffected(f, now, u, t, w, e);
  }

  predicate IsDue(v: View, now: int, e: nat) { e < |v.next| && v.next[e] <= now }

  lemma OneMoreTurn(turns: seq<Turn>, k: nat)
    requires k < |turns|
    ensures turns[..k + 1] == turns[..k] + [turns[k]]
  {
  }

  lemma StillDue(f: Fleet, now: int, u: View, t: Turn, w: View, e: nat)
    requires TurnStep(f, now, u, t, w) && IsDue(w, now, e)
    ensures IsDue(u, now, e) && e != t.top
  {
    assert e in Due(w.next, now);
    if Judge(f, u.next, now, t.top).Fired? {
      FiredTurn(f, now, u, t, w);
    } else {
      ReanchorProcessesNone(f, now, u, t, w);
    }
  }

  lemma {:induction false} FlagsUntilJudged(f: Fleet, now: int, views: seq<View>, turns: seq<Turn>, k: nat, e: nat)
    requires IsBurst(f, now, views, turns) && k <= |turns| && IsDue(views[k], now, e)
    ensures FlagsSince(views[0], turns[..k], views[k], e)
  {
    if k == 0 {
      assert turns[..0] == [];
    } else {
      TurnOfBurst(f, now, views, turns, k - 1);
      StillDue(f, now, views[k - 1], turns[k - 1], views[k], e);
      FlagsUntilJudged(f, now, views, turns, k - 1, e);
      FlagsOneTurnLater(f, now, views[0], turns[..k - 1], views[k - 1], turns[k - 1], views[k], e);
      OneMoreTurn(turns, k - 1);
    }
  }

  lemma JudgedSince(f: Fleet, now: int, v: View, turns: seq<Turn>, u: View, t: Turn, w: View)
    requires FlagsSince(v, turns, u, t.top) && TurnStep(f, now, u, t, w)
    ensures var j := JudgementOf(f, u, t);
      && (j.inflight <==> v.inflight[t.top] && t.top !in v.done && !Acked(turns + [t], t.top))
      && (j.started <==> StartedAfter(v.started[t.top] && t.top !in v.done, turns + [t], t.top))
  {
    AckedLast(turns, t, t.top);
    StartedLast(v.started[t.top] && t.top !in v.done, turns, t, t.top);
  }

  /** Whether a due entry is taken for busy: exactly if it was in flight when the
      lap began and no ack of it arrived by its turn; and its run for started
      exactly if it was then, or has been marked, and no ack has come since. */
  lemma JudgedByArrivals(f: Fleet, now: int, views: seq<View>, turns: seq<Turn>, k: nat)
    requires IsBurst(f, now, views, turns) && k < |turns| && IsDue(views[k], now, turns[k].top)
    ensures TurnStep(f, now, views[k], turns[k], views[k + 1])
    ensures var j, v := JudgementOf(f, views[k], turns[k]), views[0];
      && j.e == turns[k].top < |v.inflight| == |v.started|
      && (j.inflight <==> v.inflight[j.e] && j.e !in v.done && !Acked(turns[..k + 1], j.e))
      && (j.started <==> StartedAfter(v.started[j.e] && j.e !in v.done, turns[..k + 1], j.e))
  {
    TurnOfBurst(f, now, views, turns, k);
    FlagsUntilJudged(f, now, views, turns, k, turns[k].top);
    JudgedSince(f, now, views[0], turns[..k], views[k], turns[k], views[k + 1]);
    OneMoreTurn(turns, k);
  }

  /** The lap's promise: any burst followed by an arming iteration has judged
      every due entry exactly once and settled the slots, whatever acks arrived
      in between. */
  lemma LapKeepsItsPromise(f: Fleet, now: int, views: seq<View>, turns: seq<Turn>, top: nat)
    requires IsBurst(f, now, views, turns) && Consistent(f, views[|turns|])
    requires IsTop(views[|turns|].next, top) && Judge(f, views[|turns|].next, now, top).Armed?
    ensures Processed(views[0], now, Judgements(f, now, views, turns, |turns|), views[|turns|])
    ensures Lists(JudgedEntries(Judgements(f, now, views, turns, |turns|)), Due(views[0].next, now))
    ensures SlotsSettled(f, views[0].next, now, views[|turns|].next)
  {
    var r := views[|turns|];
    NothingDue(f, r.next, now, top);
    BurstProcesses(f, now, views, turns, |turns|);
    assert Due(views[0].next, now) - Due(r.next, now) == Due(views[0].next, now);
    BurstThenArmIsALap(f, now, views, turns, top, 0);
    LapEndsAfterDue(f, views[0].next, now, Tops(turns)[0..] + [top]);
  }

  /** Bounds the iterations left at a frozen clock, with the set of due entries. */
  ghost function Unsettled(f: Fleet, next: seq<int>, now: int): nat
    requires Fits(f, next)
  {
    if exists i :: 0 <= i < |next| && StaleAt(f, next, now, i) then 1 else 0
  }

  /** An iteration that does not arm the timer makes progress: it takes one
      entry out of the due ones, or with none due leaves no entry stale. */
  lemma IterationMakesProgress(f: Fleet, next: seq<int>, now: int, top: nat)
    requires Fits(f, next) && IsTop(next, top) && !Judge(f, next, now, top).Armed?
    ensures var after := AfterTurn(f, next, now, top);
      || Due(after, now) < Due(next, now)
      || (Due(after, now) == Due(next, now) && Unsettled(f, after, now) < Unsettled(f, next, now))
  {
    if Judge(f, next, now, top).Fired? {
      FiringOne(f, next, now, top);
      assert top in Due(next, now);
    } else {
      NothingDue(f, next, now, top);
      ReanchoringSettles(f, next, now, top);
      assert Due(Reanchor(f, next, now), now) == {};
    }
  }
}
