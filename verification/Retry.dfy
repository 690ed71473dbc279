/** The runner's publish ladder on top of a sink: up to three attempts for one
    record, one Result whatever happens. */
module Retry {
  import opened Lines
  import opened Sinks
  import opened SinkRuns

  const MAX_PUBLISH_ATTEMPTS: nat := 3

  // ---------------------------------------------------- how often a record shows

  function Copies(lines: seq<seq<Byte>>, b: seq<Byte>): nat {
    if lines == [] then 0 else Copies(lines[..|lines| - 1], b) + (if lines[|lines| - 1] == b then 1 else 0)
  }

  /** Complete lines equal to `b`, counting a fragment that would become one. */
  function Sightings(t: Text, b: seq<Byte>): nat {
    Copies(t.lines, b) + (if t.tail == b then 1 else 0)
  }

  lemma CopiesGrow(lines: seq<seq<Byte>>, line: seq<Byte>, b: seq<Byte>)
    ensures Copies(lines + [line], b) == Copies(lines, b) + (if line == b then 1 else 0)
  {
    assert (lines + [line])[..|lines|] == lines;
  }

  lemma SeparatorAddsNone(t: Text, b: seq<Byte>)
    requires b != []
    ensures Sightings(Text(t.lines + [t.tail], []), b) == Sightings(t, b)
  {
    CopiesGrow(t.lines, t.tail, b);
  }

  /** Delivering any prefix of a payload adds at most one sighting of `b`, and
      none unless `b` is a prefix of the payload's record. */
  lemma PayloadAddsOneSighting(t: Text, torn: bool, record: seq<Byte>, k: nat, b: seq<Byte>)
    requires b != [] && k <= |Payload(torn, record)| && (!torn ==> t.tail == [])
    ensures Sightings(AfterPayload(t, torn, record, k), b) <= Sightings(t, b) + (if b <= record then 1 else 0)
  {
    if !torn {
      LineAddsOneSighting(t, record, k, b);
    } else if k > 0 {
      var t' := Text(t.lines + [t.tail], []);
      SeparatorAddsNone(t, b);
      assert AfterPayload(t, torn, record, k) == AfterLine(t', record, k - 1);
      LineAddsOneSighting(t', record, k - 1, b);
    }
  }

  lemma LineAddsOneSighting(t: Text, record: seq<Byte>, k: nat, b: seq<Byte>)
    requires b != [] && k <= |record| + 1 && t.tail == []
    ensures Sightings(AfterLine(t, record, k), b) <= Sightings(t, b) + (if b <= record then 1 else 0)
  {
    assert t.tail + record == record;
    CopiesGrow(t.lines, record, b);
    if k <= |record| {
      assert t.tail + record[..k] == record[..k];
    }
  }

  predicate Tries(a: Act, b: seq<Byte>) {
    (a.Attempt? || a.Die?) && b <= a.b
  }

  function Tried(acts: seq<Act>, k: nat, b: seq<Byte>): nat
    requires k <= |acts|
  {
    if k == 0 then 0 else Tried(acts, k - 1, b) + (if Tries(acts[k - 1], b) then 1 else 0)
  }

  /** In any history, interleaved as it may be with other publishes, closes,
      crashes and reopenings, a record shows up at most once more per attempt
      to publish it (or a record it is a prefix of): an attempt that failed
      after delivering everything counts, and none counts twice. */
  lemma {:induction false} OneSightingPerAttempt(disks: seq<Disk>, acts: seq<Act>, k: nat, b: seq<Byte>)
    requires IsHistory(disks, acts) && k <= |acts| && b != []
    ensures Sightings(Parse(disks[k].bytes), b) <= Sightings(Parse(disks[0].bytes), b) + Tried(acts, k, b)
  {
    if k > 0 {
      OneSightingPerAttempt(disks, acts, k - 1, b);
      SoundAlways(disks, acts, k - 1);
      ActAddsOneSighting(disks[k - 1], acts[k - 1], disks[k], b);
    }
  }

  lemma ActAddsOneSighting(s: Disk, a: Act, t: Disk, b: seq<Byte>)
    requires Sound(s) && Happens(s, a, t) && b != []
    ensures Sightings(Parse(t.bytes), b) <= Sightings(Parse(s.bytes), b) + (if Tries(a, b) then 1 else 0)
  {
    if s.open && (a.Attempt? || a.Die?) {
      var n := PublishedText(s, a.b, t.bytes);
      PayloadAddsOneSighting(Parse(s.bytes), s.torn, a.b, n, b);
    } else if s.open && a.Shut? {
      ClosedText(s, a.ok, t.bytes);
      CopiesGrow(Parse(s.bytes).lines, Parse(s.bytes).tail, b);
    }
  }

  // ------------------------------------------------------------- one scheduled run

  /** What the check and the encoder made of the target. */
  datatype Outcome = CheckFailed | EncodeFailed | Encoded(record: seq<Byte>)

  /** The results channel: a full one drops, and counts. */
  class Results {
    const capacity: nat
    var buffered: seq<bool>
    var dropped: nat

    constructor (capacity: nat)
      ensures this.capacity == capacity && buffered == [] && dropped == 0
    {
      this.capacity, buffered, dropped := capacity, [], 0;
    }

    /** `reportResult`; `ok` stands for a nil error. */
    method Report(ok: bool)
      modifies this
      ensures |old(buffered)| < capacity ==> buffered == old(buffered) + [ok] && dropped == old(dropped)
      ensures |old(buffered)| >= capacity ==> buffered == old(buffered) && dropped == old(dropped) + 1
    {
      if |buffered| < capacity {
        buffered := buffered + [ok];
      } else {
        dropped := dropped + 1;
      }
    }
  }

  /** The sink as a history sees it. */
  ghost function DiskOf(s: LineSink): Disk
    reads s, s.w, s.w.out
  {
    Disk(s.w.out.bytes, s.torn, !s.w.out.closed)
  }

  /** The output ends in the record as a whole line. */
  ghost predicate EndsWithLine(bytes: seq<Byte>, record: seq<Byte>) {
    var t := Parse(bytes);
    t.tail == [] && t.lines != [] && t.lines[|t.lines| - 1] == record
  }

  /** A publish is an act of the sink's history. */
  lemma PublishIsAnAct(s: Disk, record: seq<Byte>, ok: bool, t: Disk)
    requires Sound(s) && s.open == t.open && IsRecord(record)
    requires if s.open then Published(s.bytes, s.torn, record, ok, t.bytes, t.torn) else !ok && t == s
    ensures Happens(s, Attempt(record, ok), t) && Sound(t)
    ensures ok ==> EndsWithLine(t.bytes, record)
    ensures record != [] ==> Sightings(Parse(t.bytes), record) <= Sightings(Parse(s.bytes), record) + 1
  {
    HappeningKeepsSound(s, Attempt(record, ok), t);
    if s.open {
      var k := PublishedText(s, record, t.bytes);
      if record != [] {
        PayloadAddsOneSighting(Parse(s.bytes), s.torn, record, k, record);
      }
    }
  }

  /** One attempt, in terms of what a reader sees. */
  method TryPublish(sink: LineSink, record: seq<Byte>) returns (ok: bool)
    requires sink.Valid() && Sound(DiskOf(sink)) && IsRecord(record)
    modifies sink`torn, sink.w`n, sink.w`failed, sink.w.buf, sink.w.out`bytes, sink.w.out`script, sink.w.out`calls, sink.w.out`refused
    ensures sink.Valid() && Happens(old(DiskOf(sink)), Attempt(record, ok), DiskOf(sink)) && Sound(DiskOf(sink))
    ensures ok ==> EndsWithLine(sink.w.out.bytes, record)
    ensures old(sink.w.out.Willing()) ==> ok && sink.w.out.Willing()
    ensures record != [] ==>
      Sightings(Parse(sink.w.out.bytes), record) <= old(Sightings(Parse(sink.w.out.bytes), record)) + 1
  {
    ghost var before := DiskOf(sink);
    ok := sink.Publish(record);
    PublishIsAnAct(before, record, ok, DiskOf(sink));
  }

  // ------------------------------------------ one ladder among other publishes

  lemma HistoryExtends(disks: seq<Disk>, acts: seq<Act>, a: Act, t: Disk)
    requires IsHistory(disks, acts) && Happens(disks[|acts|], a, t)
    ensures IsHistory(disks + [t], acts + [a])
  {
    var more, longer := disks + [t], acts + [a];
    forall k | 0 <= k < |longer| ensures Happens(more[k], longer[k], more[k + 1]) {
      assert k < |acts| ==> longer[k] == acts[k] && more[k] == disks[k] && more[k + 1] == disks[k + 1];
    }
  }

  /** How many of the acts are this ladder's. */
  function Ours(mine: seq<bool>): nat {
    if mine == [] then 0 else Ours(mine[..|mine| - 1]) + (if mine[|mine| - 1] then 1 else 0)
  }

  /** Attempts of others at the record, or at one it is a prefix of. */
  function TriedByOthers(acts: seq<Act>, mine: seq<bool>, b: seq<Byte>): nat
    requires |acts| == |mine|
  {
    if acts == [] then 0
    else
      var n := |acts| - 1;
      TriedByOthers(acts[..n], mine[..n], b) + (if !mine[n] && Tries(acts[n], b) then 1 else 0)
  }

  lemma {:induction false} TriedFirst(acts: seq<Act>, k: nat, b: seq<Byte>)
    requires k < |acts|
    ensures Tried(acts[..|acts| - 1], k, b) == Tried(acts, k, b)
  {
    if k > 0 {
      TriedFirst(acts, k - 1, b);
    }
  }

  lemma {:induction false} TriedSplits(acts: seq<Act>, mine: seq<bool>, b: seq<Byte>)
    requires |acts| == |mine| && forall i :: 0 <= i < |acts| && mine[i] ==> Tries(acts[i], b)
    ensures Tried(acts, |acts|, b) == Ours(mine) + TriedByOthers(acts, mine, b)
  {
    if acts != [] {
      var n := |acts| - 1;
      TriedSplits(acts[..n], mine[..n], b);
      TriedFirst(acts, n, b);
    }
  }

  lemma OursGrow(mine: seq<bool>, x: bool)
    ensures Ours(mine + [x]) == Ours(mine) + (if x then 1 else 0)
  {
    assert (mine + [x])[..|mine|] == mine;
  }

  lemma {:induction false} NoneOfOurs(mine: seq<bool>, n: nat)
    ensures Ours(mine + seq(n, _ => false)) == Ours(mine)
  {
    if n == 0 {
      assert mine + seq(0, _ => false) == mine;
    } else {
      NoneOfOurs(mine, n - 1);
      OursGrow(mine + seq(n - 1, _ => false), false);
      assert mine + seq(n - 1, _ => false) + [false] == mine + seq(n, _ => false);
    }
  }

  /** Other workers publish these records. */
  method PublishOthers(sink: LineSink, others: seq<seq<Byte>>, ghost disks: seq<Disk>, ghost acts: seq<Act>)
    returns (ghost more: seq<Disk>, ghost longer: seq<Act>)
    requires sink.Valid() && Sound(DiskOf(sink)) && (forall i :: 0 <= i < |others| ==> IsRecord(others[i]))
    requires IsHistory(disks, acts) && disks[|acts|] == DiskOf(sink)
    modifies sink`torn, sink.w`n, sink.w`failed, sink.w.buf, sink.w.out`bytes, sink.w.out`script, sink.w.out`calls, sink.w.out`refused
    ensures sink.Valid() && Sound(DiskOf(sink))
    ensures IsHistory(more, longer) && more[|longer|] == DiskOf(sink) && more[0] == disks[0]
    ensures acts <= longer && |longer| == |acts| + |others|
    ensures forall i :: |acts| <= i < |longer| ==> longer[i].Attempt? && longer[i].b == others[i - |acts|]
    ensures old(sink.w.out.Willing()) ==> sink.w.out.Willing() && forall i :: |acts| <= i < |longer| ==> longer[i].ok
  {
    more, longer := disks, acts;
    for k := 0 to |others|
      invariant sink.Valid() && Sound(DiskOf(sink))
      invariant IsHistory(more, longer) && more[|longer|] == DiskOf(sink) && more[0] == disks[0]
      invariant acts <= longer && |longer| == |acts| + k
      invariant forall i :: |acts| <= i < |longer| ==> longer[i].Attempt? && longer[i].b == others[i - |acts|]
      invariant old(sink.w.out.Willing()) ==> sink.w.out.Willing() && forall i :: |acts| <= i < |longer| ==> longer[i].ok
    {
      var ok := TryPublish(sink, others[k]);
      HistoryExtends(more, longer, Attempt(others[k], ok), DiskOf(sink));
      more, longer := more + [DiskOf(sink)], longer + [Attempt(others[k], ok)];
    }
  }

  /** The attempts marked `mine` are a ladder: as many as there were attempts, all
      failed but perhaps the last, which nothing follows. */
  ghost predicate IsLadder(acts: seq<Act>, mine: seq<bool>, record: seq<Byte>, attempts: nat, ok: bool) {
    && |acts| == |mine| && Ours(mine) == attempts
    && forall i :: 0 <= i < |acts| && mine[i] ==> acts[i] == Attempt(record, ok && i == |acts| - 1)
  }

  lemma LadderGrows(acts: seq<Act>, mine: seq<bool>, record: seq<Byte>, attempts: nat, longer: seq<Act>, ok: bool)
    requires IsLadder(acts, mine, record, attempts, false) && acts <= longer
    ensures var marks := mine + seq(|longer| - |acts|, _ => false) + [true];
      IsLadder(longer + [Attempt(record, ok)], marks, record, attempts + 1, ok)
  {
    NoneOfOurs(mine, |longer| - |acts|);
    OursGrow(mine + seq(|longer| - |acts|, _ => false), true);
  }

  lemma LadderSightings(disks: seq<Disk>, acts: seq<Act>, mine: seq<bool>, record: seq<Byte>, attempts: nat, ok: bool)
    requires IsHistory(disks, acts) && IsLadder(acts, mine, record, attempts, ok) && record != []
    ensures Sightings(Parse(disks[|acts|].bytes), record)
      <= Sightings(Parse(disks[0].bytes), record) + attempts + TriedByOthers(acts, mine, record)
  {
    OneSightingPerAttempt(disks, acts, |acts|, record);
    TriedSplits(acts, mine, record);
  }

  /** One attempt of ours, after what others publish first. */
  method Rung(sink: LineSink, record: seq<Byte>, others: seq<seq<Byte>>, ghost attempts: nat,
              ghost disks: seq<Disk>, ghost acts: seq<Act>, ghost mine: seq<bool>)
    returns (ok: bool, ghost more: seq<Disk>, ghost longer: seq<Act>, ghost marks: seq<bool>)
    requires sink.Valid() && Sound(DiskOf(sink)) && IsRecord(record)
    requires forall i :: 0 <= i < |others| ==> IsRecord(others[i])
    requires IsHistory(disks, acts) && disks[|acts|] == DiskOf(sink) && IsLadder(acts, mine, record, attempts, false)
    modifies sink`torn, sink.w`n, sink.w`failed, sink.w.buf, sink.w.out`bytes, sink.w.out`script, sink.w.out`calls, sink.w.out`refused
    ensures sink.Valid() && Sound(DiskOf(sink)) && (ok ==> EndsWithLine(sink.w.out.bytes, record))
    ensures IsHistory(more, longer) && more[|longer|] == DiskOf(sink) && more[0] == disks[0]
    ensures IsLadder(longer, marks, record, attempts + 1, ok)
    ensures old(sink.w.out.Willing()) ==> ok
  {
    more, longer := PublishOthers(sink, others, disks, acts);
    ok := TryPublish(sink, record);
    LadderGrows(acts, mine, record, attempts, longer, ok);
    HistoryExtends(more, longer, Attempt(record, ok), DiskOf(sink));
    marks := mine + seq(|longer| - |acts|, _ => false) + [true];
    more, longer := more + [DiskOf(sink)], longer + [Attempt(record, ok)];
  }

  /** The publish loop. */
  method Climb(sink: LineSink, record: seq<Byte>, cancelled: seq<bool>, others: seq<seq<seq<Byte>>>)
    returns (attempts: nat, ok: bool, ghost disks: seq<Disk>, ghost acts: seq<Act>, ghost mine: seq<bool>)
    requires sink.Valid() && Sound(DiskOf(sink)) && IsRecord(record)
    requires |cancelled| == |others| == MAX_PUBLISH_ATTEMPTS
    requires forall i, j :: 0 <= i < |others| && 0 <= j < |others[i]| ==> IsRecord(others[i][j])
    modifies sink`torn, sink.w`n, sink.w`failed, sink.w.buf, sink.w.out`bytes, sink.w.out`script, sink.w.out`calls, sink.w.out`refused
    ensures sink.Valid() && Sound(DiskOf(sink))
    ensures IsHistory(disks, acts) && disks[0] == old(DiskOf(sink)) && disks[|acts|] == DiskOf(sink)
    ensures IsLadder(acts, mine, record, attempts, ok) && 1 <= attempts <= MAX_PUBLISH_ATTEMPTS
    ensures !ok && attempts < MAX_PUBLISH_ATTEMPTS ==> cancelled[attempts - 1]
    ensures forall i :: 0 <= i < attempts - 1 ==> !cancelled[i]
    ensures ok ==> EndsWithLine(sink.w.out.bytes, record)
    ensures old(sink.w.out.Willing()) ==> ok && attempts == 1
  {
    disks, acts, mine := [DiskOf(sink)], [], [];
    attempts, ok := 0, false;
    while attempts < MAX_PUBLISH_ATTEMPTS
      invariant attempts <= MAX_PUBLISH_ATTEMPTS && !ok
      invariant sink.Valid() && Sound(DiskOf(sink))
      invariant IsHistory(disks, acts) && disks[0] == old(DiskOf(sink)) && disks[|acts|] == DiskOf(sink)
      invariant IsLadder(acts, mine, record, attempts, false)
      invariant forall i :: 0 <= i < attempts ==> !cancelled[i]
      invariant old(sink.w.out.Willing()) ==> attempts == 0 && sink.w.out.Willing()
    {
      ok, disks, acts, mine := Rung(sink, record, others[attempts], attempts, disks, acts, mine);
      attempts := attempts + 1;
      if ok {
        break;
      }
      if attempts == MAX_PUBLISH_ATTEMPTS || cancelled[attempts - 1] {
        break;
      }
    }
  }

  /** `runOne`: whatever the check, the encoder, the sink, the context and other
      workers do (`others[i]` are the records they publish before attempt i),
      exactly one Result (or one drop). The sink's history `disks`, `acts` holds
      at most three attempts of ours, all failed but perhaps the last, and fewer
      only after success or when `cancelled` (the context, as seen after each
      failure) cut the back-off short; a failure seen cancelled is the last. Over
      an output that refuses nothing the first attempt succeeds. A nil error means the record is the last
      whole line; and however the attempts failed, it was added at most once by
      each. */
  method RunOne(sink: LineSink, results: Results, outcome: Outcome, cancelled: seq<bool>, others: seq<seq<seq<Byte>>>)
    returns (attempts: nat, ok: bool, ghost disks: seq<Disk>, ghost acts: seq<Act>, ghost mine: seq<bool>)
    requires sink.Valid() && Sound(DiskOf(sink))
    requires outcome.Encoded? ==> IsRecord(outcome.record)
    requires |cancelled| == |others| == MAX_PUBLISH_ATTEMPTS
    requires forall i, j :: 0 <= i < |others| && 0 <= j < |others[i]| ==> IsRecord(others[i][j])
    modifies results, sink`torn, sink.w`n, sink.w`failed, sink.w.buf, sink.w.out`bytes, sink.w.out`script, sink.w.out`calls, sink.w.out`refused
    ensures sink.Valid() && Sound(DiskOf(sink))
    ensures |old(results.buffered)| < results.capacity ==>
      results.buffered == old(results.buffered) + [ok] && results.dropped == old(results.dropped)
    ensures |old(results.buffered)| >= results.capacity ==>
      results.buffered == old(results.buffered) && results.dropped == old(results.dropped) + 1
    ensures IsHistory(disks, acts) && disks[0] == old(DiskOf(sink)) && disks[|acts|] == DiskOf(sink)
    ensures IsLadder(acts, mine, if outcome.Encoded? then outcome.record else [], attempts, ok)
    ensures !outcome.Encoded? ==> attempts == 0 && !ok && acts == []
    ensures outcome.Encoded? ==> 1 <= attempts <= 3
    ensures outcome.Encoded? && !ok && attempts < 3 ==> cancelled[attempts - 1]
    ensures forall i :: 0 <= i < attempts - 1 ==> !cancelled[i]
    ensures outcome.Encoded? && old(sink.w.out.Willing()) ==> ok && attempts == 1
    ensures outcome.Encoded? && ok ==> EndsWithLine(sink.w.out.bytes, outcome.record)
    ensures outcome.Encoded? && outcome.record != [] ==>
      Sightings(Parse(sink.w.out.bytes), outcome.record)
        <= old(Sightings(Parse(sink.w.out.bytes), outcome.record)) + attempts + TriedByOthers(acts, mine, outcome.record)
  {
    if !outcome.Encoded? {
      disks, acts, mine := [DiskOf(sink)], [], [];
      results.Report(false);
      return 0, false, disks, acts, mine;
    }
    attempts, ok, disks, acts, mine := Climb(sink, outcome.record, cancelled, others);
    if outcome.record != [] {
      LadderSightings(disks, acts, mine, outcome.record, attempts, ok);
    }
    results.Report(ok);
  }
}
