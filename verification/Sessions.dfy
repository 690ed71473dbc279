/** Whole sessions of the file sink: the sink's own methods, from opening to
    closing, are the acts of a history; and over a file that refuses nothing the
    output is exactly the records. */
module Sessions {
  import opened Lines
  import opened BufWriter
  import opened Sinks
  import opened SinkRuns
  import opened Retry

  // ------------------------------------------------------- when nothing fails

  /** Nothing failed: every publish and every close was of an open sink and
      succeeded, and nobody died. */
  ghost predicate NothingFailed(disks: seq<Disk>, acts: seq<Act>)
    requires IsHistory(disks, acts)
  {
    forall k :: 0 <= k < |acts| ==>
      match acts[k] case Attempt(_, ok) => ok && disks[k].open case Shut(ok) => ok case Die(_) => false case Reopen => true
  }

  /** The records of the publishes among the first k acts, in order. */
  function Records(acts: seq<Act>, k: nat): seq<seq<Byte>>
    requires k <= |acts|
  {
    if k == 0 then [] else Records(acts, k - 1) + if acts[k - 1].Attempt? then [acts[k - 1].b] else []
  }

  /** Something has been published, or a sink closed. */
  ghost predicate Touched(acts: seq<Act>, k: nat)
    requires k <= |acts|
  {
    exists i :: 0 <= i < k && (acts[i].Attempt? || acts[i].Shut?)
  }

  /** The initial lines, with an unterminated last one ended. */
  function Terminated(t: Text): seq<seq<Byte>> {
    if t.tail == [] then t.lines else t.lines + [t.tail]
  }

  /** The flag of an open sink tells whether the output ends in a fragment. */
  ghost predicate FlagIsExact(s: Disk) {
    s.open ==> (s.torn <==> Parse(s.bytes).tail != [])
  }

  /** An act that does not fail ends a fragment, if it writes at all, and adds
      its record as a line. */
  function AfterClean(t: Text, a: Act): Text {
    match a
    case Attempt(b, _) => Text(Terminated(t) + [b], [])
    case Shut(_) => Text(Terminated(t), [])
    case _ => t
  }

  lemma CleanAct(s: Disk, a: Act, t: Disk)
    requires Sound(s) && FlagIsExact(s) && Happens(s, a, t)
    requires match a case Attempt(_, ok) => ok && s.open case Shut(ok) => ok case Die(_) => false case Reopen => true
    ensures FlagIsExact(t) && Parse(t.bytes) == AfterClean(Parse(s.bytes), a)
  {
    match a
    case Attempt(b, ok) =>
      var k := PublishedText(s, b, t.bytes);
      assert [] + b == b;
    case Shut(ok) =>
      ClosedText(s, ok, t.bytes);
    case Reopen =>
      TailIffEndsWithoutNewline(s.bytes);
    case _ =>
  }

  /** The initial lines, an unterminated last one ended if anything was done, and
      then the records. */
  ghost function Expected(t: Text, acts: seq<Act>, k: nat): Text
    requires k <= |acts|
  {
    if Touched(acts, k) then Text(Terminated(t) + Records(acts, k), []) else t
  }

  lemma {:induction false} UntouchedHasNoRecords(acts: seq<Act>, k: nat)
    requires k <= |acts| && !Touched(acts, k)
    ensures Records(acts, k) == []
  {
    if k > 0 {
      assert forall i :: 0 <= i < k ==> !(acts[i].Attempt? || acts[i].Shut?);
      UntouchedHasNoRecords(acts, k - 1);
    }
  }

  lemma ExpectedGrows(t: Text, acts: seq<Act>, k: nat)
    requires k < |acts| && !acts[k].Die?
    ensures Expected(t, acts, k + 1) == AfterClean(Expected(t, acts, k), acts[k])
  {
    assert Touched(acts, k + 1) <==> Touched(acts, k) || acts[k].Attempt? || acts[k].Shut?;
    if !Touched(acts, k) {
      UntouchedHasNoRecords(acts, k);
    }
  }

  /** As long as nothing fails, over any number of sessions, the output is the
      initial lines, an unterminated one ended as its own line by the first
      publish or close, and then the published records, one a line, in order, and
      not a line besides. */
  lemma {:induction false} CleanOutputIsTheRecords(disks: seq<Disk>, acts: seq<Act>, k: nat)
    requires IsHistory(disks, acts) && NothingFailed(disks, acts) && FlagIsExact(disks[0]) && k <= |acts|
    ensures FlagIsExact(disks[k])
    ensures Parse(disks[k].bytes) == Expected(Parse(disks[0].bytes), acts, k)
  {
    if k > 0 {
      CleanOutputIsTheRecords(disks, acts, k - 1);
      SoundAlways(disks, acts, k - 1);
      assert Happens(disks[k - 1], acts[k - 1], disks[k]);
      CleanAct(disks[k - 1], acts[k - 1], disks[k]);
      ExpectedGrows(Parse(disks[0].bytes), acts, k - 1);
    }
  }

  // ------------------------------------------------------- the sink's own acts

  /** `NewFileSink` on a regular file is a reopening. */
  method Open(file: Output, size: nat) returns (sink: LineSink)
    requires size > 0 && !file.closed
    ensures sink.Valid() && sink.w.out == file && fresh(sink) && fresh(sink.w) && fresh(sink.w.buf)
    ensures DiskOf(sink).bytes == file.bytes && Sound(DiskOf(sink))
    ensures forall flag :: Happens(Disk(file.bytes, flag, false), Reopen, DiskOf(sink))
  {
    sink := new LineSink.File(file, true, size);
    TailIffEndsWithoutNewline(file.bytes);
  }

  /** `Close` is a close. */
  method Shutting(sink: LineSink) returns (ok: bool)
    requires sink.Valid() && Sound(DiskOf(sink))
    modifies sink.w`n, sink.w`failed, sink.w.buf, sink.w.out
    ensures sink.Valid() && Happens(old(DiskOf(sink)), Shut(ok), DiskOf(sink)) && Sound(DiskOf(sink))
    ensures old(sink.w.out.Willing()) ==> ok
  {
    ok := sink.Close();
  }

  /** These acts are one session: opened, these records published, closed. */
  ghost predicate IsSession(acts: seq<Act>, records: seq<seq<Byte>>, ok: bool) {
    && |acts| == |records| + 2 && acts[0] == Reopen && acts[|acts| - 1] == Shut(ok)
    && forall i :: 0 < i < |acts| - 1 ==> acts[i].Attempt? && acts[i].b == records[i - 1]
  }

  /** One session: open the file, publish the records, close it. Over a file that
      refuses nothing all of it succeeds. */
  method Session(file: Output, size: nat, records: seq<seq<Byte>>)
    returns (ok: bool, ghost disks: seq<Disk>, ghost acts: seq<Act>)
    requires size > 0 && !file.closed && (forall i :: 0 <= i < |records| ==> IsRecord(records[i]))
    modifies file
    ensures IsHistory(disks, acts) && IsSession(acts, records, ok)
    ensures disks[0] == Disk(old(file.bytes), false, false) && disks[|acts|].bytes == file.bytes
    ensures forall i :: 0 < i < |acts| - 1 ==> disks[i].open
    ensures old(file.Willing()) ==> ok && NothingFailed(disks, acts)
  {
    disks, acts := [Disk(file.bytes, false, false)], [];
    var sink := Open(file, size);
    HistoryExtends(disks, acts, Reopen, DiskOf(sink));
    disks, acts := disks + [DiskOf(sink)], acts + [Reopen];
    disks, acts := PublishOthers(sink, records, disks, acts);
    StaysOpen(disks, acts, |acts|);
    ghost var sofar, done := disks, acts;
    ok := Shutting(sink);
    HistoryExtends(sofar, done, Shut(ok), DiskOf(sink));
    disks, acts := sofar + [DiskOf(sink)], done + [Shut(ok)];
    assert forall i :: 0 <= i < |sofar| ==> disks[i] == sofar[i];
  }

  lemma {:induction false} StaysOpen(disks: seq<Disk>, acts: seq<Act>, k: nat)
    requires IsHistory(disks, acts) && 1 <= k <= |acts| && acts[0] == Reopen && forall i :: 0 < i < |acts| ==> acts[i].Attempt?
    ensures forall i :: 1 <= i <= k ==> disks[i].open
  {
    assert Happens(disks[k - 1], acts[k - 1], disks[k]);
    if k > 1 {
      StaysOpen(disks, acts, k - 1);
    }
  }

  lemma {:induction false} RecordsOfSession(acts: seq<Act>, records: seq<seq<Byte>>, ok: bool, k: nat)
    requires IsSession(acts, records, ok) && 1 <= k < |acts|
    ensures Records(acts, k) == records[..k - 1]
  {
    if k > 1 {
      RecordsOfSession(acts, records, ok, k - 1);
      assert records[..k - 1] == records[..k - 2] + [records[k - 2]];
    } else {
      assert Records(acts, 0) == [];
    }
  }

  /** The whole promise of the sink over a healthy file, whatever it held before:
      its old lines, a fragment ended as a line of its own, and then exactly the
      records. */
  method AppendRecords(file: Output, size: nat, records: seq<seq<Byte>>) returns (ok: bool)
    requires size > 0 && file.Willing() && (forall i :: 0 <= i < |records| ==> IsRecord(records[i]))
    modifies file
    ensures ok && Parse(file.bytes) == Text(Terminated(Parse(old(file.bytes))) + records, [])
  {
    ghost var disks, acts;
    ok, disks, acts := Session(file, size, records);
    var n := |acts|;
    CleanOutputIsTheRecords(disks, acts, n);
    RecordsOfSession(acts, records, ok, n - 1);
    assert Touched(acts, n) by {
      assert acts[n - 1].Shut?;
    }
    assert records[..|records|] == records;
  }
}
