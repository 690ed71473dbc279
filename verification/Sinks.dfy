/** The JSONL sinks: one record a line, over a writer that may accept any prefix
    of anything and fail. */
module Sinks {
  import opened Lines
  import opened BufWriter

  /** The bytes one publish means to add: a bare newline first if the output may
      end in a fragment, then the record as a line. */
  function Payload(torn: bool, b: seq<Byte>): seq<Byte> {
    Separator(torn) + b + [NEWLINE]
  }

  function Separator(torn: bool): seq<Byte> { if torn then [NEWLINE] else [] }

  lemma PayloadInOrder(torn: bool, b: seq<Byte>, start: seq<Byte>, k: nat)
    requires k <= |b| + 1
    ensures start + Separator(torn) + (b + [NEWLINE])[..k] == start + Payload(torn, b)[..|Separator(torn)| + k]
    ensures |Payload(torn, b)| == |Separator(torn)| + |b| + 1
  {
    assert Separator(torn) + (b + [NEWLINE])[..k] == Payload(torn, b)[..|Separator(torn)| + k];
  }

  /** The promise of one publish: some prefix of the payload is delivered and
      nothing else; success means all of it and clears the flag; failure sets
      the flag if a byte got out, and never clears it. */
  ghost predicate Published(before: seq<Byte>, torn: bool, b: seq<Byte>, ok: bool, after: seq<Byte>, tornAfter: bool) {
    && before <= after
    && after[|before|..] <= Payload(torn, b)
    && (ok ==> after == before + Payload(torn, b) && !tornAfter)
    && (!ok ==> (tornAfter <==> torn || |after| > |before|))
  }

  /** The promise of `Close`: at most the owed newline is delivered. */
  ghost predicate ClosedOff(before: seq<Byte>, torn: bool, ok: bool, after: seq<Byte>) {
    && (after == before || (torn && after == before + [NEWLINE]))
    && (ok && torn ==> after == before + [NEWLINE])
  }

  /** `handed - Buffered()` is what was delivered: if the delivered and the
      buffered bytes are the start plus the first `handed` payload bytes, then
      the delivered ones add a prefix of the payload, that long. */
  lemma DeliveredIsHandedLessBuffered(start: seq<Byte>, after: seq<Byte>, buffered: seq<Byte>, payload: seq<Byte>, handed: nat)
    requires handed <= |payload| && after + buffered == start + payload[..handed] && start <= after
    ensures after[|start|..] <= payload && |after| - |start| == handed - |buffered|
  {
    var d := |after| - |start|;
    assert |after + buffered| == |start| + handed;
    forall i | 0 <= i < d ensures after[|start|..][i] == payload[i] {
      assert (after + buffered)[|start| + i] == (start + payload[..handed])[|start| + i];
    }
    assert after[|start|..] == payload[..d];
  }

  /** Hence the publish keeps its promise. */
  lemma BookkeepingIsRight(start: seq<Byte>, torn: bool, b: seq<Byte>, k: nat, ok: bool, after: seq<Byte>, buffered: seq<Byte>)
    requires k <= |b| + 1 && start <= after && (ok ==> k == |b| + 1 && buffered == [])
    requires after + buffered == start + Separator(torn) + (b + [NEWLINE])[..k]
    ensures var delivered := |Separator(torn)| + k - |buffered|;
      Published(start, torn, b, ok, after, !ok && (torn || delivered > 0))
  {
    PayloadInOrder(torn, b, start, k);
    DeliveredIsHandedLessBuffered(start, after, buffered, Payload(torn, b), |Separator(torn)| + k);
    if ok {
      assert after + buffered == after;
    }
  }

  /** The Write calls that deliver what is buffered and then a line: one, or two
      with the line whole in the second if it does not fit behind the first. */
  function Calls(buffered: seq<Byte>, line: seq<Byte>, size: nat): seq<seq<Byte>> {
    if buffered == [] then [line]
    else if |buffered| + |line| <= size then [buffered + line]
    else [buffered, line]
  }

  /** The Write calls of one publish if none is refused. */
  function Plan(torn: bool, b: seq<Byte>, size: nat): seq<seq<Byte>> {
    Calls(Separator(torn), b + [NEWLINE], size)
  }

  /** The calls made are those planned, or the first of them up to a refusal. */
  ghost predicate AsPlanned(before: seq<seq<Byte>>, after: seq<seq<Byte>>, plan: seq<seq<Byte>>, ok: bool) {
    && before <= after && 0 < |after| - |before| <= |plan| && after[|before|..] <= plan
    && (ok ==> after == before + plan)
  }

  lemma SameAfterSameStart(start: seq<Byte>, a: seq<Byte>, b: seq<Byte>)
    ensures start + a == start + b ==> a == b
  {
    assert a == (start + a)[|start|..] && b == (start + b)[|start|..];
  }

  /** What is buffered behind a known start, if all of the line was handed over. */
  lemma BufferedBehind(bytes: seq<Byte>, contents: seq<Byte>, start: seq<Byte>, buffered: seq<Byte>, line: seq<Byte>, k: nat)
    requires k == |line| && bytes + contents == start + buffered + line[..k]
    ensures bytes == start ==> contents == buffered + line
    ensures bytes == start + buffered ==> contents == line
  {
    assert line[..k] == line && start + buffered + line == start + (buffered + line);
    SameAfterSameStart(start, contents, buffered + line);
    SameAfterSameStart(start + buffered, contents, line);
  }

  lemma PlanOfTwo(before: seq<seq<Byte>>, first: seq<Byte>, second: seq<Byte>)
    ensures before + [first] + [second] == before + [first, second]
    ensures AsPlanned(before, before + [first], [first, second], false)
    ensures (before + [first, second])[|before|..] == [first, second]
    ensures forall one :: (before + [one])[|before|..] == [one]
  {
    assert (before + [first])[|before|..] == [first] == [first, second][..1];
  }

  class LineSink {
    const w: Writer
    var torn: bool

    /** Between calls the buffer is empty, unless a failed `Close` left its
        newline behind under a latched error. */
    ghost predicate Valid()
      reads this, w, w.out
    {
      w.Valid() && (w.n == 0 || w.failed) && (w.failed ==> w.out.closed)
    }

    /** `NewStdoutSink`. */
    constructor Stdout(out: Output, size: nat)
      requires size > 0 && !out.closed
      ensures Valid() && fresh(w) && fresh(w.buf) && w.out == out && !torn
    {
      w := new Writer(out, size);
      torn := false;
    }

    /** `NewFileSink` on an opened file: start torn if it is a regular file that
        does not end in a newline. */
    constructor File(file: Output, regular: bool, size: nat)
      requires size > 0 && !file.closed
      ensures Valid() && fresh(w) && fresh(w.buf) && w.out == file
      ensures torn <==> regular && Parse(file.bytes).tail != []
    {
      w := new Writer(file, size);
      TailIffEndsWithoutNewline(file.bytes);
      torn := regular && EndsWithoutNewline(file.bytes);
    }

    /** `writeLine`: the record and its newline, as one write if they do not fit
        the buffer. Reports how many bytes it handed over. */
    method WriteLine(b: seq<Byte>) returns (written: nat, ok: bool)
      requires w.Valid()
      modifies w`n, w`failed, w.buf, w.out`bytes, w.out`script, w.out`calls, w.out`refused
      ensures w.Valid() && written <= |b| + 1 && w.Handed() == old(w.Handed()) + (b + [NEWLINE])[..written]
      ensures ok == !w.failed && (ok ==> written == |b| + 1) && old(w.out.bytes) <= w.out.bytes
      ensures w.out.closed ==> w.out.bytes == old(w.out.bytes)
      ensures old(w.failed) ==> w.failed && written == 0 && w.out.bytes == old(w.out.bytes) && w.n == old(w.n)
      ensures ok <==> !old(w.failed) && w.out.refused == old(w.out.refused)
      ensures old(w.out.refused) <= w.out.refused
      ensures old(w.out.Willing()) ==> w.out.Willing() && w.out.refused == old(w.out.refused)
      ensures !old(w.failed) && |b| < old(w.Available()) ==>
        ok && w.n > 0 && w.out.calls == old(w.out.calls) && w.out.bytes == old(w.out.bytes)
      ensures !old(w.failed) && |b| >= old(w.Available()) && old(w.n) == 0 ==>
        w.n == 0 && w.out.calls == old(w.out.calls) + [b + [NEWLINE]]
      ensures !old(w.failed) && |b| >= old(w.Available()) && old(w.n) > 0 ==>
        var flushed := old(w.out.calls) + [old(w.Contents())];
        && (w.out.calls == flushed || (|b| >= w.buf.Length && w.out.calls == flushed + [b + [NEWLINE]]))
        && (ok && |b| < w.buf.Length ==> w.n > 0 && w.out.calls == flushed && w.out.bytes == old(w.Handed()))
        && (ok && |b| >= w.buf.Length ==> w.n == 0 && w.out.calls == flushed + [b + [NEWLINE]])
    {
      if |b| + 1 > w.Available() {
        if w.n > 0 {
          ok := w.Flush();
          if !ok {
            return 0, false;
          }
        }
        written, ok := w.Write(b + [NEWLINE]);
        return;
      }
      ghost var handed := w.Handed();
      written, ok := w.Write(b);
      assert (b + [NEWLINE])[..written] == b[..written];
      if !ok {
        return;
      }
      ok := w.WriteByte(NEWLINE);
      assert w.Handed() == handed + b + (if ok then [NEWLINE] else []);
      if ok {
        assert (b + [NEWLINE])[..written + 1] == b + [NEWLINE];
        written := written + 1;
      }
    }

    /** A line and its flush, behind what is already buffered. */
    method WriteAndFlush(b: seq<Byte>) returns (k: nat, ok: bool)
      requires w.Valid()
      modifies w`n, w`failed, w.buf, w.out`bytes, w.out`script, w.out`calls, w.out`refused
      ensures w.Valid() && k <= |b| + 1 && w.Handed() == old(w.Handed()) + (b + [NEWLINE])[..k] && old(w.out.bytes) <= w.out.bytes
      ensures ok == !w.failed && (ok ==> k == |b| + 1 && w.n == 0)
      ensures ok <==> !old(w.failed) && w.out.refused == old(w.out.refused)
      ensures old(w.out.Willing()) ==> w.out.Willing() && w.out.refused == old(w.out.refused)
      ensures !old(w.failed) ==>
        AsPlanned(old(w.out.calls), w.out.calls, Calls(old(w.Contents()), b + [NEWLINE], w.buf.Length), ok)
      ensures old(w.failed) ==> k == 0
      ensures w.out.closed ==> w.out.bytes == old(w.out.bytes)
    {
      ghost var before, buffered := w.out.calls, w.Contents();
      PlanOfTwo(before, buffered, b + [NEWLINE]);
      k, ok := WriteLine(b);
      if ok {
        if w.n > 0 {
          BufferedBehind(w.out.bytes, w.Contents(), old(w.out.bytes), buffered, b + [NEWLINE], k);
        }
        ok := w.Flush();
      }
    }

    /** The writing half of `publishLine`: separator, line, flush. */
    method Hand(b: seq<Byte>) returns (handed: nat, k: nat, ok: bool)
      requires Valid()
      modifies w`n, w`failed, w.buf, w.out`bytes, w.out`script, w.out`calls, w.out`refused
      ensures w.Valid() && k <= |b| + 1 && old(w.out.bytes) <= w.out.bytes
      ensures ok == !w.failed && (ok ==> k == |b| + 1 && w.n == 0)
      ensures !old(w.failed) ==> handed == |Separator(torn)| + k
      ensures !old(w.failed) ==> w.Handed() == old(w.out.bytes) + Separator(torn) + (b + [NEWLINE])[..k]
      ensures ok <==> !old(w.failed) && w.out.refused == old(w.out.refused)
      ensures old(w.out.Willing()) ==> w.out.Willing() && w.out.refused == old(w.out.refused)
      ensures !old(w.failed) ==> AsPlanned(old(w.out.calls), w.out.calls, Plan(torn, b, w.buf.Length), ok)
      ensures old(w.failed) ==> !ok && handed == 0
      ensures w.out.closed ==> w.out.bytes == old(w.out.bytes)
    {
      assert !w.failed ==> w.Handed() == w.out.bytes;
      handed, k, ok := 0, 0, true;
      if torn {
        ok := w.WriteByte(NEWLINE);
        if !ok {
          return;
        }
        handed := 1;
      }
      SameAfterSameStart(w.out.bytes, w.Contents(), Separator(torn));
      k, ok := WriteAndFlush(b);
      handed := handed + k;
    }

    /** `publishLine`: hand over and flush the line; on any error note whether a
        byte got out and reset the buffer. It succeeds exactly when no Write call
        below is refused, and the whole line, large or small, is in one call. */
    method Publish(b: seq<Byte>) returns (ok: bool)
      requires Valid()
      modifies w`n, w`failed, w.buf, w.out`bytes, w.out`script, w.out`calls, w.out`refused, this`torn
      ensures Valid() && !w.failed && w.n == 0
      ensures Published(old(w.out.bytes), old(torn), b, ok, w.out.bytes, torn)
      ensures ok <==> !old(w.failed) && w.out.refused == old(w.out.refused)
      ensures old(w.out.Willing()) ==> w.out.Willing() && ok
      ensures !old(w.failed) ==> AsPlanned(old(w.out.calls), w.out.calls, Plan(old(torn), b, w.buf.Length), ok)
      ensures w.out.closed ==> !ok && w.out.bytes == old(w.out.bytes) && torn == old(torn)
    {
      ghost var start, latched := w.out.bytes, w.failed;
      var handed, k;
      handed, k, ok := Hand(b);
      if !latched {
        BookkeepingIsRight(start, torn, b, k, ok, w.out.bytes, w.Contents());
      }
      if !ok {
        torn := torn || handed - w.n > 0;
        w.Reset();
        return;
      }
      torn := false;
    }

    /** `Close`: write the newline a torn output is owed, flush, and close the
        file whatever happened. A second `Close` is an error. */
    method Close() returns (ok: bool)
      requires Valid()
      modifies w`n, w`failed, w.buf, w.out
      ensures Valid() && w.out.closed
      ensures ClosedOff(old(w.out.bytes), torn, ok, w.out.bytes)
      ensures ok <==> !old(w.out.closed) && w.out.refused == old(w.out.refused)
      ensures old(w.out.Willing()) ==> ok
      ensures !old(w.out.closed) ==> w.out.calls == old(w.out.calls) + if torn then [[NEWLINE]] else []
      ensures old(w.out.closed) ==> !ok && w.out.bytes == old(w.out.bytes)
    {
      ghost var start := w.out.bytes;
      if torn {
        var wrote := w.WriteByte(NEWLINE);
      }
      assert !old(w.failed) ==> w.Handed() == start + Separator(torn);
      if !old(w.failed) {
        SameAfterSameStart(start, w.Contents(), Separator(torn));
      }
      ok := w.Flush();
      if !old(w.failed) {
        DeliveredIsHandedLessBuffered(start, w.out.bytes, w.Contents(), Separator(torn), |Separator(torn)|);
      }
      ok := ok && !w.out.closed;
      w.out.Close();
    }
  }
}
