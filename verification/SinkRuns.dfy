/** What a reader finds in a sink's output after any history of publishes,
    closes, crashes and reopenings, over any initial contents. */
module SinkRuns {
  import opened Lines
  import opened Sinks

  /** The output, the sink's flag, and whether a sink has it open. */
  datatype Disk = Disk(bytes: seq<Byte>, torn: bool, open: bool)

  /** A publish and its outcome, a close, a process death while publishing `b`
      (or while closing, or between calls), and a new session. */
  datatype Act = Attempt(b: seq<Byte>, ok: bool) | Shut(ok: bool) | Die(b: seq<Byte>) | Reopen

  ghost predicate Happens(s: Disk, a: Act, t: Disk) {
    match a
    case Attempt(b, ok) =>
      && IsRecord(b)
      && if s.open then t.open && Published(s.bytes, s.torn, b, ok, t.bytes, t.torn) else !ok && t == s
    case Shut(ok) =>
      && !t.open && t.torn == s.torn
      && if s.open then ClosedOff(s.bytes, s.torn, ok, t.bytes) else !ok && t == s
    case Die(b) =>
      && IsRecord(b) && !t.open && s.bytes <= t.bytes
      && if s.open then t.bytes[|s.bytes|..] <= Payload(s.torn, b) else t.bytes == s.bytes
    case Reopen => !s.open && t == Disk(s.bytes, EndsWithoutNewline(s.bytes), true)
  }

  ghost predicate IsHistory(disks: seq<Disk>, acts: seq<Act>) {
    && |disks| == |acts| + 1
    && Sound(disks[0])
    && forall k :: 0 <= k < |acts| ==> Happens(disks[k], acts[k], disks[k + 1])
  }

  /** An open sink whose flag is clear is at the start of a line. */
  ghost predicate Sound(s: Disk) {
    s.open && !s.torn ==> Parse(s.bytes).tail == []
  }

  // ------------------------------------------------ the text after one publish

  function AfterLine(t: Text, b: seq<Byte>, k: nat): Text
    requires k <= |b| + 1
  {
    if k <= |b| then Text(t.lines, t.tail + b[..k]) else Text(t.lines + [t.tail + b], [])
  }

  /** What `k` delivered payload bytes turn the text into. */
  function AfterPayload(t: Text, torn: bool, b: seq<Byte>, k: nat): Text
    requires k <= |Payload(torn, b)|
  {
    if !torn then AfterLine(t, b, k)
    else if k == 0 then t
    else AfterLine(Text(t.lines + [t.tail], []), b, k - 1)
  }

  lemma PrefixOfLine(t: Text, b: seq<Byte>, k: nat)
    requires IsRecord(b) && k <= |b| + 1
    ensures FeedAll(t, (b + [NEWLINE])[..k]) == AfterLine(t, b, k)
  {
    if k <= |b| {
      assert (b + [NEWLINE])[..k] == b[..k];
      FeedRecord(t, b[..k]);
    } else {
      assert (b + [NEWLINE])[..k] == b + [NEWLINE];
      FeedLine(t, b);
    }
  }

  lemma PrefixOfTornPayload(t: Text, b: seq<Byte>, k: nat)
    requires IsRecord(b) && 0 < k <= |b| + 2
    ensures FeedAll(t, ([NEWLINE] + b + [NEWLINE])[..k]) == AfterLine(Text(t.lines + [t.tail], []), b, k - 1)
  {
    var line := b + [NEWLINE];
    assert ([NEWLINE] + b + [NEWLINE])[..k] == [NEWLINE] + line[..k - 1];
    FeedAppend(t, [NEWLINE], line[..k - 1]);
    FeedNewline(t);
    PrefixOfLine(Text(t.lines + [t.tail], []), b, k - 1);
  }

  lemma PrefixOfPayload(bytes: seq<Byte>, torn: bool, b: seq<Byte>, k: nat)
    requires IsRecord(b) && k <= |Payload(torn, b)|
    ensures Parse(bytes + Payload(torn, b)[..k]) == AfterPayload(Parse(bytes), torn, b, k)
  {
    FeedAppend(Text([], []), bytes, Payload(torn, b)[..k]);
    if !torn {
      assert Payload(torn, b) == b + [NEWLINE];
      PrefixOfLine(Parse(bytes), b, k);
    } else if k > 0 {
      PrefixOfTornPayload(Parse(bytes), b, k);
    }
  }

  /** Any act appends; a publish or a crash appends a payload prefix. */
  lemma PublishedText(s: Disk, b: seq<Byte>, after: seq<Byte>) returns (k: nat)
    requires IsRecord(b) && s.bytes <= after && after[|s.bytes|..] <= Payload(s.torn, b)
    ensures k <= |Payload(s.torn, b)| && k == |after| - |s.bytes|
    ensures Parse(after) == AfterPayload(Parse(s.bytes), s.torn, b, k)
  {
    k := |after| - |s.bytes|;
    assert after[|s.bytes|..] == Payload(s.torn, b)[..k];
    assert after == s.bytes + Payload(s.torn, b)[..k];
    PrefixOfPayload(s.bytes, s.torn, b, k);
  }

  lemma ClosedText(s: Disk, ok: bool, after: seq<Byte>)
    requires ClosedOff(s.bytes, s.torn, ok, after)
    ensures after == s.bytes || Parse(after) == Text(Parse(s.bytes).lines + [Parse(s.bytes).tail], [])
  {
    if after != s.bytes {
      FeedAppend(Text([], []), s.bytes, [NEWLINE]);
      FeedNewline(Parse(s.bytes));
    }
  }

  lemma HappeningKeepsSound(s: Disk, a: Act, t: Disk)
    requires Sound(s) && Happens(s, a, t)
    ensures Sound(t)
  {
    match a
    case Attempt(b, ok) =>
      if s.open {
        var k := PublishedText(s, b, t.bytes);
      }
    case Reopen =>
      TailIffEndsWithoutNewline(s.bytes);
    case _ =>
  }

  lemma {:induction false} SoundAlways(disks: seq<Disk>, acts: seq<Act>, k: nat)
    requires IsHistory(disks, acts) && k <= |acts|
    ensures Sound(disks[k])
  {
    if k > 0 {
      SoundAlways(disks, acts, k - 1);
      HappeningKeepsSound(disks[k - 1], acts[k - 1], disks[k]);
    }
  }

  // --------------------------------------------------- where each line is from

  /** A line or fragment is part of the initial contents, the record of a
      successful publish, cut from the record of a failed one, or empty. */
  datatype Origin = Earlier(line: nat) | Whole(act: nat) | Scrap(act: nat) | Blank

  ghost predicate ComesFrom(initial: Text, acts: seq<Act>, k: nat, o: Origin, piece: seq<Byte>)
    requires k <= |acts|
  {
    match o
    case Earlier(j) => j <= |initial.lines| && piece == (initial.lines + [initial.tail])[j]
    case Whole(i) => i < k && acts[i] == Attempt(piece, true)
    case Scrap(i) => i < k && (acts[i].Die? || (acts[i].Attempt? && !acts[i].ok)) && piece <= acts[i].b
    case Blank => piece == []
  }

  function Wholes(origins: seq<Origin>): seq<nat> {
    if origins == [] then []
    else Wholes(origins[..|origins| - 1]) + (if origins[|origins| - 1].Whole? then [origins[|origins| - 1].act] else [])
  }

  /** The successful publishes among the first k acts, in order. */
  function Successes(acts: seq<Act>, k: nat): seq<nat>
    requires k <= |acts|
  {
    if k == 0 then []
    else Successes(acts, k - 1) + (if acts[k - 1].Attempt? && acts[k - 1].ok then [k - 1] else [])
  }

  /** Every line is explained, and the lines explained as successful records are
      the successful publishes: all of them, once each, in order. */
  ghost predicate Explains(initial: Text, acts: seq<Act>, k: nat, text: Text, origins: seq<Origin>, last: Origin)
    requires k <= |acts|
  {
    && |origins| == |text.lines|
    && (forall j :: 0 <= j < |origins| ==> ComesFrom(initial, acts, k, origins[j], text.lines[j]))
    && ComesFrom(initial, acts, k, last, text.tail) && !last.Whole?
    && Wholes(origins) == Successes(acts, k)
  }

  lemma WholesGrow(origins: seq<Origin>, o: Origin)
    ensures Wholes(origins + [o]) == Wholes(origins) + (if o.Whole? then [o.act] else [])
  {
    assert (origins + [o])[..|origins|] == origins;
  }

  lemma StillExplained(initial: Text, acts: seq<Act>, k: nat, text: Text, origins: seq<Origin>, last: Origin)
    requires k < |acts| && Explains(initial, acts, k, text, origins, last)
    requires !(acts[k].Attempt? && acts[k].ok)
    ensures Explains(initial, acts, k + 1, text, origins, last)
  {
    assert forall j :: 0 <= j < |origins| ==> ComesFrom(initial, acts, k + 1, origins[j], text.lines[j]);
  }

  /** The pending fragment, terminated, is one more line of the same origin. */
  lemma FragmentEnded(initial: Text, acts: seq<Act>, k: nat, text: Text, origins: seq<Origin>, last: Origin)
    requires k <= |acts| && Explains(initial, acts, k, text, origins, last)
    ensures Explains(initial, acts, k, Text(text.lines + [text.tail], []), origins + [last], Blank)
  {
    WholesGrow(origins, last);
  }

  /** From the start of a line, k bytes of act number `n` (its record and a
      newline) add a fragment of that record, or the record itself. */
  lemma RecordAdded(initial: Text, acts: seq<Act>, n: nat, text: Text, origins: seq<Origin>, last: Origin, k: nat)
    returns (more: seq<Origin>, newLast: Origin)
    requires n < |acts| && Explains(initial, acts, n, text, origins, last) && text.tail == []
    requires acts[n].Attempt? || acts[n].Die?
    requires k <= |acts[n].b| + 1 && (acts[n].Attempt? && acts[n].ok ==> k == |acts[n].b| + 1)
    ensures Explains(initial, acts, n + 1, AfterLine(text, acts[n].b, k), more, newLast)
  {
    var b := acts[n].b;
    var won := acts[n].Attempt? && acts[n].ok;
    assert text.tail + b == b;
    if k <= |b| {
      more, newLast := origins, Scrap(n);
    } else {
      more, newLast := origins + [if won then Whole(n) else Scrap(n)], Blank;
      WholesGrow(origins, if won then Whole(n) else Scrap(n));
    }
    var after := AfterLine(text, b, k);
    forall j | 0 <= j < |more| ensures ComesFrom(initial, acts, n + 1, more[j], after.lines[j]) {
      if j < |origins| {
        assert ComesFrom(initial, acts, n, origins[j], text.lines[j]);
      }
    }
  }

  lemma PayloadExplained(initial: Text, acts: seq<Act>, n: nat, s: Disk, origins: seq<Origin>, last: Origin, k: nat)
    returns (more: seq<Origin>, newLast: Origin)
    requires n < |acts| && Sound(s) && s.open && Explains(initial, acts, n, Parse(s.bytes), origins, last)
    requires acts[n].Attempt? || acts[n].Die?
    requires k <= |Payload(s.torn, acts[n].b)| && (acts[n].Attempt? && acts[n].ok ==> k == |Payload(s.torn, acts[n].b)|)
    ensures Explains(initial, acts, n + 1, AfterPayload(Parse(s.bytes), s.torn, acts[n].b, k), more, newLast)
  {
    var text := Parse(s.bytes);
    if !s.torn {
      more, newLast := RecordAdded(initial, acts, n, text, origins, last, k);
    } else if k == 0 {
      StillExplained(initial, acts, n, text, origins, last);
      more, newLast := origins, last;
    } else {
      FragmentEnded(initial, acts, n, text, origins, last);
      more, newLast := RecordAdded(initial, acts, n, Text(text.lines + [text.tail], []), origins + [last], Blank, k - 1);
    }
  }

  lemma ActExplained(initial: Text, disks: seq<Disk>, acts: seq<Act>, n: nat, origins: seq<Origin>, last: Origin)
    returns (more: seq<Origin>, newLast: Origin)
    requires IsHistory(disks, acts) && n < |acts|
    requires Explains(initial, acts, n, Parse(disks[n].bytes), origins, last)
    ensures Explains(initial, acts, n + 1, Parse(disks[n + 1].bytes), more, newLast)
  {
    var s, a, t := disks[n], acts[n], disks[n + 1];
    SoundAlways(disks, acts, n);
    if s.open && (a.Attempt? || a.Die?) {
      var k := PublishedText(s, a.b, t.bytes);
      more, newLast := PayloadExplained(initial, acts, n, s, origins, last, k);
    } else {
      StillExplained(initial, acts, n, Parse(s.bytes), origins, last);
      more, newLast := origins, last;
      if a.Shut? && s.open {
        ClosedText(s, a.ok, t.bytes);
        if t.bytes != s.bytes {
          FragmentEnded(initial, acts, n + 1, Parse(s.bytes), origins, last);
          more, newLast := origins + [last], Blank;
        }
      }
    }
  }

  /** Where the initial lines come from: themselves. */
  function Selves(n: nat): (origins: seq<Origin>)
    ensures |origins| == n
  {
    seq(n, j requires 0 <= j < n => Earlier(j))
  }

  lemma {:induction false} NoWholes(origins: seq<Origin>)
    requires forall j :: 0 <= j < |origins| ==> !origins[j].Whole?
    ensures Wholes(origins) == []
  {
    if origins != [] {
      NoWholes(origins[..|origins| - 1]);
    }
  }

  lemma InitialExplained(initial: Text, acts: seq<Act>) returns (origins: seq<Origin>, last: Origin)
    ensures Explains(initial, acts, 0, initial, origins, last)
  {
    origins, last := Selves(|initial.lines|), Earlier(|initial.lines|);
    NoWholes(origins);
  }

  lemma {:induction false} LinesAreExplained(disks: seq<Disk>, acts: seq<Act>, k: nat)
    returns (origins: seq<Origin>, last: Origin)
    requires IsHistory(disks, acts) && k <= |acts|
    ensures Explains(Parse(disks[0].bytes), acts, k, Parse(disks[k].bytes), origins, last)
  {
    if k == 0 {
      origins, last := InitialExplained(Parse(disks[0].bytes), acts);
    } else {
      origins, last := LinesAreExplained(disks, acts, k - 1);
      origins, last := ActExplained(Parse(disks[0].bytes), disks, acts, k - 1, origins, last);
    }
  }

  /** Torn-line theorem. After any history over any initial contents the output's
      bytes are lines and a last fragment, each of which is an initial line,
      empty, a prefix of a record whose publish failed or was cut short, or the
      whole record of a publish that succeeded; and the latter are all the
      successful publishes of all sessions, once each and in order. */
  lemma EveryLineIsExplained(disks: seq<Disk>, acts: seq<Act>, k: nat)
    returns (text: Text, origins: seq<Origin>, last: Origin)
    requires IsHistory(disks, acts) && k <= |acts|
    ensures disks[k].bytes == Render(text) && text == Parse(disks[k].bytes)
    ensures Explains(Parse(disks[0].bytes), acts, k, text, origins, last)
  {
    text := Parse(disks[k].bytes);
    origins, last := LinesAreExplained(disks, acts, k);
    RenderInvertsParse(disks[k].bytes);
  }

  lemma {:induction false} OutputOnlyGrows(disks: seq<Disk>, acts: seq<Act>, i: nat, k: nat)
    requires IsHistory(disks, acts) && i <= k <= |acts|
    ensures disks[i].bytes <= disks[k].bytes
    decreases k
  {
    if i < k {
      OutputOnlyGrows(disks, acts, i, k - 1);
      assert Happens(disks[k - 1], acts[k - 1], disks[k]);
    }
  }

  /** Crash safety. A record whose publish succeeded, in whatever session, is
      the last complete line right then and stays a complete line at the same
      place through every later failure, close, crash and reopening. */
  lemma SuccessIsForever(disks: seq<Disk>, acts: seq<Act>, i: nat, k: nat)
    requires IsHistory(disks, acts) && i < k <= |acts|
    requires acts[i].Attempt? && acts[i].ok
    ensures var place := |Parse(disks[i + 1].bytes).lines| - 1;
      && 0 <= place < |Parse(disks[k].bytes).lines|
      && Parse(disks[k].bytes).lines[place] == acts[i].b
  {
    SoundAlways(disks, acts, i);
    var n := PublishedText(disks[i], acts[i].b, disks[i + 1].bytes);
    OutputOnlyGrows(disks, acts, i + 1, k);
    var early, late := disks[i + 1].bytes, disks[k].bytes;
    assert late == early + late[|early|..];
    FeedAppend(Text([], []), early, late[|early|..]);
    LinesOnlyGrow(Parse(early), late[|early|..]);
  }
}
