/** The consumer of Results(): it prints failures, counts skips, and limits skip
    lines to one per target per window. */
module DrainResults {
  import opened Common
  import opened SlotTime
  import opened LapViews

  /** What `errors.Is` can tell about a Result's error. */
  datatype Err = Nil | Skipped | SkippedQueued | Other

  /** ErrSkippedQueued wraps ErrSkipped: it matches both. */
  predicate IsSkipped(e: Err) { e.Skipped? || e.SkippedQueued? }

  predicate IsSkippedQueued(e: Err) { e.SkippedQueued? }

  datatype Result = Result(url: string, interval: int, err: Err)

  /** A printed line; `at` is the clock reading that let it through. */
  datatype Line = CheckFailed(url: string) | CheckSkipped(url: string, kind: SkipKind, more: nat, at: int)

  /** `last` is 0, Go's zero time, until a line was printed. */
  datatype SkipState = SkipState(last: int, suppressed: nat)

  datatype Drained = Drained(lines: seq<Line>, failures: nat, observed: seq<SkipKind>, skips: map<string, SkipState>)

  function Window(r: Result, interval: int): int {
    if r.interval <= 0 then interval else r.interval
  }

  /** A line for this target was printed less than a window ago. */
  predicate Suppresses(st: SkipState, t: int, window: int) {
    st.last != 0 && SatSub(t, st.last) < window && SatSub(t, st.last) >= 0
  }

  function StateOf(skips: map<string, SkipState>, url: string): SkipState {
    if url in skips then skips[url] else SkipState(0, 0)
  }

  function OnSkip(d: Drained, r: Result, kind: SkipKind, t: int, interval: int): Drained {
    var st := StateOf(d.skips, r.url);
    var seen := d.(observed := d.observed + [kind]);
    if Suppresses(st, t, Window(r, interval)) then
      seen.(skips := d.skips[r.url := st.(suppressed := st.suppressed + 1)])
    else
      seen.(skips := d.skips[r.url := SkipState(t, 0)], lines := d.lines + [CheckSkipped(r.url, kind, st.suppressed, t)])
  }

  function OnResult(d: Drained, r: Result, t: int, interval: int): Drained {
    match r.err
    case SkippedQueued => OnSkip(d, r, PriorRunQueued, t, interval)
    case Skipped => OnSkip(d, r, PriorRunStarted, t, interval)
    case Other => d.(failures := d.failures + 1, lines := d.lines + [CheckFailed(r.url)])
    case Nil => d
  }

  /** The state after the first n results; `clock[i]` is the reading taken if
      result i is a skip. */
  function DrainFirst(results: seq<Result>, clock: seq<int>, interval: int, n: nat): Drained
    requires n <= |results| == |clock|
  {
    if n == 0 then Drained([], 0, [], map[])
    else OnResult(DrainFirst(results, clock, interval, n - 1), results[n - 1], clock[n - 1], interval)
  }

  /** `drainResults`, as the loop it is. */
  method Drain(results: seq<Result>, clock: seq<int>, interval: int)
    returns (lines: seq<Line>, failures: nat, observed: seq<SkipKind>, skips: map<string, SkipState>)
    requires |clock| == |results|
    ensures Drained(lines, failures, observed, skips) == DrainFirst(results, clock, interval, |results|)
  {
    lines, failures, observed, skips := [], 0, [], map[];
    for i := 0 to |results|
      invariant Drained(lines, failures, observed, skips) == DrainFirst(results, clock, interval, i)
    {
      var r := results[i];
      var kind;
      if IsSkippedQueued(r.err) {
        kind := PriorRunQueued;
      } else if IsSkipped(r.err) {
        kind := PriorRunStarted;
      } else if r.err != Nil {
        failures := failures + 1;
        lines := lines + [CheckFailed(r.url)];
        continue;
      } else {
        continue;
      }
      observed := observed + [kind];
      var st := if r.url in skips then skips[r.url] else SkipState(0, 0);
      var window := r.interval;
      if window <= 0 {
        window := interval;
      }
      var t := clock[i];
      if st.last != 0 && SatSub(t, st.last) < window && SatSub(t, st.last) >= 0 {
        st := st.(suppressed := st.suppressed + 1);
        skips := skips[r.url := st];
        continue;
      }
      lines := lines + [CheckSkipped(r.url, kind, st.suppressed, t)];
      skips := skips[r.url := SkipState(t, 0)];
    }
  }

  // ------------------------------------------------------------ conservation

  /** Skips received for `url`. */
  function SkipsReceived(results: seq<Result>, n: nat, url: string): nat
    requires n <= |results|
  {
    if n == 0 then 0 else SkipsReceived(results, n - 1, url) + OneIf(IsSkipped(results[n - 1].err) && results[n - 1].url == url)
  }

  /** Skips the lines account for: each one printed, and each one a line says
      was suppressed before it. */
  function SkipsTold(lines: seq<Line>, url: string): nat {
    if lines == [] then 0
    else SkipsTold(lines[..|lines| - 1], url) +
         match lines[|lines| - 1]
         case CheckFailed(_) => 0
         case CheckSkipped(u, _, more, _) => if u == url then 1 + more else 0
  }

  lemma ToldGrows(lines: seq<Line>, line: Line, url: string)
    ensures SkipsTold(lines + [line], url) == SkipsTold(lines, url) +
      match line case CheckFailed(_) => 0 case CheckSkipped(u, _, more, _) => if u == url then 1 + more else 0
  {
    assert (lines + [line])[..|lines|] == lines;
  }

  lemma SkipIsTold(d: Drained, r: Result, kind: SkipKind, t: int, interval: int, url: string)
    ensures var after := OnSkip(d, r, kind, t, interval);
      SkipsTold(after.lines, url) + StateOf(after.skips, url).suppressed
      == SkipsTold(d.lines, url) + StateOf(d.skips, url).suppressed + OneIf(r.url == url)
  {
    ToldGrows(d.lines, CheckSkipped(r.url, kind, StateOf(d.skips, r.url).suppressed, t), url);
  }

  lemma ResultIsTold(d: Drained, r: Result, t: int, interval: int, url: string)
    ensures var after := OnResult(d, r, t, interval);
      SkipsTold(after.lines, url) + StateOf(after.skips, url).suppressed
      == SkipsTold(d.lines, url) + StateOf(d.skips, url).suppressed + OneIf(IsSkipped(r.err) && r.url == url)
  {
    match r.err
    case SkippedQueued => SkipIsTold(d, r, PriorRunQueued, t, interval, url);
    case Skipped => SkipIsTold(d, r, PriorRunStarted, t, interval, url);
    case Other => ToldGrows(d.lines, CheckFailed(r.url), url);
    case Nil =>
  }

  /** No skip goes untold: received = printed + reported as suppressed + still
      suppressed, for every target, after every result. */
  lemma {:induction false} SkipsAreConserved(results: seq<Result>, clock: seq<int>, interval: int, n: nat, url: string)
    requires n <= |results| == |clock|
    ensures SkipsReceived(results, n, url) == SkipsTold(DrainFirst(results, clock, interval, n).lines, url)
      + StateOf(DrainFirst(results, clock, interval, n).skips, url).suppressed
  {
    if n > 0 {
      SkipsAreConserved(results, clock, interval, n - 1, url);
      ResultIsTold(DrainFirst(results, clock, interval, n - 1), results[n - 1], clock[n - 1], interval, url);
    }
  }

  /** The error a skip of this kind arrives with. */
  function ErrOf(kind: SkipKind): Err {
    if kind == PriorRunQueued then SkippedQueued else Skipped
  }

  function SkipsAmong(results: seq<Result>, n: nat, kind: SkipKind): nat
    requires n <= |results|
  {
    if n == 0 then 0 else SkipsAmong(results, n - 1, kind) + OneIf(results[n - 1].err == ErrOf(kind))
  }

  function Among(observed: seq<SkipKind>, kind: SkipKind): nat {
    if observed == [] then 0 else Among(observed[..|observed| - 1], kind) + OneIf(observed[|observed| - 1] == kind)
  }

  function FailuresAmong(results: seq<Result>, n: nat): nat
    requires n <= |results|
  {
    if n == 0 then 0 else FailuresAmong(results, n - 1) + OneIf(results[n - 1].err == Other)
  }

  lemma ResultIsObserved(d: Drained, r: Result, t: int, interval: int, kind: SkipKind)
    ensures var after := OnResult(d, r, t, interval);
      && Among(after.observed, kind) == Among(d.observed, kind) + OneIf(r.err == ErrOf(kind))
      && after.failures == d.failures + OneIf(r.err == Other)
  {
    assert (d.observed + [PriorRunQueued])[..|d.observed|] == d.observed;
    assert (d.observed + [PriorRunStarted])[..|d.observed|] == d.observed;
  }

  /** The skip counter sees every skip, printed or not, under its own kind; and
      every failure is counted. */
  lemma {:induction false} EverySkipIsObserved(results: seq<Result>, clock: seq<int>, interval: int, n: nat, kind: SkipKind)
    requires n <= |results| == |clock|
    ensures Among(DrainFirst(results, clock, interval, n).observed, kind) == SkipsAmong(results, n, kind)
    ensures DrainFirst(results, clock, interval, n).failures == FailuresAmong(results, n)
  {
    if n > 0 {
      EverySkipIsObserved(results, clock, interval, n - 1, kind);
      ResultIsObserved(DrainFirst(results, clock, interval, n - 1), results[n - 1], clock[n - 1], interval, kind);
    }
  }

  // --------------------------------------------------------------- line by line

  /** The line is about this result: a failure, or a skip of the kind its error
      tells, printed at this reading of the clock. */
  predicate Tells(line: Line, r: Result, t: int) {
    match line
    case CheckFailed(url) => r.err.Other? && url == r.url
    case CheckSkipped(url, kind, _, at) =>
      url == r.url && at == t && match kind case PriorRunQueued => r.err.SkippedQueued? case PriorRunStarted => r.err.Skipped?
  }

  /** `from` names a result for each line, in order, and every failure has one. */
  ghost predicate TellsOf(lines: seq<Line>, results: seq<Result>, clock: seq<int>, n: nat, from: seq<nat>)
    requires n <= |results| == |clock|
  {
    && |from| == |lines|
    && (forall j :: 0 <= j < |from| ==> from[j] < n && Tells(lines[j], results[from[j]], clock[from[j]]))
    && (forall i, j :: 0 <= i < j < |from| ==> from[i] < from[j])
    && (forall i :: 0 <= i < n && results[i].err.Other? ==> i in from)
  }

  lemma ResultAddsItsLine(d: Drained, r: Result, t: int, interval: int)
    ensures var after := OnResult(d, r, t, interval);
      || (after.lines == d.lines && !r.err.Other?)
      || (|after.lines| == |d.lines| + 1 && after.lines[..|d.lines|] == d.lines && Tells(after.lines[|d.lines|], r, t))
  {
  }

  /** Every printed line is about one result, in the order of the results, and no
      failure goes without its line. */
  lemma {:induction false} EveryLineHasItsResult(results: seq<Result>, clock: seq<int>, interval: int, n: nat)
    returns (from: seq<nat>)
    requires n <= |results| == |clock|
    ensures TellsOf(DrainFirst(results, clock, interval, n).lines, results, clock, n, from)
  {
    from := [];
    if n > 0 {
      from := EveryLineHasItsResult(results, clock, interval, n - 1);
      var d := DrainFirst(results, clock, interval, n - 1);
      var after := OnResult(d, results[n - 1], clock[n - 1], interval);
      ResultAddsItsLine(d, results[n - 1], clock[n - 1], interval);
      if |after.lines| > |d.lines| {
        assert forall j :: 0 <= j < |d.lines| ==> after.lines[j] == d.lines[j];
        from := from + [n - 1];
        assert from[|d.lines|] == n - 1;
      }
    }
  }

  // ------------------------------------------------------------------ spacing

  predicate IsSkipLineOf(line: Line, url: string) {
    line.CheckSkipped? && line.url == url
  }

  /** Any two skip lines of the target are at least a window apart. */
  ghost predicate Spaced(lines: seq<Line>, url: string, window: int) {
    forall i, j :: 0 <= i < j < |lines| && IsSkipLineOf(lines[i], url) && IsSkipLineOf(lines[j], url) ==>
      lines[j].at - lines[i].at >= window
  }

  /** `last` is the latest skip line's reading, 0 if there is none. */
  ghost predicate LastIsLatest(d: Drained, url: string) {
    var last := StateOf(d.skips, url).last;
    && (forall i :: 0 <= i < |d.lines| && IsSkipLineOf(d.lines[i], url) ==> 0 < d.lines[i].at <= last)
    && (last != 0 ==> exists i :: 0 <= i < |d.lines| && IsSkipLineOf(d.lines[i], url) && d.lines[i].at == last)
  }

  /** The skip printed a line. */
  ghost predicate Printed(d: Drained, r: Result, t: int, interval: int) {
    |OnResult(d, r, t, interval).lines| > |d.lines|
  }

  /** Whatever the clock does: a skip is printed exactly when the target has no
      line yet, or its last one is a window old, or the clock reads earlier than
      then. The window is the target's own interval if it has one. */
  lemma SkipIsPrintedIff(d: Drained, r: Result, t: int, interval: int, window: int)
    requires IsSkipped(r.err) && window == (if r.interval > 0 then r.interval else interval) && window <= MAX_INT64
    ensures var last := StateOf(d.skips, r.url).last;
      Printed(d, r, t, interval) <==> last == 0 || t < last || t - last >= window
  {
  }

  lemma UnrelatedLine(d: Drained, after: Drained, line: Line, url: string, window: int)
    requires Spaced(d.lines, url, window) && LastIsLatest(d, url)
    requires !IsSkipLineOf(line, url) && (after.lines == d.lines || after.lines == d.lines + [line])
    requires StateOf(after.skips, url).last == StateOf(d.skips, url).last
    ensures Spaced(after.lines, url, window) && LastIsLatest(after, url)
  {
    assert forall i :: 0 <= i < |d.lines| ==> after.lines[i] == d.lines[i];
  }

  lemma OwnLine(d: Drained, after: Drained, kind: SkipKind, more: nat, t: int, url: string, window: int)
    requires Spaced(d.lines, url, window) && LastIsLatest(d, url) && 0 < window && 0 < t
    requires after.lines == d.lines + [CheckSkipped(url, kind, more, t)] && StateOf(after.skips, url).last == t
    requires StateOf(d.skips, url).last == 0 || t - StateOf(d.skips, url).last >= window
    ensures Spaced(after.lines, url, window) && LastIsLatest(after, url)
  {
    assert forall i :: 0 <= i < |d.lines| ==> after.lines[i] == d.lines[i];
    assert IsSkipLineOf(after.lines[|d.lines|], url);
  }

  lemma ResultIsSpaced(d: Drained, r: Result, t: int, interval: int, url: string, window: int)
    requires 0 < window <= MAX_INT64 && 0 < t && StateOf(d.skips, url).last <= t
    requires r.url == url ==> window == if r.interval > 0 then r.interval else interval
    requires Spaced(d.lines, url, window) && LastIsLatest(d, url)
    ensures Spaced(OnResult(d, r, t, interval).lines, url, window) && LastIsLatest(OnResult(d, r, t, interval), url)
    ensures StateOf(OnResult(d, r, t, interval).skips, url).last <= t
    ensures IsSkipped(r.err) && r.url == url ==>
      (Printed(d, r, t, interval) <==> StateOf(d.skips, url).last == 0 || t - StateOf(d.skips, url).last >= window)
  {
    var after, st := OnResult(d, r, t, interval), StateOf(d.skips, r.url);
    var kind := if r.err.SkippedQueued? then PriorRunQueued else PriorRunStarted;
    if IsSkipped(r.err) && r.url == url && !Suppresses(st, t, window) {
      OwnLine(d, after, kind, st.suppressed, t, url, window);
    } else {
      var line := if IsSkipped(r.err) && r.url != url then CheckSkipped(r.url, kind, st.suppressed, t) else CheckFailed(r.url);
      UnrelatedLine(d, after, line, url, window);
    }
  }

  /** Under a clock that does not step back, with a fixed window, a target's
      skip lines are at least one window apart; and a skip is printed exactly
      when it comes a window or more after the target's last line. */
  lemma {:induction false} SkipLinesAreSpaced(results: seq<Result>, clock: seq<int>, interval: int, n: nat, url: string, window: int)
    requires n <= |results| == |clock| && 0 < window <= MAX_INT64
    requires forall i :: 0 <= i < |clock| ==> 0 < clock[i]
    requires forall i, j :: 0 <= i < j < |clock| ==> clock[i] <= clock[j]
    requires forall i :: 0 <= i < |results| && results[i].url == url ==>
      window == if results[i].interval > 0 then results[i].interval else interval
    ensures Spaced(DrainFirst(results, clock, interval, n).lines, url, window)
    ensures LastIsLatest(DrainFirst(results, clock, interval, n), url)
    ensures n > 0 ==> StateOf(DrainFirst(results, clock, interval, n).skips, url).last <= clock[n - 1]
    ensures n > 0 && IsSkipped(results[n - 1].err) && results[n - 1].url == url ==>
      var d := DrainFirst(results, clock, interval, n - 1);
      Printed(d, results[n - 1], clock[n - 1], interval) <==>
        StateOf(d.skips, url).last == 0 || clock[n - 1] - StateOf(d.skips, url).last >= window
  {
    if n > 0 {
      SkipLinesAreSpaced(results, clock, interval, n - 1, url, window);
      assert n > 1 ==> clock[n - 2] <= clock[n - 1];
      ResultIsSpaced(DrainFirst(results, clock, interval, n - 1), results[n - 1], clock[n - 1], interval, url, window);
    }
  }
}
