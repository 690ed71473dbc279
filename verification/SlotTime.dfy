/** Slot arithmetic of the scheduler.

    An instant is an unbounded number of nanoseconds since Go's zero time. A
    duration is an int64: `Time.Sub` saturates, and int64 addition and
    multiplication wrap. An interval is a positive int64, a phase lies in
    [0, interval). */
module SlotTime {

  const MAX_INT64: int := 0x7fff_ffff_ffff_ffff
  const MIN_INT64: int := -0x8000_0000_0000_0000
  const TWO_64: int := 0x1_0000_0000_0000_0000

  /** The int64 whose low 64 bits are those of `x`. */
  function Wrap64(x: int): (r: int)
    ensures MIN_INT64 <= r <= MAX_INT64
    ensures exists q: int :: x - r == TWO_64 * q
  {
    var m := x % TWO_64;
    var r := if m > MAX_INT64 then m - TWO_64 else m;
    assert x - r == TWO_64 * (if m > MAX_INT64 then x / TWO_64 + 1 else x / TWO_64);
    r
  }

  /** `t.Sub(u)`: the difference, clamped to int64. */
  function SatSub(t: int, u: int): (d: int)
    ensures MIN_INT64 <= d <= MAX_INT64
    ensures d == t - u <==> MIN_INT64 <= t - u <= MAX_INT64
  {
    if t - u > MAX_INT64 then MAX_INT64 else if t - u < MIN_INT64 then MIN_INT64 else t - u
  }

  /** `t.Truncate(d)`: the last multiple of `d` not after `t`. */
  function Truncate(t: int, d: int): (r: int)
    requires d > 0
    ensures r <= t < r + d
    ensures r % d == 0
  {
    FloorIsMultiple(t, d);
    t - t % d
  }

  lemma FloorIsMultiple(t: int, d: int)
    requires d > 0
    ensures (t - t % d) % d == 0
  {
    assert t - t % d == d * (t / d);
    ModOfMultiple(t / d, d);
  }

  lemma MulIsMonotone(d: int, p: int, q: int)
    requires d >= 0 && p <= q
    ensures d * p <= d * q
  {
  }

  lemma SmallMultipleIsZero(d: int, q: int)
    requires d > 0 && -d < d * q < d
    ensures q == 0
  {
    if q >= 1 {
      MulIsMonotone(d, 1, q);
    } else if q <= -1 {
      MulIsMonotone(d, q, -1);
    }
  }

  lemma ModOfMultiple(q: int, d: int)
    requires d > 0
    ensures (d * q) % d == 0
  {
    assert d * (q - d * q / d) == (d * q) % d;
    SmallMultipleIsZero(d, q - d * q / d);
  }

  /** `x` is one of the wall-clock slots of (interval, phase). */
  predicate OnPhase(x: int, interval: int, phase: int)
    requires interval > 0
  {
    (x - phase) % interval == 0
  }

  /** Moving a slot by whole intervals gives a slot. */
  lemma ShiftKeepsPhase(x: int, k: int, interval: int, phase: int)
    requires interval > 0 && OnPhase(x, interval, phase)
    ensures OnPhase(x + k * interval, interval, phase)
  {
    var q := (x - phase) / interval;
    assert x - phase == interval * q;
    assert x + k * interval - phase == interval * (q + k);
    ModOfMultiple(q + k, interval);
  }

  /** Two slots less than one interval apart are the same slot. */
  lemma SlotsAreSpaced(x: int, y: int, interval: int, phase: int)
    requires interval > 0
    requires OnPhase(x, interval, phase) && OnPhase(y, interval, phase)
    requires -interval < x - y < interval
    ensures x == y
  {
    var p, q := (x - phase) / interval, (y - phase) / interval;
    assert x - phase == interval * p && y - phase == interval * q;
    assert x - y == interval * (p - q);
    SmallMultipleIsZero(interval, p - q);
  }

  /** The first slot of (interval, phase) strictly after `now`. */
  function SlotAfter(now: int, interval: int, phase: int): (next: int)
    requires interval > 0 && 0 <= phase < interval
    ensures now < next <= now + interval
    ensures OnPhase(next, interval, phase)
  {
    var candidate := Truncate(now, interval) + phase;
    ShiftKeepsPhase(candidate, 1, interval, phase);
    if candidate <= now then candidate + interval else candidate
  }

  /** `SlotAfter` is determined by its promise: it is the only slot in
      (now, now + interval]. */
  lemma SlotAfterIsTheOnlyOne(x: int, now: int, interval: int, phase: int)
    requires interval > 0 && 0 <= phase < interval
    requires now < x <= now + interval && OnPhase(x, interval, phase)
    ensures x == SlotAfter(now, interval, phase)
  {
    SlotsAreSpaced(x, SlotAfter(now, interval, phase), interval, phase);
  }

  /** A restart at any instant before a slot leaves the target on that slot. */
  lemma RestartKeepsTheSlot(now: int, later: int, interval: int, phase: int)
    requires interval > 0 && 0 <= phase < interval
    requires now <= later < SlotAfter(now, interval, phase)
    ensures SlotAfter(later, interval, phase) == SlotAfter(now, interval, phase)
  {
    SlotAfterIsTheOnlyOne(SlotAfter(now, interval, phase), later, interval, phase);
  }

  // ---------------------------------------------------------------- advance

  /** The O(1) jump of a processed slot in int64 arithmetic:
      `k := now.Sub(next)/interval + 1`, then `k * interval`. */
  function Jump(next: int, now: int, interval: int): int
    requires 0 < interval <= MAX_INT64 && next <= now
  {
    var k := Wrap64(SatSub(now, next) / interval + 1);
    Wrap64(k * interval)
  }

  /** What the scheduler does to `next` once the slot has been processed. */
  function Advance(next: int, now: int, interval: int, phase: int): (r: int)
    requires 0 < interval <= MAX_INT64 && 0 <= phase < interval && next <= now
    ensures now < r
  {
    var jumped := next + Jump(next, now, interval);
    if jumped <= now then SlotAfter(now, interval, phase) else jumped
  }

  /** The exact, unbounded value of the jump. */
  function ExactJump(next: int, now: int, interval: int): (p: int)
    requires 0 < interval && next <= now
    ensures now - next < p <= now - next + interval
  {
    ExactJumpBounds(now - next, interval);
    ((now - next) / interval + 1) * interval
  }

  lemma WrapIsIdentityInRange(x: int)
    requires MIN_INT64 <= x <= MAX_INT64
    ensures Wrap64(x) == x
  {
  }

  lemma WrapTurnsNegative(x: int)
    requires MAX_INT64 < x <= 2 * MAX_INT64
    ensures Wrap64(x) == x - TWO_64 < 0
  {
  }

  /** The int64 jump is the exact one while that fits an int64, and otherwise
      negative: overflow never looks like progress. */
  lemma JumpIsExactOrNegative(next: int, now: int, interval: int)
    requires 0 < interval <= MAX_INT64 && next <= now
    ensures ExactJump(next, now, interval) <= MAX_INT64 ==> Jump(next, now, interval) == ExactJump(next, now, interval)
    ensures ExactJump(next, now, interval) > MAX_INT64 ==> Jump(next, now, interval) < 0
  {
    var d := SatSub(now, next);
    var k := d / interval + 1;
    ExactJumpBounds(d, interval);
    if now - next > MAX_INT64 {
      ExactJumpBounds(now - next, interval);
    }
    assert k * interval > MAX_INT64 <==> ExactJump(next, now, interval) > MAX_INT64;
    if k > MAX_INT64 {
      assert interval == 1;
      WrapTurnsNegative(k);
    } else {
      WrapIsIdentityInRange(k);
      if k * interval > MAX_INT64 {
        WrapTurnsNegative(k * interval);
      } else {
        WrapIsIdentityInRange(k * interval);
      }
    }
  }

  /** `(d/interval + 1) * interval` is the first multiple above `d`, and its
      factor only exceeds an int64 for a one-nanosecond interval. */
  lemma ExactJumpBounds(d: int, interval: int)
    requires 0 <= d && 0 < interval
    ensures d < (d / interval + 1) * interval <= d + interval
    ensures 1 <= d / interval + 1 <= (d / interval + 1) * interval
    ensures interval > 1 ==> 2 * (d / interval) <= d
  {
    var q := d / interval;
    assert d == interval * q + d % interval;
    assert (q + 1) * interval == interval * q + interval;
    if q < 0 {
      MulIsMonotone(interval, q, -1);
    }
    MulIsMonotone(q + 1, 1, interval);
    if interval > 1 {
      MulIsMonotone(q, 2, interval);
    }
  }

  /** The self-heal branch is taken exactly when the exact jump overflows an
      int64. This covers every saturated difference and the unsaturated ones
      just below it. */
  lemma SelfHealIffJumpOverflows(next: int, now: int, interval: int)
    requires 0 < interval <= MAX_INT64 && next <= now
    ensures next + Jump(next, now, interval) <= now <==> ExactJump(next, now, interval) > MAX_INT64
    ensures now - next > MAX_INT64 ==> next + Jump(next, now, interval) <= now
  {
    JumpIsExactOrNegative(next, now, interval);
  }

  /** The branch does not wait for a saturated difference: here the difference is
      exactly MAX_INT64, and the two-nanosecond jump over it is one too long. */
  lemma SelfHealBelowSaturation()
    ensures SatSub(MAX_INT64, 0) == MAX_INT64 - 0
    ensures ExactJump(0, MAX_INT64, 2) == MAX_INT64 + 1
    ensures 0 + Jump(0, MAX_INT64, 2) <= MAX_INT64
  {
    SelfHealIffJumpOverflows(0, MAX_INT64, 2);
  }

  /** Adding one interval at a time until the slot is in the future: the walk
      the O(1) jump stands for. */
  function StepUntilAfter(next: int, now: int, interval: int): int
    requires 0 < interval
    decreases if next <= now then now - next + 1 else 0
  {
    if next > now then next else StepUntilAfter(next + interval, now, interval)
  }

  lemma {:induction false} StepUntilAfterIsSlotAfter(next: int, now: int, interval: int, phase: int)
    requires 0 < interval && 0 <= phase < interval
    requires OnPhase(next, interval, phase) && next <= now
    ensures StepUntilAfter(next, now, interval) == SlotAfter(now, interval, phase)
    decreases now - next
  {
    ShiftKeepsPhase(next, 1, interval, phase);
    if next + interval <= now {
      StepUntilAfterIsSlotAfter(next + interval, now, interval, phase);
    } else {
      SlotAfterIsTheOnlyOne(next + interval, now, interval, phase);
    }
  }

  /** Main result of this module. Whatever the stall, and through saturation
      and wrap-around, a processed slot moves to the first slot after `now`,
      which is also where single-interval steps would have taken it. */
  lemma AdvanceIsSlotAfter(next: int, now: int, interval: int, phase: int)
    requires 0 < interval <= MAX_INT64 && 0 <= phase < interval
    requires next <= now && OnPhase(next, interval, phase)
    ensures Advance(next, now, interval, phase) == SlotAfter(now, interval, phase)
    ensures Advance(next, now, interval, phase) == StepUntilAfter(next, now, interval)
  {
    JumpIsExactOrNegative(next, now, interval);
    StepUntilAfterIsSlotAfter(next, now, interval, phase);
    if ExactJump(next, now, interval) <= MAX_INT64 {
      ShiftKeepsPhase(next, (now - next) / interval + 1, interval, phase);
      SlotAfterIsTheOnlyOne(next + Jump(next, now, interval), now, interval, phase);
    }
  }

  // ------------------------------------------------------------------ stale

  /** The re-anchor guard: `next.Sub(now) > interval`. */
  predicate IsStale(next: int, now: int, interval: int) {
    SatSub(next, now) > interval
  }

  /** Saturation blinds the guard for the longest representable interval and
      for no other. */
  lemma StaleIsMoreThanOneIntervalAway(next: int, now: int, interval: int)
    requires 0 < interval <= MAX_INT64
    ensures IsStale(next, now, interval) <==> next - now > interval && interval < MAX_INT64
  {
  }
}
