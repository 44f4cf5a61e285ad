/** Conversions between counter ticks and nanoseconds (hal/src/timer.rs). */
module Timer {
  import opened Arithmetic

  const NANOS: nat := 1_000_000_000
  const U64_MAX: nat := 0xffff_ffff_ffff_ffff
  const U128_MAX: nat := 0xffff_ffff_ffff_ffff_ffff_ffff_ffff_ffff

  newtype u64 = n: int | 0 <= n <= U64_MAX
  newtype u128 = n: int | 0 <= n <= U128_MAX

  /** The product of two `u64` values never overflows the 128-bit intermediate. */
  lemma WideProductFits(a: u64, b: u64)
    ensures 0 <= a as int * b as int <= U128_MAX
  {
    MulMono(a as int, U64_MAX, b as int);
    MulMono(b as int, U64_MAX, U64_MAX);
  }

  lemma DivAtMost(x: int, y: int)
    requires 0 <= x && y > 0
    ensures 0 <= x / y <= x
  {
    MulMono(1, y, x / y);
    assert x == x / y * y + x % y;
  }

  function WideMul(a: u64, b: u64): (r: u128)
    ensures r as int == a as int * b as int
  {
    WideProductFits(a, b);
    (a as int * b as int) as u128
  }

  /** The saturating cast from the 128-bit intermediate. */
  function Saturate(x: u128): u64 {
    if x > U64_MAX as u128 then U64_MAX as u64 else x as u64
  }

  function DivCeil(x: u128, d: u128): u128
    requires d > 1
  {
    var q := x / d;
    if x % d > 0 then q + 1 else q
  }

  function TicksToNs(count: u64, frequency: u64): u64
    requires frequency != 0
  {
    Saturate(WideMul(count, NANOS as u64) / frequency as u128)
  }

  function NsToTicks(ns: u64, frequency: u64): u64
    requires frequency != 0
  {
    Saturate(DivCeil(WideMul(ns, frequency), NANOS as u128))
  }

  function ResolutionNs(frequency: u64): u64
    requires frequency != 0
  {
    var sum := NANOS as u64 + frequency / 2;
    DivAtMost(sum as int, frequency as int);
    var raw := sum / frequency;
    if raw == 0 then 1 else raw
  }

  /** Floor division against a bound. */
  lemma FloorAtLeast(x: int, y: int, d: int)
    requires y > 0
    ensures x / y >= d <==> x >= d * y
  {
    if x / y >= d {
      MulMono(d, x / y, y);
    } else {
      MulMono(x / y + 1, d, y);
    }
  }

  /** Ceiling division against a bound. */
  lemma CeilAtMost(x: u128, d: u128, c: int)
    requires d > 1
    ensures DivCeil(x, d) as int <= c <==> x as int <= c * d as int
  {
    var (xi, di) := (x as int, d as int);
    FloorAtLeast(xi, di, c + 1);
    FloorAtLeast(xi, di, c);
    if xi / di == c {
      assert xi == c * di + xi % di;
    }
  }

  /** No tick count reaches the deadline: the comparator saturates. */
  predicate Saturates(deadline: u64, frequency: u64) {
    deadline as int * frequency as int > U64_MAX * NANOS
  }

  lemma NsToTicksAtMost(ns: u64, frequency: u64, c: u64)
    requires frequency != 0 && !Saturates(ns, frequency)
    ensures NsToTicks(ns, frequency) <= c <==> ns as int * frequency as int <= c as int * NANOS
  {
    var x := WideMul(ns, frequency);
    CeilAtMost(x, NANOS as u128, U64_MAX);
    CeilAtMost(x, NANOS as u128, c as int);
  }

  lemma TicksToNsAtLeast(count: u64, frequency: u64, ns: u64)
    requires frequency != 0
    ensures TicksToNs(count, frequency) >= ns <==> ns as int * frequency as int <= count as int * NANOS
  {
    FloorAtLeast(count as int * NANOS, frequency as int, ns as int);
  }

  /** Armed at `NsToTicks(deadline)`, the comparator is reached at exactly the counter values
      where the clock reads `deadline` or later. */
  lemma DeadlineAdjunction(count: u64, deadline: u64, frequency: u64)
    requires frequency != 0 && !Saturates(deadline, frequency)
    ensures count >= NsToTicks(deadline, frequency) <==> TicksToNs(count, frequency) >= deadline
  {
    NsToTicksAtMost(deadline, frequency, count);
    TicksToNsAtLeast(count, frequency, deadline);
  }

  /** Saturation is exactly where the deadline law breaks: the comparator then fires at the last
      tick, before the clock has reached the deadline. */
  lemma DeadlineLawIffUnsaturated(deadline: u64, frequency: u64)
    requires frequency != 0
    ensures !Saturates(deadline, frequency) <==>
            forall count: u64 :: count >= NsToTicks(deadline, frequency) <==> TicksToNs(count, frequency) >= deadline
  {
    if Saturates(deadline, frequency) {
      var last := U64_MAX as u64;
      CeilAtMost(WideMul(deadline, frequency), NANOS as u128, U64_MAX);
      TicksToNsAtLeast(last, frequency, deadline);
      assert NsToTicks(deadline, frequency) == last;
      assert TicksToNs(last, frequency) < deadline;
    } else {
      forall count: u64
        ensures count >= NsToTicks(deadline, frequency) <==> TicksToNs(count, frequency) >= deadline
      {
        DeadlineAdjunction(count, deadline, frequency);
      }
    }
  }

  /** As long as the clock does not saturate, ticks to nanoseconds and back never overshoots, and falls
      short by less than `frequency / 10^9` ticks, hence by nothing up to 1 GHz. */
  lemma TickRoundTrip(count: u64, frequency: u64)
    requires frequency != 0
    requires count as int * NANOS < (U64_MAX + 1) * frequency as int
    ensures NsToTicks(TicksToNs(count, frequency), frequency) <= count
    ensures (count as int - NsToTicks(TicksToNs(count, frequency), frequency) as int) * NANOS < frequency as int
    ensures frequency as int <= NANOS ==> NsToTicks(TicksToNs(count, frequency), frequency) == count
  {
    var ns := TicksToNs(count, frequency);
    var (x, f) := (count as int * NANOS, frequency as int);
    FloorAtLeast(x, f, U64_MAX + 1);
    assert x == ns as int * f + x % f;
    assert !Saturates(ns, frequency) by { MulMono(count as int, U64_MAX, NANOS); }
    NsToTicksAtMost(ns, frequency, count);
    var back := NsToTicks(ns, frequency);
    NsToTicksAtMost(ns, frequency, back);
    assert (count as int - back as int) * NANOS == x - back as int * NANOS;
  }

  /** Without the range condition the round trip still never overshoots. */
  lemma TickRoundTripNeverOvershoots(count: u64, frequency: u64)
    requires frequency != 0
    ensures NsToTicks(TicksToNs(count, frequency), frequency) <= count
  {
    var ns := TicksToNs(count, frequency);
    TicksToNsAtLeast(count, frequency, ns);
    assert !Saturates(ns, frequency) by { MulMono(count as int, U64_MAX, NANOS); }
    NsToTicksAtMost(ns, frequency, count);
  }

  /** The round trip is exact iff the clock reading lies beyond the tick before `count`. */
  lemma RoundTripExactBy(count: u64, frequency: u64)
    requires frequency != 0
    ensures NsToTicks(TicksToNs(count, frequency), frequency) == count <==>
            (count as int - 1) * NANOS < TicksToNs(count, frequency) as int * frequency as int
  {
    var ns := TicksToNs(count, frequency);
    TickRoundTripNeverOvershoots(count, frequency);
    TicksToNsAtLeast(count, frequency, ns);
    assert !Saturates(ns, frequency) by { MulMono(count as int, U64_MAX, NANOS); }
    if count > 0 {
      NsToTicksAtMost(ns, frequency, count - 1);
    }
  }

  /** What the clock reads, in units of `1 / (10^9 * frequency)` seconds. */
  lemma ClockReading(count: u64, frequency: u64)
    requires frequency != 0
    ensures var (x, f) := (count as int * NANOS, frequency as int);
            TicksToNs(count, frequency) as int * f == if x < (U64_MAX + 1) * f then x - x % f else U64_MAX * f
  {
    var (x, f) := (count as int * NANOS, frequency as int);
    FloorAtLeast(x, f, U64_MAX + 1);
    assert x == x / f * f + x % f;
  }

  /** When ticks to nanoseconds and back is exact, for every count and frequency: up to 1 GHz iff the
      previous tick is earlier than the clock's last nanosecond; above, iff the fraction of a nanosecond that the
      clock drops is less than a tick. */
  lemma RoundTripExactIff(count: u64, frequency: u64)
    requires frequency != 0
    ensures NsToTicks(TicksToNs(count, frequency), frequency) == count <==>
            if frequency as int <= NANOS then (count as int - 1) * NANOS < U64_MAX * frequency as int
            else count as int * NANOS % frequency as int < NANOS
  {
    var (x, f) := (count as int * NANOS, frequency as int);
    RoundTripExactBy(count, frequency);
    ClockReading(count, frequency);
    if f > NANOS {
      MulMono(count as int, U64_MAX, NANOS);
      MulMono(NANOS, f, U64_MAX + 1);
    }
  }

  /** Saturation breaks it even where a tick is a whole number of nanoseconds. */
  lemma SaturatedRoundTrip()
    ensures TicksToNs(20_000_000_000, 1) == U64_MAX as u64
    ensures NsToTicks(TicksToNs(20_000_000_000, 1), 1) == 18_446_744_074
  {
    TicksToNsAtLeast(20_000_000_000, 1, U64_MAX as u64);
    NsToTicksAtMost(U64_MAX as u64, 1, 18_446_744_074);
    NsToTicksAtMost(U64_MAX as u64, 1, 18_446_744_073);
  }

  lemma ArmedTick(ns: u64, frequency: u64)
    requires frequency != 0 && !Saturates(ns, frequency)
    ensures var x := ns as int * frequency as int;
            NsToTicks(ns, frequency) as int * NANOS == x + -x % NANOS
  {
    var x := ns as int * frequency as int;
    CeilAtMost(WideMul(ns, frequency), NANOS as u128, U64_MAX);
    assert x == x / NANOS * NANOS + x % NANOS;
  }

  /** When the clock, at the tick armed for a deadline, reads exactly the deadline: iff the comparator does
      not saturate and rounding up to a tick does not carry the clock to the next nanosecond, if it has one. */
  lemma DeadlineRoundTripExactIff(deadline: u64, frequency: u64)
    requires frequency != 0
    ensures TicksToNs(NsToTicks(deadline, frequency), frequency) == deadline <==>
            && !Saturates(deadline, frequency)
            && (deadline as int == U64_MAX || -(deadline as int * frequency as int) % NANOS < frequency as int)
  {
    var ticks := NsToTicks(deadline, frequency);
    if Saturates(deadline, frequency) {
      CeilAtMost(WideMul(deadline, frequency), NANOS as u128, U64_MAX);
      TicksToNsAtLeast(ticks, frequency, deadline);
    } else {
      ArmedTick(deadline, frequency);
      DeadlineAdjunction(ticks, deadline, frequency);
      if deadline as int < U64_MAX {
        TicksToNsAtLeast(ticks, frequency, deadline + 1);
      }
    }
  }

  /** The clock never runs backwards, saturation included; neither does the armed comparator. */
  lemma ConversionsMonotone(a: u64, b: u64, frequency: u64)
    requires frequency != 0 && a <= b
    ensures TicksToNs(a, frequency) <= TicksToNs(b, frequency)
    ensures NsToTicks(a, frequency) <= NsToTicks(b, frequency)
  {
    MulMono(a as int, b as int, NANOS);
    TicksToNsAtLeast(a, frequency, TicksToNs(a, frequency));
    TicksToNsAtLeast(b, frequency, TicksToNs(a, frequency));
    MulMono(a as int, b as int, frequency as int);
    var ticks := DivCeil(WideMul(b, frequency), NANOS as u128) as int;
    CeilAtMost(WideMul(b, frequency), NANOS as u128, ticks);
    CeilAtMost(WideMul(a, frequency), NANOS as u128, ticks);
  }

  /** The resolution is the nearest whole number of nanoseconds to the period, ties rounded up, exactly
      up to 2 GHz; above that it is the floor of 1 ns. */
  lemma ResolutionNearestIff(frequency: u64)
    requires frequency != 0
    ensures ResolutionNs(frequency) >= 1
    ensures var error := ResolutionNs(frequency) as int * frequency as int - NANOS;
            -(frequency as int) < 2 * error <= frequency as int <==> frequency as int <= 2 * NANOS
    ensures frequency as int > 2 * NANOS ==> ResolutionNs(frequency) == 1
  {
    var f := frequency as int;
    var x := NANOS + f / 2;
    assert x == x / f * f + x % f;
    FloorAtLeast(x, f, 1);
  }
}
