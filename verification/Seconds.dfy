/**
 Go's Duration.Seconds and "%f": a delay becomes a double, and the double a decimal with six places. What is rounded
 twice and formatted once is still the nearest microsecond, for every delay a publisher is likely to be given.
 */
module Seconds {
  import opened Durations

  const TWO52: nat := 0x10_0000_0000_0000

  /** num / den rounded to the nearest integer, halves to even. */
  function Rounded(num: nat, den: nat): nat
    requires den > 0
  {
    var q, r := num / den, num % den;
    if 2 * r < den || (2 * r == den && q % 2 == 0) then q else q + 1
  }

  /** How often num must be doubled to fill the 53 bits of a mantissa over den. */
  function Scale(num: nat, den: nat): nat
    requires num > 0
    decreases if num >= den * TWO52 then 0 else den * TWO52 - num
  {
    if num >= den * TWO52 then 0 else 1 + Scale(2 * num, den)
  }

  /** How often n must be halved to fit into 53 bits. */
  function Halvings(n: nat): nat {
    if n < 2 * TWO52 then 0 else 1 + Halvings(n / 2)
  }

  /** The number mantissa * 2^up / 2^down. */
  datatype Double = Double(mantissa: nat, up: nat, down: nat)

  /** The fraction of a second, correctly rounded to a double, as a multiple of 2^-down. */
  function Fraction(nanos: nat): (f: Double)
    ensures f.up == 0
  {
    if nanos == 0 then Double(0, 0, 0)
    else
      var down := Scale(nanos, NANOS_PER_SECOND);
      Double(Rounded(nanos * Pow2(down), NANOS_PER_SECOND), 0, down)
  }

  /** Duration.Seconds: the whole seconds plus the fraction, rounded once more. */
  function InSeconds(delay: nat): Double {
    var f := Fraction(delay % NANOS_PER_SECOND);
    var sum := delay / NANOS_PER_SECOND * Pow2(f.down) + f.mantissa;
    var up := Halvings(sum);
    Double(Rounded(sum, Pow2(up)), up, f.down)
  }

  function Numerator(d: Double): nat {
    d.mantissa * Pow2(d.up)
  }

  /** "%f": the double's exact value with six decimals, in microseconds. */
  function Formatted(delay: nat): nat {
    var d := InSeconds(delay);
    Rounded(Numerator(d) * MICROS_PER_SECOND, Pow2(d.down))
  }

  /** By how much the double exceeds the delay, in units of 2^-down nanoseconds. */
  function Excess(delay: nat): int {
    var d := InSeconds(delay);
    Numerator(d) * NANOS_PER_SECOND - delay * Pow2(d.down)
  }

  /* ---------- Rounding ---------- */

  predicate Within(x: int, bound: int) {
    -bound <= x <= bound
  }

  lemma RoundedClose(num: nat, den: nat)
    requires den > 0
    ensures Within(2 * (Rounded(num, den) * den - num), den)
  {
    var q := num / den;
    assert num == q * den + num % den;
    assert (q + 1) * den == q * den + den;
  }

  /** Which side of the middle between c - 1 and c a number must lie on to be rounded to at least c. */
  lemma RoundedUp(num: nat, den: nat, c: int)
    requires den > 0
    ensures Rounded(num, den) >= c <==> 2 * num > (2 * c - 1) * den || (2 * num == (2 * c - 1) * den && c % 2 == 0)
  {
    var q, r := num / den, num % den;
    assert num == q * den + r;
    if q >= c {
      Ordered(c, q, den);
    } else if q == c - 1 {
      assert (2 * c - 1) * den == 2 * (q * den) + den;
    } else {
      Ordered(q + 2, c, den);
      assert (q + 2) * den == q * den + 2 * den;
    }
    assert (2 * c - 1) * den == 2 * (c * den) - den;
  }

  lemma Ordered(a: int, b: int, den: nat)
    requires a <= b
    ensures a * den <= b * den
  {
  }

  /* ---------- Scaling ---------- */

  lemma {:induction false} ScaleFills(num: nat, den: nat)
    requires num > 0
    ensures num * Pow2(Scale(num, den)) >= den * TWO52
    decreases if num >= den * TWO52 then 0 else den * TWO52 - num
  {
    if num >= den * TWO52 {
      assert Pow2(0) == 1;
    } else {
      ScaleFills(2 * num, den);
      DoubledPower(num, Scale(2 * num, den));
    }
  }

  lemma {:induction false} HalvingsFit(n: nat)
    ensures Halvings(n) > 0 ==> TWO52 * Pow2(Halvings(n)) <= n
  {
    if n < 2 * TWO52 {
    } else {
      HalvingsFit(n / 2);
      assert Pow2(0) == 1;
      DoubledPower(TWO52, Halvings(n / 2));
    }
  }

  /** A fraction's mantissa approximates it, and the scale leaves no doubt which one it is. */
  lemma FractionClose(nanos: nat)
    requires 0 < nanos < NANOS_PER_SECOND
    ensures var f := Fraction(nanos);
            && Within(2 * (f.mantissa * NANOS_PER_SECOND - nanos * Pow2(f.down)), NANOS_PER_SECOND)
            && f.mantissa <= Pow2(f.down) && Pow2(f.down) > TWO52
  {
    var f := Fraction(nanos);
    RoundedClose(nanos * Pow2(f.down), NANOS_PER_SECOND);
    ScaleFills(nanos, NANOS_PER_SECOND);
    FractionOfScale(nanos, Pow2(f.down), f.mantissa);
  }

  lemma FractionOfScale(nanos: nat, p: nat, m: nat)
    requires 0 < nanos < NANOS_PER_SECOND && nanos * p >= NANOS_PER_SECOND * TWO52
    requires 2 * (m * NANOS_PER_SECOND - nanos * p) <= NANOS_PER_SECOND
    ensures p > TWO52 && m <= p
  {
    Ordered(nanos, NANOS_PER_SECOND - 1, p);
  }

  /** The sum loses at most half a unit of its last place, and none if it fits. */
  lemma SumClose(sum: nat)
    ensures var up := Halvings(sum);
            var lost := 2 * (Rounded(sum, Pow2(up)) * Pow2(up) - sum);
            if up == 0 then lost == 0 else Within(lost, Pow2(up)) && TWO52 * Pow2(up) <= sum
  {
    var up := Halvings(sum);
    if up == 0 {
      assert Pow2(0) == 1 && Rounded(sum, 1) == sum;
    } else {
      RoundedClose(sum, Pow2(up));
      HalvingsFit(sum);
    }
  }

  lemma ErrorsAdd(delay: nat, sec: nat, nanos: nat, p: nat, m: nat, x: nat)
    requires delay == sec * NANOS_PER_SECOND + nanos
    ensures x * NANOS_PER_SECOND - delay * p
         == (x - (sec * p + m)) * NANOS_PER_SECOND + (m * NANOS_PER_SECOND - nanos * p)
  {
    assert delay * p == sec * p * NANOS_PER_SECOND + nanos * p;
  }

  lemma UpIsSmall(sec: nat, p: nat, m: nat, k: nat, limit: nat, c: nat)
    requires sec < limit && m <= p && TWO52 * k <= sec * p + m && limit * c == TWO52
    ensures c * k <= p
  {
    assert sec * p + m <= (sec + 1) * p;
    Ordered(sec + 1, limit, p);
    assert limit * (c * k) == TWO52 * k;
    assert limit * (c * k) <= limit * p;
    Cancel(c * k, p, limit);
  }

  lemma Cancel(a: int, b: int, n: nat)
    requires n > 0 && n * a <= n * b
    ensures a <= b
  {
    if a > b { Ordered(b + 1, a, n); }
  }

  /** The two rounding errors together. */
  lemma ErrorsBounded(c: nat, k: nat, p: nat, sumError: int, fractionError: int)
    requires Within(2 * sumError, k) && c * k <= p && Within(2 * fractionError, NANOS_PER_SECOND)
    ensures Within(2 * c * (sumError * NANOS_PER_SECOND + fractionError), NANOS_PER_SECOND * (p + c))
  {
    var total, most := sumError * NANOS_PER_SECOND + fractionError, NANOS_PER_SECOND * (k + 1);
    assert -most <= 2 * total <= most;
    Ordered(2 * total, most, c);
    Ordered(-most, 2 * total, c);
    assert most * c == NANOS_PER_SECOND * (c * k + c);
    assert 2 * total * c == 2 * c * total;
    assert -most * c == -(most * c);
  }

  /** The double's error under `limit` seconds: half a unit of the sum's last place and half one of the fraction's. */
  lemma SecondsClose(delay: nat, limit: nat, c: nat)
    requires delay < limit * NANOS_PER_SECOND && limit * c == TWO52
    ensures var p := Pow2(InSeconds(delay).down);
            Excess(delay) == 0 || (p > TWO52 && Within(2 * c * Excess(delay), NANOS_PER_SECOND * (p + c)))
  {
    var sec, nanos := delay / NANOS_PER_SECOND, delay % NANOS_PER_SECOND;
    var f := Fraction(nanos);
    var p, sum := Pow2(f.down), sec * Pow2(f.down) + f.mantissa;
    var up := Halvings(sum);
    SumClose(sum);
    if nanos == 0 {
      WholeSeconds(delay, sec, limit, c);
    } else {
      var x := Rounded(sum, Pow2(up)) * Pow2(up);
      FractionClose(nanos);
      ErrorsAdd(delay, sec, nanos, p, f.mantissa, x);
      if up == 0 {
        ErrorsBounded(c, 0, p, x - sum, f.mantissa * NANOS_PER_SECOND - nanos * p);
      } else {
        UpIsSmall(sec, p, f.mantissa, Pow2(up), limit, c);
        ErrorsBounded(c, Pow2(up), p, x - sum, f.mantissa * NANOS_PER_SECOND - nanos * p);
      }
    }
  }

  lemma WholeSeconds(delay: nat, sec: nat, limit: nat, c: nat)
    requires delay == sec * NANOS_PER_SECOND && sec < limit && limit * c == TWO52
    ensures Excess(delay) == 0
  {
    assert Pow2(0) == 1 && Fraction(0).down == 0;
    assert limit <= TWO52;
    assert InSeconds(delay) == Double(Rounded(sec, 1), 0, 0);
    assert Rounded(sec, 1) == sec;
  }

  /* ---------- Formatting ---------- */

  /** What the error of the double leaves of the microseconds. */
  lemma FormattedClose(delay: nat, bound: nat)
    requires Within(2 * Excess(delay), bound * Pow2(InSeconds(delay).down) - 1)
    ensures Within(2 * (1000 * Formatted(delay) - delay), 999 + bound)
  {
    var d, g := InSeconds(delay), Formatted(delay);
    var x, p := Numerator(d), Pow2(d.down);
    RoundedClose(x * MICROS_PER_SECOND, p);
    assert x * NANOS_PER_SECOND == 1000 * (x * MICROS_PER_SECOND);
    assert Within(2 * (1000 * (g * p) - x * NANOS_PER_SECOND), 1000 * p);
    Scaled(g, delay, p, bound, x * NANOS_PER_SECOND);
  }

  lemma Scaled(g: nat, delay: nat, p: nat, bound: nat, y: int)
    requires p > 0 && Within(2 * (1000 * (g * p) - y), 1000 * p) && Within(2 * (y - delay * p), bound * p - 1)
    ensures Within(2 * (1000 * g - delay), 999 + bound)
  {
    var z := 2 * (1000 * g - delay);
    assert p * z == 2 * (1000 * (g * p) - y) + 2 * (y - delay * p);
    assert p * (1000 + bound) == 1000 * p + bound * p && p * (-1000 - bound) == -(1000 * p + bound * p);
    if z >= 1000 + bound { Ordered(1000 + bound, z, p); }
    if z <= -1000 - bound { Ordered(z, -1000 - bound, p); }
  }

  /** Under 2^23 seconds, some 97 days, the double is off by less than a nanosecond: the pause is the nearest micro. */
  lemma NearestMicro(delay: nat)
    requires delay < 0x80_0000 * NANOS_PER_SECOND
    ensures Within(1000 * Formatted(delay) - delay, 500)
    ensures Within(Excess(delay), Pow2(InSeconds(delay).down) - 1)
  {
    SecondsClose(delay, 0x80_0000, 0x2000_0000);
    SmallExcess(Excess(delay), Pow2(InSeconds(delay).down), 0x2000_0000, 1);
    FormattedClose(delay, 2);
  }

  lemma SmallExcess(x: int, p: nat, c: nat, n: nat)
    requires p > 0 && (c, n) in {(0x2000_0000, 1), (0x10_0000, 499), (0x4_0000, 1999)}
    requires x == 0 || (p > TWO52 && Within(2 * c * x, NANOS_PER_SECOND * (p + c)))
    ensures Within(x, n * p - 1)
  {
  }

  lemma OnlyMultiple(g: nat, q: nat, delay: nat)
    requires delay == 1000 * q && Within(2 * (1000 * g - delay), 1998)
    ensures g == q
  {
  }

  /** Under 2^32 seconds, some 136 years, whole microseconds come out as they went in. */
  lemma WholeMicro(delay: nat)
    requires delay < 0x1_0000_0000 * NANOS_PER_SECOND && delay % 1000 == 0
    ensures 1000 * Formatted(delay) == delay
  {
    SecondsClose(delay, 0x1_0000_0000, 0x10_0000);
    SmallExcess(Excess(delay), Pow2(InSeconds(delay).down), 0x10_0000, 499);
    FormattedClose(delay, 999);
    OnlyMultiple(Formatted(delay), delay / 1000, delay);
  }

  /** No 64-bit delay is off by more than two and a half microseconds. */
  lemma AnyMicro(delay: nat)
    requires delay <= MAX_INT64
    ensures Within(1000 * Formatted(delay) - delay, 2500)
  {
    SecondsClose(delay, 0x4_0000_0000, 0x4_0000);
    SmallExcess(Excess(delay), Pow2(InSeconds(delay).down), 0x4_0000, 1999);
    FormattedClose(delay, 3999);
  }

  /** By how much, in half nanoseconds, a delay lies past the middle below its next whole microsecond. */
  function PastMiddle(delay: nat): int {
    2 * delay - 1000 * (2 * ((delay + 999) / 1000) - 1)
  }

  /** For every delay: the pause covers it if and only if the double does not round below the next microsecond. */
  lemma FormattedCovers(delay: nat)
    ensures var p, c := Pow2(InSeconds(delay).down), (delay + 999) / 1000;
            var lead := 2 * Excess(delay) + PastMiddle(delay) * p;
            1000 * Formatted(delay) >= delay <==> lead > 0 || (lead == 0 && c % 2 == 0)
  {
    var d, c := InSeconds(delay), (delay + 999) / 1000;
    var x, p := Numerator(d), Pow2(d.down);
    RoundedUp(x * MICROS_PER_SECOND, p, c);
    assert x * NANOS_PER_SECOND == 1000 * (x * MICROS_PER_SECOND);
    LeadScaled(delay, x * MICROS_PER_SECOND, p, c);
  }

  lemma LeadScaled(delay: nat, y: int, p: nat, c: int)
    ensures 2 * (1000 * y - delay * p) + (2 * delay - 1000 * (2 * c - 1)) * p == 1000 * (2 * y - (2 * c - 1) * p)
  {
  }

  /* ---------- The stored pause ---------- */

  /** The pause in microseconds: non-positive delays become a second, others go through "%f" of seconds. */
  function RetryGapMicros(delay: int): nat {
    if delay <= 0 then MICROS_PER_SECOND else Formatted(delay)
  }

  /** At half a microsecond the double decides: whether it lies above, or on the spot with an odd number below. */
  predicate TieRoundsUp(delay: nat) {
    Excess(delay) > 0 || (Excess(delay) == 0 && delay / 1000 % 2 == 1)
  }

  /**
   Exactly when the stored pause is as long as the delay, under 2^23 seconds: when no fraction of a microsecond below
   one half was dropped, and a half was not rounded down.
   */
  lemma PauseCoversDelay(delay: int)
    requires 0 < delay < 0x80_0000 * NANOS_PER_SECOND
    ensures 1000 * RetryGapMicros(delay) >= delay <==>
              delay % 1000 == 0 || delay % 1000 > 500 || (delay % 1000 == 500 && TieRoundsUp(delay))
  {
    NearestMicro(delay);
    FormattedCovers(delay);
    LeadDecides(delay, Excess(delay), Pow2(InSeconds(delay).down));
  }

  /** An error of less than a nanosecond matters only at exactly half a microsecond. */
  lemma LeadDecides(delay: nat, x: int, p: nat)
    requires Within(x, p - 1)
    ensures var lead, c := 2 * x + PastMiddle(delay) * p, (delay + 999) / 1000;
            (lead > 0 || (lead == 0 && c % 2 == 0)) <==>
              || delay % 1000 == 0 || delay % 1000 > 500
              || (delay % 1000 == 500 && (x > 0 || (x == 0 && delay / 1000 % 2 == 1)))
  {
    var past := PastMiddle(delay);
    MiddleOf(delay, delay / 1000, delay % 1000);
    if delay % 1000 == 500 {
      assert past * p == 0;
    } else if delay % 1000 == 0 || delay % 1000 > 500 {
      Ordered(2, past, p);
    } else {
      Ordered(past, -2, p);
    }
  }

  lemma MiddleOf(delay: nat, q: nat, rest: nat)
    requires delay == 1000 * q + rest && rest < 1000
    ensures PastMiddle(delay) == if rest == 0 then 1000 else 2 * rest - 1000
    ensures (delay + 999) / 1000 == if rest == 0 then q else q + 1
  {
    var c := if rest == 0 then q else q + 1;
    assert 1000 * c <= delay + 999 < 1000 * (c + 1);
  }

  lemma {:induction false} ScaleIs(num: nat, den: nat, e: nat)
    requires num > 0 && e > 0 && num * Pow2(e - 1) < den * TWO52 <= num * Pow2(e)
    ensures Scale(num, den) == e
    decreases e
  {
    assert Pow2(0) == 1;
    ScaledAtLeast(num, e - 1);
    if e == 1 {
      assert Pow2(1) == 2;
      assert Scale(2 * num, den) == 0;
    } else {
      DoubledPower(num, e - 2);
      DoubledPower(num, e - 1);
      ScaleIs(2 * num, den, e - 1);
    }
  }

  /** The double of a delay under a second, from the scale that fits it. */
  lemma SubSecond(delay: nat, e: nat, m: nat)
    requires 0 < delay < NANOS_PER_SECOND && e > 0 && m == Rounded(delay * Pow2(e), NANOS_PER_SECOND) < 2 * TWO52
    requires delay * Pow2(e - 1) < NANOS_PER_SECOND * TWO52 <= delay * Pow2(e)
    ensures InSeconds(delay) == Double(m, 0, e) && Excess(delay) == m * NANOS_PER_SECOND - delay * Pow2(e)
  {
    ScaleIs(delay, NANOS_PER_SECOND, e);
    assert Fraction(delay) == Double(m, 0, e);
    assert Pow2(0) == 1 && 0 * Pow2(e) == 0 && Rounded(m, 1) == m;
    assert Numerator(Double(m, 0, e)) == m;
  }

  lemma {:induction false} PowersMultiply(a: nat, b: nat)
    ensures Pow2(a + b) == Pow2(a) * Pow2(b)
  {
    if a == 0 {
    } else {
      PowersMultiply(a - 1, b);
      assert 2 * (Pow2(a - 1) * Pow2(b)) == 2 * Pow2(a - 1) * Pow2(b);
    }
  }

  lemma Power71(e: nat)
    requires e == 71
    ensures Pow2(e) == 0x80_0000_0000_0000_0000 == 2 * Pow2(e - 1)
  {
    assert Pow2(8) == 0x100 && Pow2(7) == 0x80;
    PowersMultiply(8, 8);
    PowersMultiply(16, 16);
    PowersMultiply(32, 32);
    PowersMultiply(64, 7);
  }

  /** Halves go either way: the double nearest to 2500 ns lies above it, the one nearest to 3500 ns below. */
  lemma TiesGoEitherWay(up: nat, down: nat)
    requires up == 2500 && down == 3500
    ensures TieRoundsUp(up) && !TieRoundsUp(down)
  {
    var e: nat := 71;
    Power71(e);
    SubSecond(up, e, 5902958103587057);
    SubSecond(down, e, 8264141345021879);
  }

  /** Bases and caps of whole microseconds give delays of whole microseconds, which lose nothing. */
  lemma WholeMicros(base: int, cap: int, n: nat)
    requires 0 < base <= cap < 0x1_0000_0000 * NANOS_PER_SECOND && cap <= MAX_INT64 && DoublingsFit(base, cap)
    requires base % 1000 == 0 && cap % 1000 == 0
    ensures Backoff(base, cap, n) % 1000 == 0 && 1000 * RetryGapMicros(Backoff(base, cap, n)) == Backoff(base, cap, n)
  {
    BackoffIsCappedDoubling(base, cap, n);
    MultipleScaled(base, n);
    ScaledAtLeast(base, n);
    WholeMicro(Backoff(base, cap, n));
  }
}
