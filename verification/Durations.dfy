/** Option values, Go's 64-bit integer arithmetic, and the publisher's retry backoff. */
module Options {
  datatype Option<+T> = None | Some(value: T)
}

/** Durations are counted in nanoseconds, as Go's time.Duration does; database times in microseconds. */
module Durations {
  const MAX_INT64: int := 0x7FFF_FFFF_FFFF_FFFF
  const NANOS_PER_SECOND: int := 1_000_000_000
  const MICROS_PER_SECOND: int := 1_000_000

  /** Two's-complement truncation to 64 bits, what Go arithmetic does on overflow. */
  function Wrap64(x: int): (r: int)
    ensures -MAX_INT64 - 1 <= r <= MAX_INT64
    ensures -MAX_INT64 - 1 <= x <= MAX_INT64 ==> r == x
    ensures MAX_INT64 < x <= 2 * MAX_INT64 ==> r < 0
  {
    (x + MAX_INT64 + 1) % (2 * MAX_INT64 + 2) - MAX_INT64 - 1
  }

  function Pow2(n: nat): (r: nat)
    ensures r >= 1
  {
    if n == 0 then 1 else 2 * Pow2(n - 1)
  }

  function Min(a: int, b: int): int {
    if a <= b then a else b
  }

  /** `steps` doublings of `delay`, stopping at the first that exceeds a positive cap. */
  function Backoff(delay: int, cap: int, steps: nat): int
    decreases steps
  {
    if steps == 0 then delay
    else
      var doubled := Wrap64(2 * delay);
      if cap > 0 && doubled > cap then cap else Backoff(doubled, cap, steps - 1)
  }

  /** The backoff loop of a failed publish. */
  method RetryDelay(base: int, cap: int, retryCount: nat) returns (delay: int)
    ensures delay == Backoff(base, cap, retryCount)
  {
    delay := base;
    var i := 0;
    while i < retryCount
      invariant 0 <= i <= retryCount
      invariant Backoff(base, cap, retryCount) == Backoff(delay, cap, retryCount - i)
    {
      delay := Wrap64(delay * 2);
      if cap > 0 && delay > cap {
        delay := cap;
        break;
      }
      i := i + 1;
    }
  }

  /** No doubling the loop performs leaves the 64-bit range: a bound on the configuration alone. */
  ghost predicate DoublingsFit(base: int, cap: int) {
    forall k: nat :: base * Pow2(k) <= cap ==> base * Pow2(k + 1) <= MAX_INT64
  }

  lemma {:induction false} BackoffIsCappedDoubling(delay: int, cap: int, steps: nat)
    requires 0 < delay <= cap <= MAX_INT64 && DoublingsFit(delay, cap)
    ensures Backoff(delay, cap, steps) == Min(delay * Pow2(steps), cap)
    decreases steps
  {
    if steps == 0 {
    } else {
      assert delay * Pow2(0) <= cap;
      assert Pow2(1) == 2;
      if 2 * delay <= cap {
        forall k: nat | 2 * delay * Pow2(k) <= cap ensures 2 * delay * Pow2(k + 1) <= MAX_INT64 {
          DoubledPower(delay, k);
          DoubledPower(delay, k + 1);
        }
        BackoffIsCappedDoubling(2 * delay, cap, steps - 1);
        DoubledPower(delay, steps - 1);
      } else {
        DoubledPower(delay, steps - 1);
        ScaledAtLeast(2 * delay, steps - 1);
      }
    }
  }

  lemma DoubledPower(delay: int, k: nat)
    ensures 2 * delay * Pow2(k) == delay * Pow2(k + 1) == 2 * (delay * Pow2(k))
  {
    TwiceProduct(delay, Pow2(k));
  }

  lemma TwiceProduct(a: int, b: int)
    ensures 2 * a * b == a * (2 * b) == 2 * (a * b)
  {
  }

  lemma ScaledAtLeast(x: int, k: nat)
    requires x >= 0
    ensures x * Pow2(k) >= x
  {
  }

  /** The loop computes min(base * 2^n, cap) for every n exactly when its doublings fit 64 bits. */
  lemma BackoffExact(base: int, cap: int)
    requires 0 < base <= cap <= MAX_INT64
    ensures (forall n: nat :: Backoff(base, cap, n) == Min(base * Pow2(n), cap)) <==> DoublingsFit(base, cap)
  {
    if DoublingsFit(base, cap) {
      forall n: nat ensures Backoff(base, cap, n) == Min(base * Pow2(n), cap) {
        BackoffIsCappedDoubling(base, cap, n);
      }
    } else {
      var k: nat :| base * Pow2(k) <= cap && base * Pow2(k + 1) > MAX_INT64;
      BackoffOverflows(base, cap, k);
      ScaledAtLeast(base, k + 1);
      assert Backoff(base, cap, k + 1) != Min(base * Pow2(k + 1), cap);
    }
  }

  /** The first doubling that does not fit makes the delay negative. */
  lemma {:induction false} BackoffOverflows(delay: int, cap: int, k: nat)
    requires 0 < delay <= cap <= MAX_INT64
    requires delay * Pow2(k) <= cap && delay * Pow2(k + 1) > MAX_INT64
    ensures Backoff(delay, cap, k + 1) < 0
    decreases k
  {
    DoubledPower(delay, k);
    if k == 0 {
      assert Pow2(1) == 2;
      assert Backoff(Wrap64(2 * delay), cap, 0) == Wrap64(2 * delay);
    } else {
      DoubledPower(delay, k - 1);
      ScaledAtLeast(2 * delay, k - 1);
      BackoffOverflows(2 * delay, cap, k - 1);
    }
  }

  /** A cap below 2^62 ns, some 146 years, rules overflow out for every positive base. */
  lemma SmallCapsFit(base: int, cap: int)
    requires 0 < base && cap <= 0x3FFF_FFFF_FFFF_FFFF
    ensures DoublingsFit(base, cap)
  {
  }

  /** The backoff never shrinks as failures accumulate. */
  lemma BackoffMonotone(base: int, cap: int, m: nat, n: nat)
    requires 0 < base <= cap <= MAX_INT64 && DoublingsFit(base, cap) && m <= n
    ensures base <= Backoff(base, cap, m) <= Backoff(base, cap, n) <= cap
  {
    BackoffIsCappedDoubling(base, cap, m);
    BackoffIsCappedDoubling(base, cap, n);
    ScaledAtLeast(base, m);
    ScaledMonotone(base, m, n);
  }

  lemma {:induction false} ScaledMonotone(x: int, m: nat, n: nat)
    requires x >= 0 && m <= n
    ensures x * Pow2(m) <= x * Pow2(n)
    decreases n
  {
    if m == n {
    } else {
      ScaledMonotone(x, m, n - 1);
      DoubledPower(x, n - 1);
    }
  }

  /** A base above the cap survives the first attempt only, exactly when its doubling fits 64 bits. */
  lemma BackoffAboveCap(base: int, cap: int)
    requires 0 < cap < base <= MAX_INT64
    ensures (forall n: nat :: Backoff(base, cap, n) == if n == 0 then base else cap) <==> 2 * base <= MAX_INT64
  {
    if 2 * base <= MAX_INT64 {
      forall n: nat ensures Backoff(base, cap, n) == if n == 0 then base else cap {
      }
    } else {
      assert Backoff(Wrap64(2 * base), cap, 0) == Wrap64(2 * base);
      assert Backoff(base, cap, 1) < 0;
    }
  }

  lemma MultipleScaled(x: int, n: nat)
    requires x % 1000 == 0
    ensures x * Pow2(n) % 1000 == 0
  {
    var k := x / 1000;
    assert x == 1000 * k;
    TimesThousand(k, Pow2(n));
    assert (1000 * (k * Pow2(n))) % 1000 == 0;
  }

  lemma TimesThousand(a: int, b: int)
    ensures 1000 * a * b == 1000 * (a * b)
  {
  }
}
