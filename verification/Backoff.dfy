/**
 Exponential retry backoff in 64-bit nanoseconds
 (internal/app/queue/task_dispatcher.go).  The jitter product is taken over reals.
 */
module Backoff {

  const TWO_63: int := 0x8000_0000_0000_0000
  const TWO_64: int := 0x1_0000_0000_0000_0000
  const SECOND: int := 1_000_000_000

  predicate Fits(d: int) { -TWO_63 <= d < TWO_63 }

  function Wrap64(x: int): (w: int)
    ensures Fits(w)
  {
    (x + TWO_63) % TWO_64 - TWO_63
  }

  function Pow2(n: nat): (p: int)
    ensures p >= 1
  {
    if n == 0 then 1 else 2 * Pow2(n - 1)
  }

  /** The source's left shift of a signed 64-bit value. */
  function Shl(d: int, n: nat): int { Wrap64(d * Pow2(n)) }

  datatype RetryPolicy = RetryPolicy(maxRetry: int, initialDelay: int, maxDelay: int, jitter: real) {
    predicate Valid() { Fits(initialDelay) && Fits(maxDelay) && jitter <= 1.0 }

    /** The delays that non-positive or inverted settings stand for. */
    function Initial(): int { if initialDelay <= 0 then SECOND else initialDelay }

    function Max(): int { if maxDelay <= 0 || maxDelay < Initial() then Initial() else maxDelay }
  }

  datatype TaskType = CandidateAgentRun | InterviewScoring | BatchRematch | DataRetention

  function DefaultRetryPolicy(t: TaskType): RetryPolicy {
    match t
    case CandidateAgentRun => RetryPolicy(3, 5 * SECOND, 300 * SECOND, 0.2)
    case InterviewScoring => RetryPolicy(3, 5 * SECOND, 300 * SECOND, 0.2)
    case BatchRematch => RetryPolicy(2, 10 * SECOND, 120 * SECOND, 0.2)
    case DataRetention => RetryPolicy(3, 10 * SECOND, 60 * SECOND, 0.2)
  }

  /** The delay before jitter, as the source computes it: a shift that may wrap, then the cap. */
  function Capped(initial: int, max: int, n: nat): int {
    var delay := Shl(initial, n);
    if delay <= 0 || delay > max then max else delay
  }

  function Spread(delay: int, jitter: real): int { (delay as real * jitter).Floor }

  /** rand.Int63n panics when its argument is not positive. */
  datatype Outcome = Delay(ns: int) | Panic

  /** draw stands for the random number; it is reduced into the range that is asked for. */
  function Jittered(delay: int, jitter: real, draw: nat): Outcome {
    if jitter <= 0.0 || Spread(delay, jitter) <= 0 then Delay(delay)
    else
      var spread := Spread(delay, jitter);
      if Wrap64(spread + 1) <= 0 then Panic
      else
        var jittered := Wrap64(delay - spread / 2 + draw % (spread + 1));
        Delay(if jittered < 0 then 0 else jittered)
  }

  method ComputeBackoff(policy: RetryPolicy, n: int, draw: nat) returns (r: Outcome)
    requires policy.Valid()
    ensures r == Jittered(Capped(policy.Initial(), policy.Max(), if n < 0 then 0 else n), policy.jitter, draw)
  {
    hide Wrap64, Shl, Spread;
    var retry: nat := if n < 0 then 0 else n;
    var p := policy;
    if p.initialDelay <= 0 {
      p := p.(initialDelay := SECOND);
    }
    if p.maxDelay <= 0 {
      p := p.(maxDelay := p.initialDelay);
    }
    if p.maxDelay < p.initialDelay {
      p := p.(maxDelay := p.initialDelay);
    }
    var delay := Shl(p.initialDelay, retry);
    if delay <= 0 || delay > p.maxDelay {
      delay := p.maxDelay;
    }
    if p.jitter > 0.0 {
      var spread := Spread(delay, p.jitter);
      if spread > 0 {
        if Wrap64(spread + 1) <= 0 {
          return Panic;
        }
        var offset := draw % (spread + 1);
        delay := Wrap64(delay - spread / 2 + offset);
        delay := if delay < 0 then 0 else delay;
      }
    }
    return Delay(delay);
  }

  // ------------------------------------------------- what the delay ought to be

  function Ideal(initial: int, max: int, n: nat): int {
    if initial * Pow2(n) < max then initial * Pow2(n) else max
  }

  /** The bits of initial that survive a shift by n. */
  function Kept(initial: int, n: nat): int
    requires n <= 64
  {
    initial % Pow2(64 - n)
  }

  /** The shift loses high bits and what is left of it looks like a short delay. */
  predicate WrapsShort(initial: int, max: int, n: nat) {
    && n < 64 && initial >= Pow2(63 - n)
    && 0 < Kept(initial, n) < Pow2(63 - n)
    && Kept(initial, n) * Pow2(n) < max
  }

  lemma {:induction false} Pow2Adds(a: nat, b: nat)
    ensures Pow2(a + b) == Pow2(a) * Pow2(b)
  {
    if a == 0 {
    } else {
      Pow2Adds(a - 1, b);
      MulAssoc(2, Pow2(a - 1), Pow2(b));
    }
  }

  lemma MulAssoc(x: int, y: int, z: int)
    ensures (x * y) * z == x * (y * z)
  {
  }

  lemma Pow2Values()
    ensures Pow2(63) == TWO_63 && Pow2(64) == TWO_64
  {
    assert Pow2(8) == 256;
    Pow2Adds(8, 8);
    Pow2Adds(16, 16);
    Pow2Adds(32, 32);
    assert Pow2(64) == 2 * Pow2(63);
  }

  lemma MulStrict(x: int, y: int, p: int)
    requires x < y && p > 0
    ensures x * p < y * p
  {
  }

  lemma MulWeak(x: int, y: int, p: int)
    requires x <= y && p > 0
    ensures x * p <= y * p
  {
  }

  lemma DivMod(x: int, d: int)
    requires d > 0
    ensures x == (x / d) * d + x % d && 0 <= x % d < d
  {
  }

  lemma Distribute(x: int, y: int, p: int)
    ensures (x + y) * p == x * p + y * p && (x - y) * p == x * p - y * p
  {
  }

  lemma SmallMultiple(k: int, d: int)
    requires d > 0 && -d < k * d < d
    ensures k == 0
  {
    if k >= 1 {
      MulWeak(1, k, d);
    } else if k <= -1 {
      MulWeak(k, -1, d);
    }
  }

  lemma Remainder(x: int, q: int, r: int, d: int)
    requires d > 0 && 0 <= r < d && x == q * d + r
    ensures x % d == r
  {
    DivMod(x, d);
    Distribute(x / d, q, d);
    SmallMultiple(x / d - q, d);
  }

  lemma ScaledRemainder(x: int, p: int, scale: int)
    requires p > 0 && scale > 0 && p * scale > 0
    ensures (x * scale) % (p * scale) == (x % p) * scale
  {
    var q, r := x / p, x % p;
    DivMod(x, p);
    Distribute(q * p, r, scale);
    MulAssoc(q, p, scale);
    MulWeak(0, r, scale);
    MulStrict(r, p, scale);
    Remainder(x * scale, q, r * scale, p * scale);
  }

  /** Modulo 2^64 a shift keeps exactly the low 64 - n bits. */
  lemma ShiftedModulo(initial: int, n: nat)
    requires initial >= 0 && n <= 64
    ensures (initial * Pow2(n)) % TWO_64 == Kept(initial, n) * Pow2(n)
  {
    Pow2Values();
    Pow2Adds(64 - n, n);
    ScaledRemainder(initial, Pow2(64 - n), Pow2(n));
  }

  lemma WrapOfModulo(x: int)
    ensures var m := x % TWO_64; Wrap64(x) == if m < TWO_63 then m else m - TWO_64
  {
    var q, m := x / TWO_64, x % TWO_64;
    if m < TWO_63 {
      Remainder(x + TWO_63, q, m + TWO_63, TWO_64);
    } else {
      Remainder(x + TWO_63, q + 1, m - TWO_63, TWO_64);
    }
  }

  lemma {:induction false} FarShiftIsZero(initial: int, n: nat)
    requires n >= 64
    ensures (initial * Pow2(n)) % TWO_64 == 0
  {
    Pow2Values();
    Pow2Adds(n - 64, 64);
    MulAssoc(initial, Pow2(n - 64), TWO_64);
    Remainder(initial * Pow2(n), initial * Pow2(n - 64), 0, TWO_64);
  }

  lemma HalfRange(initial: int, n: nat)
    requires n < 64
    ensures Pow2(63 - n) * Pow2(n) == TWO_63
    ensures initial < Pow2(63 - n) <==> initial * Pow2(n) < TWO_63
  {
    Pow2Values();
    Pow2Adds(63 - n, n);
    if initial < Pow2(63 - n) {
      MulStrict(initial, Pow2(63 - n), Pow2(n));
    } else {
      MulWeak(Pow2(63 - n), initial, Pow2(n));
    }
  }

  lemma {:induction false} Pow2AtLeast(n: nat, m: nat)
    requires n >= m
    ensures Pow2(n) >= Pow2(m)
  {
    if n == m {
    } else {
      Pow2AtLeast(n - 1, m);
    }
  }

  /** For every policy and retry, the delay is the capped power of two unless the shift wraps short. */
  lemma CappedIsIdealIff(initial: int, max: int, n: nat)
    requires 0 < initial <= max < TWO_63
    ensures Capped(initial, max, n) == Ideal(initial, max, n) <==> !WrapsShort(initial, max, n)
  {
    var x := initial * Pow2(n);
    WrapOfModulo(x);
    if n >= 64 {
      FarShiftIsZero(initial, n);
      Pow2Values();
      Pow2AtLeast(n, 64);
      MulWeak(1, initial, Pow2(n));
    } else {
      HalfRange(initial, n);
      MulWeak(0, initial, Pow2(n));
      if initial < Pow2(63 - n) {
        Remainder(x, 0, x, TWO_64);
      } else {
        ShiftedModulo(initial, n);
        HalfRange(Kept(initial, n), n);
        MulWeak(0, Kept(initial, n), Pow2(n));
        if Kept(initial, n) > 0 {
          MulStrict(0, Kept(initial, n), Pow2(n));
        }
      }
    }
  }

  /** Products alone: k and scale are powers of two, half is what scale takes to 2^63. */
  lemma LongEnough(odd: int, k: int, scale: int, half: int, kept: int, max: int)
    requires odd > 0 && k > 0 && scale > 0 && odd * max < half * scale
    requires odd * k >= half && kept >= k
    ensures kept * scale > max
  {
    MulWeak(half, odd * k, scale);
    MulAssoc(odd, k, scale);
    if k * scale <= max {
      MulWeakLeft(odd, k * scale, max);
    }
    MulWeak(k, kept, scale);
  }

  lemma MulWeakLeft(p: int, x: int, y: int)
    requires x <= y && p > 0
    ensures p * x <= p * y
  {
  }

  /** A wrap is never short when the initial delay is a small multiple of a power of two. */
  lemma NeverWrapsShort(odd: int, k: nat, max: int, n: nat)
    requires odd > 0 && max > 0 && odd * max < TWO_63
    ensures !WrapsShort(odd * Pow2(k), max, n)
  {
    if WrapsShort(odd * Pow2(k), max, n) {
      var kept := Kept(odd * Pow2(k), n);
      KeptMultiple(odd, k, n);
      HalfRange(odd * Pow2(k), n);
      LongEnough(odd, Pow2(k), Pow2(n), Pow2(63 - n), kept, max);
    }
  }

  lemma KeptMultiple(odd: int, k: nat, n: nat)
    requires odd > 0 && n < 64
    ensures var kept := Kept(odd * Pow2(k), n); kept == 0 || kept >= Pow2(k)
  {
    if k >= 64 - n {
      var p := Pow2(64 - n);
      Pow2Adds(k - (64 - n), 64 - n);
      MulAssoc(odd, Pow2(k - (64 - n)), p);
      Remainder(odd * Pow2(k), odd * Pow2(k - (64 - n)), 0, p);
    } else {
      Pow2Adds(64 - n - k, k);
      ScaledRemainder(odd, Pow2(64 - n - k), Pow2(k));
      var r := odd % Pow2(64 - n - k);
      if r > 0 {
        MulWeak(1, r, Pow2(k));
      }
    }
  }

  lemma IdealGrows(initial: int, max: int, n: nat)
    requires initial > 0
    ensures Ideal(initial, max, n) <= Ideal(initial, max, n + 1) <= max
  {
    MulWeakLeft(initial, Pow2(n), Pow2(n + 1));
  }

  /** Under that condition every retry waits min(initial * 2^n, max), and so never less than the one before. */
  lemma BackoffExact(initial: int, odd: int, k: nat, max: int, n: nat)
    requires initial == odd * Pow2(k) && 0 < odd && 0 < initial <= max < TWO_63 && odd * max < TWO_63
    ensures Capped(initial, max, n) == Ideal(initial, max, n)
    ensures Capped(initial, max, n) <= Capped(initial, max, n + 1) <= max
  {
    NeverWrapsShort(odd, k, max, n);
    NeverWrapsShort(odd, k, max, n + 1);
    CappedIsIdealIff(initial, max, n);
    CappedIsIdealIff(initial, max, n + 1);
    IdealGrows(initial, max, n);
  }

  lemma DefaultsExact(t: TaskType, n: nat)
    ensures var p := DefaultRetryPolicy(t); Capped(p.Initial(), p.Max(), n) == Ideal(p.Initial(), p.Max(), n)
  {
    var p := DefaultRetryPolicy(t);
    assert Pow2(9) == 512 && Pow2(10) == 1024;
    assert 5 * SECOND == 9_765_625 * 512 && 10 * SECOND == 9_765_625 * 1024;
    BackoffExact(p.initialDelay, 9_765_625, if p.initialDelay == 5 * SECOND then 9 else 10, p.maxDelay, n);
  }

  /** A policy whose fourth retry waits 8 nanoseconds instead of its maximum. */
  lemma ShortDelayExists()
    ensures Capped(TWO_64 / 8 + 1, TWO_64 / 4, 3) == 8 && Ideal(TWO_64 / 8 + 1, TWO_64 / 4, 3) == TWO_64 / 4
  {
    assert Pow2(3) == 8;
  }

  // --------------------------------------------------------------------- jitter

  ghost predicate WithinSpread(delay: int, jitter: real, r: Outcome) {
    var spread := Spread(delay, jitter);
    r.Delay? && r.ns >= 0 && delay - spread / 2 <= r.ns <= delay - spread / 2 + spread
  }

  /** Whatever is drawn, the jittered delay lies within half the spread, exactly when adding it cannot overflow. */
  lemma JitterWithinSpreadIff(delay: int, jitter: real)
    requires 0 < delay < TWO_63 && 0.0 < jitter <= 1.0
    ensures (forall draw: nat :: WithinSpread(delay, jitter, Jittered(delay, jitter, draw)))
       <==> delay + (Spread(delay, jitter) - Spread(delay, jitter) / 2) < TWO_63
  {
    var spread := Spread(delay, jitter);
    SpreadBounded(delay, jitter);
    if delay + (spread - spread / 2) < TWO_63 {
      forall draw: nat ensures WithinSpread(delay, jitter, Jittered(delay, jitter, draw)) {
        if spread > 0 {
          var x := delay - spread / 2 + draw % (spread + 1);
          assert 0 <= draw % (spread + 1) <= spread;
          Remainder(x, 0, x, TWO_64);
          WrapOfModulo(x);
          Remainder(spread + 1, 0, spread + 1, TWO_64);
          WrapOfModulo(spread + 1);
        }
      }
    } else {
      var x := delay - spread / 2 + spread;
      Remainder(spread, 0, spread, spread + 1);
      Remainder(x, 0, x, TWO_64);
      WrapOfModulo(x);
      assert !WithinSpread(delay, jitter, Jittered(delay, jitter, spread));
    }
  }

  lemma TenthOfSpread(delay: int, jitter: real, ns: int)
    requires 0 < delay && jitter == 0.2 && delay - Spread(delay, jitter) / 2 <= ns
    requires ns <= delay - Spread(delay, jitter) / 2 + Spread(delay, jitter)
    ensures 9 * delay <= 10 * ns <= 11 * delay + 10
  {
    var spread := Spread(delay, jitter);
    assert spread as real <= delay as real * 0.2;
    assert (5 * spread) as real <= delay as real;
  }

  lemma IdealPositive(initial: int, max: int, n: nat)
    requires 0 < initial && 0 < max
    ensures 0 < Ideal(initial, max, n) <= max
  {
    MulWeak(1, initial, Pow2(n));
  }

  /** With a default policy every retry waits within a tenth of min(initial * 2^n, max), whatever is drawn. */
  lemma DefaultsWithinATenth(t: TaskType, n: nat, draw: nat)
    ensures var p := DefaultRetryPolicy(t);
            var ideal, r := Ideal(p.Initial(), p.Max(), n), Jittered(Capped(p.Initial(), p.Max(), n), p.jitter, draw);
            r.Delay? && 0 < ideal <= p.Max() && 9 * ideal <= 10 * r.ns <= 11 * ideal + 10
  {
    var p := DefaultRetryPolicy(t);
    var ideal := Ideal(p.Initial(), p.Max(), n);
    DefaultsExact(t, n);
    IdealPositive(p.Initial(), p.Max(), n);
    assert p.jitter == 0.2 && p.Max() <= 300 * SECOND;
    hide Ideal, Capped, Jittered, Spread;
    SpreadBounded(ideal, p.jitter);
    JitterWithinSpreadIff(ideal, p.jitter);
    var r := Jittered(ideal, p.jitter, draw);
    assert WithinSpread(ideal, p.jitter, r);
    TenthOfSpread(ideal, p.jitter, r.ns);
  }

  lemma SpreadBounded(delay: int, jitter: real)
    requires 0 < delay && 0.0 < jitter <= 1.0
    ensures 0 <= Spread(delay, jitter) <= delay
  {
    assert 0.0 <= delay as real * jitter <= delay as real;
  }

  // ---------------------------------------------------------------- what is drawn

  /** The spread is the whole part of the delay times the jitter. */
  lemma SpreadIs(delay: int, jitter: real)
    ensures Spread(delay, jitter) as real <= delay as real * jitter < Spread(delay, jitter) as real + 1.0
  {
  }

  /** Unless the addition overflows, the draw moves the delay up from half the spread below it. */
  lemma JitteredIs(delay: int, jitter: real, draw: nat)
    requires 0 < delay < TWO_63 && 0.0 < jitter <= 1.0
    requires delay + (Spread(delay, jitter) - Spread(delay, jitter) / 2) < TWO_63
    ensures var spread := Spread(delay, jitter);
            Jittered(delay, jitter, draw) == Delay(delay - spread / 2 + draw % (spread + 1))
  {
    SpreadBounded(delay, jitter);
    var spread := Spread(delay, jitter);
    hide Spread;
    if spread > 0 {
      InRange(draw, spread);
      Unwrapped(delay - spread / 2 + draw % (spread + 1));
      Unwrapped(spread + 1);
    } else {
      assert draw % 1 == 0;
    }
    hide Wrap64;
  }

  lemma InRange(draw: nat, spread: nat)
    ensures 0 <= draw % (spread + 1) <= spread
  {
  }

  lemma Unwrapped(x: int)
    requires Fits(x)
    ensures Wrap64(x) == x
  {
    if x >= 0 {
      Remainder(x, 0, x, TWO_64);
    } else {
      Remainder(x, -1, x + TWO_64, TWO_64);
    }
    WrapOfModulo(x);
  }

  /** Every delay within half the spread is drawn by some number, and without jitter the delay does not move. */
  lemma JitterReachesAll(delay: int, jitter: real, ns: int)
    requires 0 < delay < TWO_63 && jitter <= 1.0
    requires jitter > 0.0 ==> delay + (Spread(delay, jitter) - Spread(delay, jitter) / 2) < TWO_63
    ensures jitter > 0.0 ==>
              ((exists draw: nat :: Jittered(delay, jitter, draw) == Delay(ns))
               <==> var low := delay - Spread(delay, jitter) / 2; low <= ns <= low + Spread(delay, jitter))
    ensures jitter <= 0.0 ==> forall draw: nat :: Jittered(delay, jitter, draw) == Delay(delay)
  {
    if jitter > 0.0 {
      SpreadBounded(delay, jitter);
      var spread := Spread(delay, jitter);
      var low := delay - spread / 2;
      hide Spread;
      forall draw: nat
        ensures Jittered(delay, jitter, draw) == Delay(low + draw % (spread + 1)) && 0 <= draw % (spread + 1) <= spread
      {
        JitteredIs(delay, jitter, draw);
        InRange(draw, spread);
      }
      hide Jittered;
      if low <= ns <= low + spread {
        Remainder(ns - low, 0, ns - low, spread + 1);
        assert Jittered(delay, jitter, ns - low) == Delay(ns);
      }
    }
  }

  // ----------------------------------------------------------------- the settings

  /** Settings that are not positive stand for a second, and for no growth; a ceiling below the start is the start. */
  lemma SettingsStandFor(p: RetryPolicy)
    ensures p.initialDelay > 0 ==> p.Initial() == p.initialDelay
    ensures p.initialDelay <= 0 ==> p.Initial() == 1_000_000_000
    ensures p.maxDelay > 0 && p.maxDelay >= p.Initial() ==> p.Max() == p.maxDelay
    ensures p.maxDelay <= 0 || p.maxDelay < p.Initial() ==> p.Max() == p.Initial()
  {
  }

  /** The first retries of an agent run or a scoring, before jitter: 5, 10, 20, 40, 80, 160 and then 300 seconds. */
  lemma AgentRetriesAfter(t: TaskType, n: nat)
    requires t.CandidateAgentRun? || t.InterviewScoring?
    ensures var p := DefaultRetryPolicy(t);
            && p.maxRetry == 3
            && Capped(p.Initial(), p.Max(), n) ==
               if n == 0 then 5_000_000_000 else if n == 1 then 10_000_000_000 else if n == 2 then 20_000_000_000
               else if n == 3 then 40_000_000_000 else if n == 4 then 80_000_000_000 else if n == 5 then 160_000_000_000
               else 300_000_000_000
  {
    DefaultsExact(t, n);
    FirstPowers(n);
  }

  /** A rematch waits 10, 20, 40, 80 and then 120 seconds; the retention sweep 10, 20, 40 and then 60. */
  lemma OtherRetriesAfter(n: nat)
    ensures var p := DefaultRetryPolicy(BatchRematch);
            && p.maxRetry == 2
            && Capped(p.Initial(), p.Max(), n) ==
               if n == 0 then 10_000_000_000 else if n == 1 then 20_000_000_000 else if n == 2 then 40_000_000_000
               else if n == 3 then 80_000_000_000 else 120_000_000_000
    ensures var p := DefaultRetryPolicy(DataRetention);
            && p.maxRetry == 3
            && Capped(p.Initial(), p.Max(), n) ==
               if n == 0 then 10_000_000_000 else if n == 1 then 20_000_000_000 else if n == 2 then 40_000_000_000
               else 60_000_000_000
  {
    DefaultsExact(BatchRematch, n);
    DefaultsExact(DataRetention, n);
    FirstPowers(n);
  }

  lemma FirstPowers(n: nat)
    ensures n <= 5 ==> Pow2(n) == [1, 2, 4, 8, 16, 32][n]
    ensures n > 5 ==> Pow2(n) >= 64
  {
    if n > 5 {
      Pow2AtLeast(n, 6);
      assert Pow2(6) == 64;
    }
  }
}
