/**
 Go's 64-bit signed arithmetic, and the retry delay that pkg/queue computes with it.
 Durations and instants are counted in nanoseconds.
 */
module GoInt {
  const TWO_63: int := 0x8000_0000_0000_0000
  const TWO_64: int := 0x1_0000_0000_0000_0000
  const SECOND: int := 1_000_000_000

  /** The value an int64 holds after an operation whose exact result is x. */
  function Wrap64(x: int): (r: int)
    ensures -TWO_63 <= r < TWO_63
    ensures exists k: int :: r == x + k * TWO_64
    ensures -TWO_63 <= x < TWO_63 ==> r == x
  {
    var k := -((x + TWO_63) / TWO_64);
    var r := x + k * TWO_64;
    r
  }

  function Pow2(n: nat): (r: nat)
    ensures r >= 1
  {
    if n == 0 then 1 else 2 * Pow2(n - 1)
  }

  /** The delay before the next try of a job that has just failed its attempt number `attempts`. */
  function BackoffNanos(attempts: nat): int {
    var shifted := Wrap64(Pow2(attempts));
    var backoffSec := Wrap64(shifted * 2);
    Wrap64(backoffSec * SECOND)
  }

  lemma {:induction false} Pow2Monotone(a: nat, b: nat)
    requires a <= b
    ensures Pow2(a) <= Pow2(b)
  {
    if a < b {
      Pow2Monotone(a, b - 1);
    }
  }

  lemma Pow2Values()
    ensures Pow2(32) == 0x1_0000_0000
    ensures Pow2(33) == 0x2_0000_0000
    ensures Pow2(34) == 0x4_0000_0000
  {
    assert Pow2(4) == 16;
    assert Pow2(8) == 256;
    assert Pow2(12) == 4096;
    assert Pow2(16) == 0x1_0000;
    assert Pow2(20) == 0x10_0000;
    assert Pow2(24) == 0x100_0000;
    assert Pow2(28) == 0x1000_0000;
    assert Pow2(32) == 0x1_0000_0000;
  }

  /** The int64 product is the intended 2^(attempts+1) seconds exactly up to attempt 32. */
  lemma BackoffExactIff(attempts: nat)
    ensures BackoffNanos(attempts) == Pow2(attempts + 1) * SECOND <==> attempts <= 32
  {
    Pow2Values();
    if attempts <= 32 {
      Pow2Monotone(attempts, 32);
    } else {
      Pow2Monotone(34, attempts + 1);
      assert Pow2(attempts + 1) * SECOND >= Pow2(34) * SECOND > TWO_63;
    }
  }

  /** The first delay that overflows is negative: the job is due before it failed. */
  lemma BackoffOverflows()
    ensures BackoffNanos(33) == -1_266_874_889_709_551_616
  {
    Pow2Values();
  }

  /** Every delay a job with this attempt limit can be given is positive exactly when the limit is at most 33. */
  lemma RetryDelaysPositiveIff(maxAttempts: int)
    ensures (forall a: nat :: 1 <= a < maxAttempts ==> BackoffNanos(a) > 0) <==> maxAttempts <= 33
  {
    BackoffOverflows();
    if maxAttempts <= 33 {
      forall a: nat | 1 <= a < maxAttempts ensures BackoffNanos(a) > 0 {
        BackoffExactIff(a);
      }
    } else {
      assert BackoffNanos(33) < 0;
    }
  }

  /** The delays double from one attempt to the next exactly when the limit is at most 33. */
  lemma RetryDelaysDoubleIff(maxAttempts: int)
    ensures (forall a: nat :: 1 <= a && a + 1 < maxAttempts ==> BackoffNanos(a + 1) == 2 * BackoffNanos(a))
            <==> maxAttempts <= 33
  {
    if maxAttempts <= 33 {
      forall a: nat | 1 <= a && a + 1 < maxAttempts ensures BackoffNanos(a + 1) == 2 * BackoffNanos(a) {
        BackoffExactIff(a);
        BackoffExactIff(a + 1);
      }
    } else {
      BackoffOverflows();
      BackoffExactIff(32);
      assert BackoffNanos(32 + 1) != 2 * BackoffNanos(32);
    }
  }
}
