/** The delay before a failed migration is retried, with the 64-bit arithmetic of
    the source written out. Durations are nanoseconds. */
module Backoff {
  import opened Common

  const MINUTE := 60_000_000_000
  const CAP := 30 * MINUTE
  const MAX_INT64 := 0x7fff_ffff_ffff_ffff

  /** Two's-complement truncation to 64 bits. */
  function Wrap64(x: int): int {
    (x + 0x8000_0000_0000_0000) % 0x1_0000_0000_0000_0000 - 0x8000_0000_0000_0000
  }

  function Pow(m: int, n: nat): int {
    if n == 0 then 1 else Pow(m, n - 1) * m
  }

  /** The delay the multiply loop yields. */
  function Delay(base: int, multiplier: int, retries: nat): int {
    Min(Wrap64(base * Pow(multiplier, retries)), CAP)
  }

  lemma {:induction false} WrapShift(y: int, j: int)
    ensures Wrap64(y - j * 0x1_0000_0000_0000_0000) == Wrap64(y)
  {
  }

  lemma {:induction false} Distribute(x: int, k: int, c: int, m: int)
    ensures (x - k * c) * m == x * m - (k * m) * c
  {
    calc {
      (x - k * c) * m;
      x * m - (k * c) * m;
      x * m - (k * m) * c;
    }
  }

  lemma {:induction false} WrapMul(x: int, m: int)
    ensures Wrap64(Wrap64(x) * m) == Wrap64(x * m)
  {
    var k := (x + 0x8000_0000_0000_0000) / 0x1_0000_0000_0000_0000;
    assert Wrap64(x) == x - k * 0x1_0000_0000_0000_0000;
    Distribute(x, k, 0x1_0000_0000_0000_0000, m);
    WrapShift(x * m, k * m);
  }

  /** The loop multiplies in 64 bits; what it computes is the truncated exact product. */
  method RetryDelay(base: int, multiplier: int, retries: nat) returns (delay: int)
    requires Wrap64(base) == base
    ensures delay == Delay(base, multiplier, retries)
  {
    delay := base;
    for i := 0 to retries
      invariant delay == Wrap64(base * Pow(multiplier, i))
    {
      WrapMul(base * Pow(multiplier, i), multiplier);
      assert base * Pow(multiplier, i) * multiplier == base * Pow(multiplier, i + 1);
      delay := Wrap64(delay * multiplier);
    }
    if delay > CAP {
      delay := CAP;
    }
  }

  /** The delay the design asks for. */
  function Ideal(base: int, multiplier: int, retries: nat): int {
    Min(base * Pow(multiplier, retries), CAP)
  }

  lemma {:induction false} MulMono(a: int, x: int, y: int)
    requires a >= 0 && 0 <= x <= y
    ensures 0 <= a * x <= a * y
  {
  }

  lemma {:induction false} PowGrows(m: int, i: nat, j: nat)
    requires m >= 1 && i <= j
    ensures 1 <= Pow(m, i) <= Pow(m, j)
    decreases j
  {
    if i < j {
      PowGrows(m, i, j - 1);
      MulMono(Pow(m, j - 1), 1, m);
    } else if i > 0 {
      PowGrows(m, i - 1, i - 1);
      MulMono(Pow(m, i - 1), 1, m);
    }
  }

  lemma {:induction false} ProductGrows(base: int, multiplier: int, i: nat, j: nat)
    requires base >= 0 && multiplier >= 1 && i <= j
    ensures 0 <= base * Pow(multiplier, i) <= base * Pow(multiplier, j)
  {
    PowGrows(multiplier, i, j);
    MulMono(base, Pow(multiplier, i), Pow(multiplier, j));
  }

  /** A product that is not negative is kept exactly when it fits. */
  lemma {:induction false} WrapFits(x: int)
    requires x >= 0
    ensures Wrap64(x) == x <==> x <= MAX_INT64
  {
  }

  /** Exactly when the loop stays inside 64 bits on every iteration. */
  lemma {:induction false} NoOverflowIff(base: int, multiplier: int, retries: nat)
    requires base >= 0 && multiplier >= 1
    ensures (forall i: nat :: i <= retries ==> Wrap64(base * Pow(multiplier, i)) == base * Pow(multiplier, i))
            <==> base * Pow(multiplier, retries) <= MAX_INT64
  {
    forall i: nat | i <= retries
      ensures 0 <= base * Pow(multiplier, i) <= base * Pow(multiplier, retries)
      ensures Wrap64(base * Pow(multiplier, i)) == base * Pow(multiplier, i) <==> base * Pow(multiplier, i) <= MAX_INT64
    {
      ProductGrows(base, multiplier, i, retries);
      WrapFits(base * Pow(multiplier, i));
    }
  }

  /** Exactly when the code waits as long as the design asks for. */
  lemma {:induction false} DelayIdealIff(base: int, multiplier: int, retries: nat)
    requires base >= 0 && multiplier >= 1
    ensures Delay(base, multiplier, retries) == Ideal(base, multiplier, retries)
            <==> base * Pow(multiplier, retries) <= MAX_INT64
                 || Wrap64(base * Pow(multiplier, retries)) >= CAP
  {
    ProductGrows(base, multiplier, retries, retries);
  }

  lemma {:induction false} PowAtMost(m: int, n: nat, k: nat)
    requires 1 <= m <= 5 && n <= k
    ensures 0 <= Pow(m, n) <= Pow(5, k)
  {
    if n > 0 {
      PowAtMost(m, n - 1, k - 1);
      MulMono(Pow(m, n - 1), m, 5);
    } else {
      PowGrows(5, 0, k);
    }
  }

  lemma {:induction false} LargestProduct(base: int, p: int)
    requires 0 <= base <= CAP && 0 <= p <= 1953125
    ensures base * p <= MAX_INT64
  {
    MulMono(base, p, 1953125);
  }

  /** For a base of at most 30 minutes, a multiplier up to 5 and at most 9 earlier
      retries the loop never overflows, the delay is the ideal one, and it never shrinks. */
  lemma {:induction false} DelayWithinLimits(base: int, multiplier: int, retries: nat)
    requires 0 <= base <= CAP && 1 <= multiplier <= 5 && retries <= 9
    ensures forall i: nat :: i <= retries ==> Wrap64(base * Pow(multiplier, i)) == base * Pow(multiplier, i)
    ensures Delay(base, multiplier, retries) == Ideal(base, multiplier, retries)
    ensures retries > 0 ==> Delay(base, multiplier, retries - 1) <= Delay(base, multiplier, retries)
  {
    assert Pow(multiplier, retries) <= 1953125 by {
      PowAtMost(multiplier, retries, 9);
      calc { Pow(5, 9); Pow(5, 6) * 125; 1953125; }
    }
    PowGrows(multiplier, retries, retries);
    LargestProduct(base, Pow(multiplier, retries));
    NoOverflowIff(base, multiplier, retries);
    if retries > 0 {
      ProductGrows(base, multiplier, retries - 1, retries);
    }
  }

  /** A multiplier of 10 on the default 5 minutes leaves 64 bits at the ninth retry, and
      the delay turns negative: the retry is not delayed at all. */
  lemma {:induction false} DefaultBaseOverflowsAtTen()
    ensures 5 * MINUTE * Pow(10, 7) <= MAX_INT64 < 5 * MINUTE * Pow(10, 8)
    ensures Delay(5 * MINUTE, 10, 7) == CAP
    ensures Delay(5 * MINUTE, 10, 8) < 0
  {
    calc { Pow(10, 7); Pow(10, 4) * 1000; 1_0000000; }
    assert Pow(10, 8) == 1_00000000;
  }

  // ---------- The API's own range ----------

  /** The largest retry count, up to the 10 that the API allows, for which no base delay of
      at most 30 minutes overflows. */
  function SafeRetries(multiplier: int): nat {
    if multiplier <= 4 then 10
    else if multiplier == 5 then 9
    else if multiplier == 6 then 8
    else if multiplier <= 9 then 7
    else 6
  }

  lemma {:induction false} PowersAtTheLimit(m: int)
    requires 1 <= m <= 10
    ensures CAP * Pow(m, SafeRetries(m)) <= MAX_INT64
    ensures SafeRetries(m) < 10 ==> MAX_INT64 < CAP * Pow(m, SafeRetries(m) + 1)
  {
    match m {
      case 1 => assert Pow(1, 10) == 1;
      case 2 => assert Pow(2, 10) == 1024;
      case 3 => assert Pow(3, 10) == 59049;
      case 4 => assert Pow(4, 10) == 1048576;
      case 5 => assert Pow(5, 9) == 1953125 && Pow(5, 10) == 9765625;
      case 6 => assert Pow(6, 8) == 1679616 && Pow(6, 9) == 10077696;
      case 7 => assert Pow(7, 7) == 823543 && Pow(7, 8) == 5764801;
      case 8 => assert Pow(8, 7) == 2097152 && Pow(8, 8) == 16777216;
      case 9 => assert Pow(9, 7) == 4782969 && Pow(9, 8) == 43046721;
      case 10 => assert Pow(10, 6) == 1000000 && Pow(10, 7) == 10000000;
    }
  }

  /** For every multiplier and retry count the API accepts: no base delay of at most 30
      minutes overflows if and only if the count is at most SafeRetries. */
  lemma {:induction false} SafeRetriesIff(multiplier: int, retries: nat)
    requires 1 <= multiplier <= 10 && retries <= 10
    ensures (forall base :: 0 <= base <= CAP ==> base * Pow(multiplier, retries) <= MAX_INT64) <==> retries <= SafeRetries(multiplier)
  {
    PowersAtTheLimit(multiplier);
    if retries <= SafeRetries(multiplier) {
      ProductGrows(CAP, multiplier, retries, SafeRetries(multiplier));
      forall base | 0 <= base <= CAP ensures base * Pow(multiplier, retries) <= MAX_INT64 {
        MulMono(Pow(multiplier, retries), base, CAP);
      }
    } else {
      ProductGrows(CAP, multiplier, SafeRetries(multiplier) + 1, retries);
      assert CAP * Pow(multiplier, retries) > MAX_INT64;
    }
  }

  /** The same for the default base delay of 5 minutes. */
  function SafeDefaultRetries(multiplier: int): nat {
    if multiplier <= 5 then 10
    else if multiplier == 6 then 9
    else if multiplier <= 8 then 8
    else 7
  }

  lemma {:induction false} DefaultPowersAtTheLimit(m: int)
    requires 1 <= m <= 10
    ensures 5 * MINUTE * Pow(m, SafeDefaultRetries(m)) <= MAX_INT64
  {
    match m {
      case 1 => assert Pow(1, 10) == 1;
      case 2 => assert Pow(2, 10) == 1024;
      case 3 => assert Pow(3, 10) == 59049;
      case 4 => assert Pow(4, 10) == 1048576;
      case 5 => assert Pow(5, 10) == 9765625;
      case 6 => assert Pow(6, 9) == 10077696;
      case 7 => assert Pow(7, 8) == 5764801;
      case 8 => assert Pow(8, 8) == 16777216;
      case 9 => assert Pow(9, 7) == 4782969;
      case 10 => assert Pow(10, 7) == 10000000;
    }
  }

  /** Past that limit the delay is too short for exactly these counts; for the others the
      product wraps to more than the cap. */
  predicate TooShort(multiplier: int, retries: nat) {
    || (multiplier == 6 && retries == 10)
    || (multiplier == 7 && retries >= 9)
    || (multiplier >= 9 && (retries == 8 || retries == 10))
  }

  lemma {:induction false} WrapsAtSixAndSeven(m: int, retries: nat)
    requires 6 <= m <= 7 && SafeDefaultRetries(m) < retries <= 10
    ensures 5 * MINUTE * Pow(m, retries) > CAP
    ensures Wrap64(5 * MINUTE * Pow(m, retries)) >= CAP <==> !TooShort(m, retries)
  {
    if m == 6 && retries == 10 {
      assert Pow(6, 10) == 60466176;
    } else if m == 7 && retries == 9 {
      assert Pow(7, 9) == 40353607;
    } else if m == 7 && retries == 10 {
      assert Pow(7, 10) == 282475249;
    }
  }

  lemma {:induction false} WrapsAtEight(m: int, retries: nat)
    requires m == 8 && SafeDefaultRetries(m) < retries <= 10
    ensures 5 * MINUTE * Pow(m, retries) > CAP
    ensures Wrap64(5 * MINUTE * Pow(m, retries)) >= CAP <==> !TooShort(m, retries)
  {
    if m == 8 && retries == 9 {
      assert Pow(8, 9) == 134217728;
    } else if m == 8 && retries == 10 {
      assert Pow(8, 10) == 1073741824;
    }
  }

  lemma {:induction false} WrapsAtNine(m: int, retries: nat)
    requires m == 9 && SafeDefaultRetries(m) < retries <= 10
    ensures 5 * MINUTE * Pow(m, retries) > CAP
    ensures Wrap64(5 * MINUTE * Pow(m, retries)) >= CAP <==> !TooShort(m, retries)
  {
    if m == 9 && retries == 8 {
      assert Pow(9, 8) == 43046721;
    } else if m == 9 && retries == 9 {
      assert Pow(9, 9) == 387420489;
    } else if m == 9 && retries == 10 {
      assert Pow(9, 10) == 3486784401;
    }
  }

  lemma {:induction false} WrapsAtTen(m: int, retries: nat)
    requires m == 10 && SafeDefaultRetries(m) < retries <= 10
    ensures 5 * MINUTE * Pow(m, retries) > CAP
    ensures Wrap64(5 * MINUTE * Pow(m, retries)) >= CAP <==> !TooShort(m, retries)
  {
    if m == 10 && retries == 8 {
      assert Pow(10, 8) == 100000000;
    } else if m == 10 && retries == 9 {
      assert Pow(10, 9) == 1000000000;
    } else if m == 10 && retries == 10 {
      assert Pow(10, 10) == 10000000000;
    }
  }

  /** With the default base delay the code waits as long as the design asks for, for exactly
      these multipliers and retry counts of the API's range. */
  lemma {:induction false} DefaultDelayIdealIff(multiplier: int, retries: nat)
    requires 1 <= multiplier <= 10 && retries <= 10
    ensures Delay(5 * MINUTE, multiplier, retries) == Ideal(5 * MINUTE, multiplier, retries) <==> !TooShort(multiplier, retries)
  {
    if retries <= SafeDefaultRetries(multiplier) {
      DefaultPowersAtTheLimit(multiplier);
      ProductGrows(5 * MINUTE, multiplier, retries, SafeDefaultRetries(multiplier));
    } else if multiplier <= 7 {
      WrapsAtSixAndSeven(multiplier, retries);
    } else if multiplier == 8 {
      WrapsAtEight(multiplier, retries);
    } else if multiplier == 9 {
      WrapsAtNine(multiplier, retries);
    } else {
      WrapsAtTen(multiplier, retries);
    }
  }
}
