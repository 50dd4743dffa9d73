/** The two backoff computations, on 64-bit durations that wrap around. */
module Backoff {

  const TWO63 := 0x8000_0000_0000_0000
  const TWO64 := 0x1_0000_0000_0000_0000

  /** The value of a Go int64 after an operation whose mathematical result is `x`. */
  function Wrap(x: int): int {
    var r := x % TWO64;
    if r >= TWO63 then r - TWO64 else r
  }

  function Pow2(n: nat): nat { if n == 0 then 1 else 2 * Pow2(n - 1) }

  const SECOND := 1_000_000_000

  function Min(a: int, b: int): int { if a <= b then a else b }

  lemma TimesTwo(x: int, y: int)
    ensures 2 * (x * y) == (2 * x) * y
  {
  }

  lemma {:induction false} Pow2Sum(a: nat, b: nat)
    ensures Pow2(a + b) == Pow2(a) * Pow2(b)
  {
    if a > 0 {
      Pow2Sum(a - 1, b);
      assert Pow2(a + b) == 2 * Pow2(a - 1 + b) && Pow2(a) == 2 * Pow2(a - 1);
      hide Pow2;
      TimesTwo(Pow2(a - 1), Pow2(b));
    }
  }

  lemma {:induction false} Pow2Grows(a: nat, b: nat)
    requires a <= b
    ensures 1 <= Pow2(a) <= Pow2(b)
  {
    if a < b { Pow2Grows(a, b - 1); } else if a > 0 { Pow2Grows(a - 1, a - 1); }
  }

  lemma WrapSmall(x: int)
    requires -TWO63 <= x < TWO63
    ensures Wrap(x) == x
  {
  }

  // ---------------------------------------------------------------- ComputeBackoff

  /** Go's `d << n`: everything is shifted out from 64 on. */
  function ShiftLeft(d: int, n: nat): int { if n >= 64 then 0 else Wrap(d * Pow2(n)) }

  function ComputeBackoff(attempt: nat): int {
    var d := ShiftLeft(SECOND, attempt);
    if d <= 0 || d > 30 * SECOND then 30 * SECOND else d
  }

  const TWO43 := 0x800_0000_0000

  lemma Pow2Constants()
    ensures Pow2(5) == 32 && Pow2(9) == 512 && Pow2(33) == 0x2_0000_0000 && Pow2(43) == TWO43 && Pow2(21) == 0x20_0000
  {
    Pow2Sum(5, 4);
    Pow2Sum(9, 12);
    Pow2Sum(21, 12);
    Pow2Sum(33, 10);
    assert Pow2(4) == 16 && Pow2(10) == 1024 && Pow2(12) == 4096;
  }

  lemma WrapOfMultiple(k: int)
    ensures exists j: int :: Wrap(k * TWO43) == j * TWO43
  {
    var r := (k * TWO43) % TWO64;
    var q := (k * TWO43) / TWO64;
    assert TWO64 == 0x20_0000 * TWO43;
    assert r == (k - q * 0x20_0000) * TWO43;
    assert r - TWO64 == (k - q * 0x20_0000 - 0x20_0000) * TWO43;
  }

  lemma {:induction false} MiddleShift(n: nat)
    requires 5 <= n <= 33
    ensures 30 * SECOND < ShiftLeft(SECOND, n) && Pow2(n) >= 32
  {
    Pow2Constants();
    Pow2Grows(5, n);
    Pow2Grows(n, 33);
    WrapSmall(SECOND * Pow2(n));
  }

  lemma LateShift(n: nat)
    requires 34 <= n < 64
    ensures exists j: int :: ShiftLeft(SECOND, n) == j * TWO43
  {
    Pow2Constants();
    var rest := Pow2(n - 34);
    Pow2Sum(9, n);
    Pow2Sum(43, n - 34);
    assert 9 + n == 43 + (n - 34);
    assert 512 * Pow2(n) == TWO43 * rest;
    assert SECOND == 1_953_125 * 512;
    assert SECOND * Pow2(n) == (1_953_125 * rest) * TWO43 by {
      assert SECOND * Pow2(n) == 1_953_125 * (512 * Pow2(n));
    }
    WrapOfMultiple(1_953_125 * rest);
  }

  lemma VeryLateShift(n: nat)
    requires n >= 64
    ensures ShiftLeft(SECOND, n) == 0
  {
  }

  /** A wrapped shift is a multiple of 2^43 nanoseconds, so it can never pass for a short delay:
      the result is min(2^n, 30) seconds for every attempt. */
  lemma {:induction false} ComputeBackoffExact(attempt: nat)
    ensures ComputeBackoff(attempt) == Min(Pow2(attempt), 30) * SECOND
  {
    if attempt < 5 {
      assert Pow2(0) == 1 && Pow2(1) == 2 && Pow2(2) == 4 && Pow2(3) == 8 && Pow2(4) == 16;
    } else {
      Pow2Constants();
      Pow2Grows(5, attempt);
      hide Pow2, ShiftLeft;
      if attempt <= 33 {
        MiddleShift(attempt);
      } else if attempt < 64 {
        LateShift(attempt);
        var j: int :| ShiftLeft(SECOND, attempt) == j * TWO43;
        assert j > 0 ==> j * TWO43 >= TWO43;
      } else {
        VeryLateShift(attempt);
      }
    }
  }

  // ---------------------------------------------------------------- NextBackoff

  datatype RestartPolicy = RestartPolicy(backoffBase: int, backoffMax: int)

  predicate Int64(x: int) { -TWO63 <= x < TWO63 }

  /** `n` rounds of the doubling loop. */
  function Doubled(p: RestartPolicy, n: nat): int {
    if n == 0 then p.backoffBase
    else
      var d := Doubled(p, n - 1);
      if d < p.backoffMax then Wrap(2 * d) else d
  }

  lemma {:induction false} DoubledStays(p: RestartPolicy, i: nat, n: nat)
    requires i <= n && (i == n || Doubled(p, i) >= p.backoffMax)
    ensures Doubled(p, n) == Doubled(p, i)
  {
    if i < n { DoubledStays(p, i, n - 1); }
  }

  /** What the wait would be with unbounded integers and no maximum. */
  function Ideal(p: RestartPolicy, n: nat): int { p.backoffBase * Pow2(n) }

  /** No doubling the loop performs leaves the 64-bit range. */
  ghost predicate NeverOverflows(p: RestartPolicy) {
    forall i: nat :: Ideal(p, i) < p.backoffMax ==> 2 * Ideal(p, i) < TWO63
  }

  lemma SmallMaximumIsEnough(p: RestartPolicy)
    requires p.backoffMax <= TWO63 / 2
    ensures NeverOverflows(p)
  {
    hide Ideal;
  }

  lemma IdealDoubles(p: RestartPolicy, n: nat)
    ensures Ideal(p, n + 1) == 2 * Ideal(p, n) && Ideal(p, 0) == p.backoffBase
    ensures p.backoffBase >= 0 ==> Ideal(p, n) >= 0
  {
    Pow2Grows(0, n);
  }

  lemma {:induction false} IdealGrows(p: RestartPolicy, m: nat, n: nat)
    requires p.backoffBase >= 0 && m <= n
    ensures Ideal(p, m) <= Ideal(p, n)
  {
    hide Ideal;
    if m < n {
      IdealGrows(p, m, n - 1);
      IdealDoubles(p, n - 1);
    }
  }

  /** As long as the ideal wait is below the maximum and nothing overflowed on the way, the loop
      has it exactly. */
  lemma {:induction false} LoopIsIdeal(p: RestartPolicy, n: nat)
    requires 0 <= p.backoffBase < TWO63 && Int64(p.backoffMax)
    requires n == 0 || Ideal(p, n - 1) < p.backoffMax
    requires Ideal(p, n) < TWO63
    ensures Doubled(p, n) == Ideal(p, n)
  {
    IdealDoubles(p, 0);
    if n > 0 {
      IdealDoubles(p, n - 1);
      IdealGrows(p, if n > 1 then n - 2 else 0, n - 1);
      hide Ideal;
      LoopIsIdeal(p, n - 1);
      WrapSmall(2 * Ideal(p, n - 1));
    }
  }

  /** Without overflow the loop computes min(base * 2^n, max). */
  lemma {:induction false} NextBackoffExact(p: RestartPolicy, n: nat)
    requires 0 <= p.backoffBase < TWO63 && Int64(p.backoffMax) && NeverOverflows(p)
    ensures Min(Doubled(p, n), p.backoffMax) == Min(Ideal(p, n), p.backoffMax)
  {
    IdealDoubles(p, 0);
    if n > 0 {
      NextBackoffExact(p, n - 1);
      IdealDoubles(p, n - 1);
      if n > 1 { IdealGrows(p, n - 2, n - 1); }
      hide Ideal;
      if Ideal(p, n - 1) < p.backoffMax {
        LoopIsIdeal(p, n);
      }
    }
  }

  method NextBackoff(p: RestartPolicy, attempt: int) returns (r: int)
    requires Int64(p.backoffBase) && Int64(p.backoffMax)
    ensures r == Min(Doubled(p, if attempt < 0 then 0 else attempt), p.backoffMax)
    ensures 0 <= p.backoffBase && 0 <= p.backoffMax <= TWO63 / 2 ==>
              r == Min(Ideal(p, if attempt < 0 then 0 else attempt), p.backoffMax)
  {
    var n: nat := if attempt < 0 then 0 else attempt;
    var d, i := p.backoffBase, 0;
    while i < n && d < p.backoffMax
      invariant 0 <= i <= n && d == Doubled(p, i)
    {
      d := Wrap(2 * d);
      i := i + 1;
    }
    DoubledStays(p, i, n);
    r := if d > p.backoffMax then p.backoffMax else d;
    if 0 <= p.backoffBase && 0 <= p.backoffMax <= TWO63 / 2 {
      SmallMaximumIsEnough(p);
      NextBackoffExact(p, n);
    }
  }

  lemma OverflowIsWrong(p: RestartPolicy, i: nat)
    requires 0 <= p.backoffBase < TWO63 && Int64(p.backoffMax)
    requires Ideal(p, i) < p.backoffMax && 2 * Ideal(p, i) >= TWO63
    ensures Min(Doubled(p, i + 1), p.backoffMax) < 0 < Min(Ideal(p, i + 1), p.backoffMax)
  {
    if i > 0 { IdealGrows(p, i - 1, i); }
    IdealDoubles(p, i);
    hide Ideal;
    LoopIsIdeal(p, i);
  }

  /** Exactness, both ways: the result is min(base * 2^n, max) for every attempt if and only if no
      doubling overflows. */
  lemma {:induction false} ExactIffNeverOverflows(p: RestartPolicy)
    requires 0 <= p.backoffBase < TWO63 && Int64(p.backoffMax)
    ensures NeverOverflows(p) <==>
              forall n: nat :: Min(Doubled(p, n), p.backoffMax) == Min(Ideal(p, n), p.backoffMax)
  {
    hide Ideal;
    if NeverOverflows(p) {
      forall n: nat { NextBackoffExact(p, n); }
    } else {
      var i: nat :| Ideal(p, i) < p.backoffMax && 2 * Ideal(p, i) >= TWO63;
      OverflowIsWrong(p, i);
    }
  }

  /** Later attempts never wait less. */
  lemma {:induction false} BackoffIsMonotone(p: RestartPolicy, m: nat, n: nat)
    requires 0 <= p.backoffBase < TWO63 && 0 <= p.backoffMax <= TWO63 / 2 && m <= n
    ensures Min(Doubled(p, m), p.backoffMax) <= Min(Doubled(p, n), p.backoffMax)
  {
    hide Ideal;
    SmallMaximumIsEnough(p);
    NextBackoffExact(p, m);
    NextBackoffExact(p, n);
    IdealGrows(p, m, n);
  }
}
