/**
 * Exact integer counterparts of JavaScript's `Math.round` on a quotient of
 * non-negative integers (round half up), as every percentage of the
 * application is computed.
 */
module Rounding {

  /** `n / d` rounded down, by repeated subtraction. */
  function Quotient(n: nat, d: nat): (q: nat)
    requires d > 0
    ensures q <= n
    decreases n
  {
    if n < d then 0 else 1 + Quotient(n - d, d)
  }

  /** The quotient is the number of whole `d`s in `n`. */
  lemma {:induction false} QuotientBounds(n: nat, d: nat)
    requires d > 0
    ensures d * Quotient(n, d) <= n < d * (Quotient(n, d) + 1)
    decreases n
  {
    if n >= d {
      QuotientBounds(n - d, d);
    }
  }

  /** `Math.round(n / d)` for `n >= 0` and `d > 0`: (2n + d) / 2d rounded down. */
  function RoundHalfUp(n: nat, d: nat): nat
    requires d > 0
  {
    Quotient(2 * n + d, 2 * d)
  }

  /** The rounded value is the integer nearest to n/d, halves rounded up. */
  lemma RoundHalfUpBounds(n: nat, d: nat)
    requires d > 0
    ensures var r := RoundHalfUp(n, d); 2 * d * r <= 2 * n + d < 2 * d * (r + 1)
  {
    QuotientBounds(2 * n + d, 2 * d);
  }

  /**
   * `total > 0 ? Math.round((completed / total) * 100) : 0`: a percentage that
   * is guarded explicitly against a zero denominator, and at most 100 for a part.
   */
  function Percent(completed: nat, total: nat): (r: nat)
    ensures total == 0 ==> r == 0
    ensures completed <= total ==> r <= 100
  {
    if total > 0 then
      var r := RoundHalfUp(100 * completed, total);
      assert completed <= total ==> r <= 100 by {
        if completed <= total {
          RoundHalfUpBounds(100 * completed, total);
          PercentAtMostHundred(completed, total, r);
        }
      }
      r
    else 0
  }

  /** A percentage over a positive total is 100 * completed / total rounded half up. */
  lemma PercentBounds(completed: nat, total: nat)
    requires total > 0
    ensures var r := Percent(completed, total); 2 * total * r <= 200 * completed + total < 2 * total * (r + 1)
  {
    RoundHalfUpBounds(100 * completed, total);
  }

  /** A half-up rounded percentage of a part never exceeds 100. */
  lemma PercentAtMostHundred(completed: nat, total: nat, r: nat)
    requires 0 < total && completed <= total
    requires 2 * total * r <= 200 * completed + total
    ensures r <= 100
  {
    if r > 100 {
      calc {
        2 * total * 101;
      <= { MulMonotone(2 * total, 101, r); }
        2 * total * r;
      <= 200 * completed + total;
      <= 201 * total;
      }
    }
  }

  /** Multiplying by a non-negative factor preserves order. */
  lemma MulMonotone(k: nat, a: int, b: int)
    requires a <= b
    ensures k * a <= k * b
  {
  }

  /** A mean of values in [0, 100], rounded half up, lies in [0, 100] again. */
  lemma {:induction false} RoundedMeanAtMostHundred(sum: nat, count: nat)
    requires count > 0 && sum <= 100 * count
    ensures RoundHalfUp(sum, count) <= 100
  {
    var r := RoundHalfUp(sum, count);
    RoundHalfUpBounds(sum, count);
    if r > 100 {
      MulMonotone(2 * count, 101, r);
    }
  }
}
