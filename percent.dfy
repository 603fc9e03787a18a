/**
 * The progress percentage shown by the browser scripts:
 * `total ? Math.round(completed / total * 100) : 0`, computed exactly
 * with round-half-up integer arithmetic.
 */
module Percent {
  /** Zero for an empty career, otherwise 100 * completed / total rounded to the
      nearest integer, halves rounded up. */
  function Percent(completed: nat, total: nat): nat
  {
    if total == 0 then 0 else (200 * completed + total) / (2 * total)
  }

  /** No division by zero: an empty career shows 0 %. */
  lemma PercentOfEmpty(completed: nat)
    ensures Percent(completed, 0) == 0
  {
  }

  /** The percentage is the rounded ratio: the exact value 100 * c / t lies within
      half a point of it, a tie going up. */
  lemma PercentIsRounded(completed: nat, total: nat)
    requires total > 0
    ensures var p := Percent(completed, total);
      2 * total * p <= 200 * completed + total < 2 * total * (p + 1)
  {
    var d := 2 * total;
    var x := 200 * completed + total;
    var p := x / d;
    assert x == d * p + x % d;
  }

  /** Multiplying by a positive factor keeps a strict order. */
  lemma MulCancel(k: nat, a: nat, b: nat)
    requires k > 0 && k * a < k * b
    ensures a < b
  {
  }

  /** A count no larger than the total gives a percentage between 0 and 100. */
  lemma PercentBounded(completed: nat, total: nat)
    requires completed <= total
    ensures 0 <= Percent(completed, total) <= 100
  {
    if total > 0 {
      PercentIsRounded(completed, total);
      var p := Percent(completed, total);
      assert 2 * total * p < 2 * total * 101;
      MulCancel(2 * total, p, 101);
    }
  }

  /** All done is 100 %, nothing done is 0 %. */
  lemma PercentEnds(total: nat)
    requires total > 0
    ensures Percent(total, total) == 100 && Percent(0, total) == 0
  {
    PercentIsRounded(total, total);
    var p := Percent(total, total);
    assert 2 * total * p < 2 * total * 101;
    MulCancel(2 * total, p, 101);
    assert 2 * total * 99 < 2 * total * (p + 1);
    MulCancel(2 * total, 99, p + 1);
  }

  /** More completed steps never lower the percentage. */
  lemma PercentMonotone(c1: nat, c2: nat, total: nat)
    requires c1 <= c2
    ensures Percent(c1, total) <= Percent(c2, total)
  {
    if total > 0 {
      PercentIsRounded(c1, total);
      PercentIsRounded(c2, total);
      var p1, p2 := Percent(c1, total), Percent(c2, total);
      assert 2 * total * p1 < 2 * total * (p2 + 1);
      MulCancel(2 * total, p1, p2 + 1);
    }
  }

  /** One of four steps done shows 25 %. */
  lemma PercentQuarter()
    ensures Percent(1, 4) == 25
  {
  }
}
