/** The RICE score: reach times impact times confidence over effort, rounded to one decimal.
    A score is carried as an integer number of tenths; the stored value is tenths / 10. */
module Rice {
  import opened Wrappers

  /** Floor of `a / b` for a divisor of either sign. */
  function FloorDiv(a: int, b: int): (q: int)
    requires b != 0
    ensures b > 0 ==> b * q <= a < b * q + b
    ensures b < 0 ==> b * q >= a > b * q + b
  {
    if b > 0 then a / b else (-a) / (-b)
  }

  /** JavaScript truthiness of a nullable number: the value is present and not zero. */
  predicate Truthy(v: Option<int>) {
    v.Some? && v.value != 0
  }

  /** `t` tenths is `10 * p / e` rounded to the nearest integer, halves rounded up
      (the rounding `Math.round` performs). */
  predicate NearestTenths(p: int, e: int, t: int)
    requires e != 0
  {
    if e > 0 then 2 * e * t - e <= 20 * p < 2 * e * t + e
    else 2 * e * t + e < 20 * p <= 2 * e * t - e
  }

  /** `computeRiceScore`, in tenths: nothing unless all four inputs are truthy, otherwise
      ten times reach times impact times confidence over effort, rounded. */
  function RiceTenths(reach: Option<int>, impact: Option<int>, confidence: Option<int>,
                      effort: Option<int>): (t: Option<int>)
    ensures t.None? <==> !(Truthy(reach) && Truthy(impact) && Truthy(confidence) && Truthy(effort))
    ensures t.Some? ==>
      NearestTenths(reach.value * impact.value * confidence.value, effort.value, t.value)
  {
    if !(Truthy(reach) && Truthy(impact) && Truthy(confidence) && Truthy(effort)) then None
    else
      var p := reach.value * impact.value * confidence.value;
      var e := effort.value;
      Some(FloorDiv(20 * p + e, 2 * e))
  }

  /** The rounding has one answer: two tenths counts both nearest to `10 * p / e` are equal. */
  lemma NearestTenthsUnique(p: int, e: int, t1: int, t2: int)
    requires e != 0 && NearestTenths(p, e, t1) && NearestTenths(p, e, t2)
    ensures t1 == t2
  {
    MulMonotone(2 * e, t1 + 1, t2);
    MulMonotone(2 * e, t2 + 1, t1);
    assert 2 * e * (t1 + 1) == 2 * e * t1 + 2 * e;
    assert 2 * e * (t2 + 1) == 2 * e * t2 + 2 * e;
  }

  /** Multiplying by a non-negative factor keeps order; by a non-positive one, reverses it. */
  lemma {:induction false} MulMonotone(m: int, x: int, y: int)
    ensures m >= 0 && x <= y ==> m * x <= m * y
    ensures m <= 0 && x <= y ==> m * x >= m * y
    decreases if x <= y then y - x else 0
  {
    if x < y {
      MulMonotone(m, x + 1, y);
      assert m * (x + 1) == m * x + m;
    }
  }

  /** With every input in the validated range 1..10 the score exists and lies between 0.1 and
      1000.0. */
  lemma ValidatedScoreRange(r: int, i: int, c: int, e: int)
    requires 1 <= r <= 10 && 1 <= i <= 10 && 1 <= c <= 10 && 1 <= e <= 10
    ensures var t := RiceTenths(Some(r), Some(i), Some(c), Some(e));
      t.Some? && 1 <= t.value <= 10000
  {
    var p := r * i * c;
    MulMonotone(r, 1, i);
    MulMonotone(i, r, 10);
    MulMonotone(r * i, 1, c);
    MulMonotone(c, r * i, 100);
    assert 1 <= p <= 1000;
    var t := RiceTenths(Some(r), Some(i), Some(c), Some(e)).value;
    MulMonotone(2 * e, t, 0);
    MulMonotone(2 * e, 10001, t);
  }
}
