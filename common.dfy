/** Values shared by the partitioner, the per-task counter and the collector. */
module Common {

  /** The one failure the experiment can raise: `numberOfSimulations / numberOfTask`
      with `numberOfTask == 0` throws before any task is submitted. */
  datatype Error = DivisionByZero

  datatype Result<T> = Ok(value: T) | Err(error: Error)

  /** A Java `double` taken as an exact real, keeping the one non-finite value the
      experiment can produce: `4.0 * 0 / 0` is NaN when a task gets no samples. */
  datatype Approx = NaN | Num(value: real)

  /** `a + b` on doubles: NaN absorbs. */
  function Plus(a: Approx, b: Approx): Approx
  {
    if a.NaN? || b.NaN? then NaN else Num(a.value + b.value)
  }

  /** `a / d` for a positive integer divisor. */
  function Quotient(a: Approx, d: nat): Approx
    requires d > 0
  {
    if a.NaN? then NaN else Num(a.value / d as real)
  }

  /** `4.0 * count / n`: the share of points inside the unit disc, scaled by the
      area of the square [-1, 1]^2. */
  function Ratio(count: nat, n: nat): (r: Approx)
    ensures r.NaN? <==> n == 0
    ensures r.Num? && count <= n ==> 0.0 <= r.value <= 4.0
  {
    if n == 0 then NaN else Num(4.0 * count as real / n as real)
  }

  lemma AddFractions(a: real, b: real, p: real)
    requires p != 0.0
    ensures a / p + b / p == (a + b) / p
  {
  }

  /** Converting a product of naturals to a real commutes with the product. */
  lemma {:induction false} ProductAsReal(a: nat, b: nat)
    ensures (a * b) as real == a as real * b as real
    decreases a
  {
    if a > 0 {
      ProductAsReal(a - 1, b);
      assert a * b == (a - 1) * b + b;
    }
  }

  lemma DivideTwice(a: real, p: real, t: real)
    requires p != 0.0 && t != 0.0
    ensures a / p / t == a / (p * t)
  {
  }

  /** Dividing the ratio over `p` samples by `t` gives the ratio over `p * t`
      samples of the same count. */
  lemma AverageOfRatios(count: nat, p: nat, t: nat)
    requires p > 0 && t > 0
    ensures Quotient(Ratio(count, p), t) == Ratio(count, p * t)
  {
    var x, pr, tr, er := 4.0 * count as real, p as real, t as real, (p * t) as real;
    ProductAsReal(p, t);
    assert er == pr * tr;
    DivideTwice(x, pr, tr);
    assert x / pr / tr == x / er;
  }
}
