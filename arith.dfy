/** Exact integer arithmetic behind the closed forms of the Fractal layouts:
    powers (the source's `std::pow` on integer arguments) and the geometric
    series 1 + a + ... + a^(n-1). */
module Arith {

  /** a^n over unbounded integers. */
  function Pow(a: int, n: nat): (r: int)
    ensures a >= 1 ==> r >= 1
    ensures a >= 2 && n >= 1 ==> r >= a
  {
    if n == 0 then 1 else MulMonotone(a, 1, Pow(a, n - 1)); a * Pow(a, n - 1)
  }

  /** The sum of the first n terms of 1, a, a^2, ... */
  function GeoSeries(a: int, n: nat): (r: int)
    ensures a >= 1 ==> r >= n
  {
    if n == 0 then 0 else GeoSeries(a, n - 1) + Pow(a, n - 1)
  }

  /** Multiplying by a non-negative factor keeps an order. */
  lemma MulMonotone(k: int, x: int, y: int)
    ensures k >= 0 && x <= y ==> k * x <= k * y
  {
    assert k * y - k * x == k * (y - x);
  }

  /** The closed form: (a - 1) * (1 + a + ... + a^(n-1)) == a^n - 1. */
  lemma {:induction false} GeoSeriesClosedForm(a: int, n: nat)
    ensures (a - 1) * GeoSeries(a, n) == Pow(a, n) - 1
  {
    if n > 0 {
      GeoSeriesClosedForm(a, n - 1);
      calc {
        (a - 1) * GeoSeries(a, n);
        (a - 1) * GeoSeries(a, n - 1) + (a - 1) * Pow(a, n - 1);
        Pow(a, n - 1) - 1 + (a - 1) * Pow(a, n - 1);
        a * Pow(a, n - 1) - 1;
      }
    }
  }

  /** One more level multiplies the series by a and adds the new top term 1. */
  lemma {:induction false} GeoSeriesStep(a: int, n: nat)
    ensures GeoSeries(a, n + 1) == a * GeoSeries(a, n) + 1
  {
    if n > 0 {
      GeoSeriesStep(a, n - 1);
      var g, p := GeoSeries(a, n - 1), Pow(a, n - 1);
      assert GeoSeries(a, n) == a * g + 1 && GeoSeries(a, n) == g + p;
      assert Pow(a, n) == a * p;
      Distribute(a, g, p);
    }
  }

  lemma Distribute(a: int, x: int, y: int)
    ensures a * (x + y) == a * x + a * y
  {
  }

  /** The series grows with the number of terms. */
  lemma {:induction false} GeoSeriesMonotone(a: int, m: nat, n: nat)
    requires a >= 1 && m <= n
    ensures GeoSeries(a, m) <= GeoSeries(a, n)
  {
    if m < n {
      GeoSeriesMonotone(a, m, n - 1);
    }
  }

  /** Exact division: (d * q) / d == q for a positive divisor. */
  lemma DivideExact(q: int, d: int)
    requires d > 0
    ensures (d * q) / d == q
  {
    var x := d * q;
    var k := q - x / d;
    assert x == d * (x / d) + x % d;
    assert d * k == x % d;
    if k >= 1 {
      MulMonotone(d, 1, k);
      assert false;
    } else if k <= -1 {
      MulMonotone(d, k, -1);
      assert false;
    }
  }

  /** The integer division in the source's closed form is exact:
      (a^n - 1) / (a - 1) is the geometric series. */
  lemma GeoSeriesQuotient(a: int, n: nat)
    requires a >= 2
    ensures (Pow(a, n) - 1) / (a - 1) == GeoSeries(a, n)
  {
    GeoSeriesClosedForm(a, n);
    DivideExact(GeoSeries(a, n), a - 1);
  }
}
