/** Shared numerical vocabulary of the two core procedures: the failures they can
    raise, the elementary functions they call, and numpy's `linspace`. */
module Numerics {

  /** The exceptions the core can raise. */
  datatype Error =
    | InvalidDesignation   // the designation is not four decimal digits
    | NegativeSampleCount  // `np.linspace` rejects a negative number of samples
    | ZeroDivision         // `m / p**2` with `p == 0`

  datatype Result<T> = Ok(value: T) | Err(error: Error)

  /** The transcendental functions and constants the source takes from numpy.
      They are left uninterpreted: a proof may use only the facts `Lawful` grants. */
  datatype Elementary = Elementary(
    sqrt: real -> real,
    atan: real -> real,
    sin: real -> real,
    cos: real -> real,
    pi: real,
    radians: real -> real)

  /** The facts about the elementary functions that the properties rely on. */
  ghost predicate Lawful(e: Elementary)
  {
    && e.sqrt(0.0) == 0.0
    && (forall a :: 0.0 <= a ==> 0.0 <= e.sqrt(a) && e.sqrt(a) * e.sqrt(a) == a)
    && e.atan(0.0) == 0.0
    && e.sin(0.0) == 0.0
    && e.cos(0.0) == 1.0
    && (forall a :: e.sin(a) * e.sin(a) + e.cos(a) * e.cos(a) == 1.0)
    && 0.0 < e.pi
  }

  lemma SqrtOne(e: Elementary)
    requires Lawful(e)
    ensures e.sqrt(1.0) == 1.0
  {
    var s := e.sqrt(1.0);
    assert 0.0 <= s && s * s == 1.0;
    assert s <= 1.0;
    assert s * s <= s;
  }

  /** On the unit interval the square root stays in the unit interval. */
  lemma SqrtUnit(e: Elementary, a: real)
    requires Lawful(e) && 0.0 <= a <= 1.0
    ensures 0.0 <= e.sqrt(a) <= 1.0 && e.sqrt(a) * e.sqrt(a) == a
  {
    var s := e.sqrt(a);
    assert 0.0 <= s && s * s == a;
  }

  /** `np.linspace(lo, hi, n)`: `n` evenly spaced samples from `lo` to `hi`, both
      ends included; a single sample is `lo`, and a negative count is rejected. */
  function Linspace(lo: real, hi: real, n: int): (r: Result<seq<real>>)
    ensures r.Err? <==> n < 0
    ensures r.Err? ==> r.error == NegativeSampleCount
    ensures r.Ok? ==> |r.value| == n
    ensures r.Ok? && 1 <= n ==> r.value[0] == lo
    ensures r.Ok? && 2 <= n ==> r.value[n - 1] == hi
    ensures r.Ok? && 2 <= n ==>
      forall i :: 0 <= i < n - 1 ==> r.value[i + 1] - r.value[i] == (hi - lo) / (n - 1) as real
  {
    if n < 0 then Err(NegativeSampleCount)
    else if n == 1 then Ok([lo])
    else Ok(Samples(lo, (hi - lo) / (n - 1) as real, n))
  }

  /** `n` samples `step` apart, starting at `lo`. */
  function Samples(lo: real, step: real, n: nat): seq<real>
  {
    seq(n, i requires 0 <= i < n => lo + (i as real) * step)
  }

  /** The samples of an increasing range are strictly increasing and stay inside it. */
  lemma LinspaceIncreasing(lo: real, hi: real, n: int)
    requires lo < hi && 0 <= n
    ensures forall i :: 0 <= i < n ==> lo <= Linspace(lo, hi, n).value[i] <= hi
    ensures forall i, j :: 0 <= i < j < n ==> Linspace(lo, hi, n).value[i] < Linspace(lo, hi, n).value[j]
  {
    if 2 <= n {
      var step := (hi - lo) / (n - 1) as real;
      assert Linspace(lo, hi, n).value == Samples(lo, step, n);
      SamplesWithin(lo, hi, step, n);
      SamplesIncreasing(lo, hi, step, n);
    }
  }

  /** Sample `i` of an `n`-point range with `n >= 2` is `lo + (hi - lo) * i / (n - 1)`. */
  lemma LinspaceAt(lo: real, hi: real, n: int, i: int)
    requires 2 <= n && 0 <= i < n
    ensures Linspace(lo, hi, n).value[i] == lo + (hi - lo) * (i as real) / (n - 1) as real
  {
    var step := (hi - lo) / (n - 1) as real;
    assert Linspace(lo, hi, n).value == Samples(lo, step, n);
    SamplesAt(lo, hi, step, n, i);
  }

  // The three lemmas below reason about `Samples` alone, away from the
  // postconditions of `Linspace`, which distract the solver's arithmetic.

  lemma SamplesAt(lo: real, hi: real, step: real, n: int, i: int)
    requires 2 <= n && 0 <= i < n && step == (hi - lo) / (n - 1) as real
    ensures Samples(lo, step, n)[i] == lo + (hi - lo) * (i as real) / (n - 1) as real
  {
    StepAt(lo, hi, i as real, (n - 1) as real);
  }

  lemma SamplesWithin(lo: real, hi: real, step: real, n: int)
    requires lo < hi && 2 <= n && step == (hi - lo) / (n - 1) as real
    ensures forall i :: 0 <= i < n ==> lo <= Samples(lo, step, n)[i] <= hi
  {
    forall i | 0 <= i < n
      ensures lo <= Samples(lo, step, n)[i] <= hi
    {
      StepWithin(lo, hi, i as real, (n - 1) as real);
    }
  }

  lemma SamplesIncreasing(lo: real, hi: real, step: real, n: int)
    requires lo < hi && 2 <= n && step == (hi - lo) / (n - 1) as real
    ensures forall i, j :: 0 <= i < j < n ==> Samples(lo, step, n)[i] < Samples(lo, step, n)[j]
  {
    StepPositive(lo, hi, (n - 1) as real);
    forall i, j | 0 <= i < j < n
      ensures Samples(lo, step, n)[i] < Samples(lo, step, n)[j]
    {
      StepIncreasing(lo, step, i as real, j as real);
    }
  }

  /** The step `(hi - lo) / b` of an increasing range is positive, and `b` of
      them span the range. */
  lemma StepPositive(lo: real, hi: real, b: real)
    requires lo < hi && 0.0 < b
    ensures 0.0 < (hi - lo) / b && ((hi - lo) / b) * b == hi - lo
  {
    var step := (hi - lo) / b;
    assert step * b == hi - lo;
  }

  /** `a` steps of `b` lie inside the range when `0 <= a <= b`. */
  lemma StepWithin(lo: real, hi: real, a: real, b: real)
    requires lo < hi && 0.0 <= a <= b && 0.0 < b
    ensures lo <= lo + a * ((hi - lo) / b) <= hi
  {
    var step := (hi - lo) / b;
    StepPositive(lo, hi, b);
    ScaleBetween(step, a, b);
  }

  /** More steps reach further. */
  lemma StepIncreasing(lo: real, step: real, a: real, c: real)
    requires 0.0 < step && a < c
    ensures lo + a * step < lo + c * step
  {
    ProductPositive(c - a, step);
    assert (c - a) * step == c * step - a * step;
  }

  /** `a` steps of `(hi - lo) / b` are `(hi - lo) a / b`. */
  lemma StepAt(lo: real, hi: real, a: real, b: real)
    requires 0.0 < b
    ensures lo + a * ((hi - lo) / b) == lo + (hi - lo) * a / b
  {
    var step := (hi - lo) / b;
    var r := (hi - lo) * a / b;
    assert step * b == hi - lo;
    assert r * b == (hi - lo) * a;
    assert (a * step) * b == a * (hi - lo);
  }

  // ------------------------------------------------ arithmetic on the reals

  /** `0 <= k * w <= k * c` when `k` is nonnegative and `w` lies in `[0, c]`. */
  lemma ScaleBetween(k: real, w: real, c: real)
    requires 0.0 <= k && 0.0 <= w <= c
    ensures 0.0 <= k * w <= k * c
  {
  }

  /** `a**2`. */
  function Sq(a: real): real
  {
    a * a
  }

  /** The identity, used to name the second factor of a square apart from the
      first so that the product is reasoned about as a product of positives. */
  function Same(a: real): real
  {
    a
  }

  lemma ProductPositive(a: real, b: real)
    requires 0.0 < a && 0.0 < b
    ensures 0.0 < a * b
  {
  }

  /** The square of a nonzero number is positive. */
  lemma SquarePositive(a: real)
    requires a != 0.0
    ensures 0.0 < Sq(a)
  {
    if 0.0 < a {
      ProductPositive(a, Same(a));
      assert a * Same(a) == Sq(a);
    } else {
      ProductPositive(-a, Same(-a));
      assert (-a) * Same(-a) == Sq(a);
    }
  }

  lemma SquareNonNegative(a: real)
    ensures 0.0 <= Sq(a)
  {
    if a != 0.0 {
      SquarePositive(a);
    }
  }

  /** The component of `(p, q)` along a unit vector `(c, s)` is no longer than
      `(p, q)`: Lagrange's identity `a^2 + (c q - s p)^2 = (c^2 + s^2)(p^2 + q^2)`. */
  lemma Projection(c: real, s: real, p: real, q: real, a: real)
    requires Sq(c) + Sq(s) == 1.0 && a == c * p + s * q
    ensures Sq(a) <= Sq(p) + Sq(q)
  {
    var r := c * q - s * p;
    assert Sq(a) + Sq(r) == (Sq(c) + Sq(s)) * (Sq(p) + Sq(q));
    SquareNonNegative(r);
  }

  /** Dividing one factor of a product is dividing the product. */
  lemma ScaledQuotient(k: real, a: real, d: real)
    requires d != 0.0
    ensures k * (a / d) == (k / d) * a
  {
    var f, q := k / d, a / d;
    assert f * d == k;
    assert q * d == a;
    assert (k * q) * d == (f * a) * d;
  }

  /** `a^2 + b^2` is nonnegative and is zero exactly when both components are. */
  lemma SumOfSquares(a: real, b: real)
    ensures 0.0 <= Sq(a) + Sq(b)
    ensures Sq(a) + Sq(b) == 0.0 <==> a == 0.0 && b == 0.0
  {
    SquareNonNegative(a);
    SquareNonNegative(b);
    if a != 0.0 {
      SquarePositive(a);
    }
    if b != 0.0 {
      SquarePositive(b);
    }
  }

  /** Multiplying by a factor in [0, 1] does not increase a nonnegative number. */
  lemma Shrink(k: real, w: real)
    requires 0.0 <= k && 0.0 <= w <= 1.0
    ensures 0.0 <= k * w <= k
  {
    ScaleBetween(k, w, 1.0);
  }

  /** `a <= q` follows from `a c <= q c` when `c > 0`. */
  lemma Cancel(a: real, q: real, c: real)
    requires 0.0 < c && a * c <= q * c
    ensures a <= q
  {
    var m := q * c - a * c;
    assert m == (q - a) * c;
    Quotient(m, c);
    assert m / c == q - a;
  }

  /** Dividing a nonnegative number by a positive one. */
  lemma Quotient(m: real, c: real)
    requires 0.0 <= m && 0.0 < c
    ensures (m / c) * c == m && 0.0 <= m / c
  {
    var k := m / c;
    assert k * c == m;
  }

  /** `(m / c) * w` lies in `[0, m]` when `0 <= w <= c`. */
  lemma FractionOfMax(m: real, c: real, w: real)
    requires 0.0 < c
    requires 0.0 <= m
    requires 0.0 <= w <= c
    ensures 0.0 <= (m / c) * w <= m
  {
    Quotient(m, c);
    ScaleBetween(m / c, w, c);
  }
}
