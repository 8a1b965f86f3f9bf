// Derivatives of real functions: the error of the linear approximation is at most quadratic.
module Calculus {

  import opened Reals

  // The increment y over a step h is h * d up to bound * h^2.
  predicate Close(y: real, d: real, bound: real, h: real) {
    Magnitude(y - Mul(h, d)) <= Mul(bound, Mul(h, h))
  }

  ghost predicate Approximates(f: real -> real, d: real, radius: real, bound: real) {
    0.0 < radius <= 1.0 && bound >= 0.0 && forall h: real :: Magnitude(h) <= radius ==> Close(f(h) - f(0.0), d, bound, h)
  }

  // d is the derivative of f at 0.
  ghost predicate HasDerivative(f: real -> real, d: real) {
    exists radius: real, bound: real :: Approximates(f, d, radius, bound)
  }

  // Increments of a multiple, of a sum and of a product.

  lemma CloseMultiple(a: real, y: real, d: real, b: real, h: real)
    requires Close(y, d, b, h)
    ensures Close(Mul(a, y), Mul(a, d), Mul(Magnitude(a), b), h)
  {
    hide Magnitude, Mul;
    var k := Mul(h, h);
    ProductAtMost(a, y - Mul(h, d), Mul(b, k));
    Distributes(a, y, Mul(h, d));
    Associates(a, h, d);
    Associates(Magnitude(a), b, k);
  }

  lemma CloseSum(y: real, d: real, b1: real, z: real, e: real, b2: real, h: real)
    requires Close(y, d, b1, h) && Close(z, e, b2, h)
    ensures Close(y + z, d + e, b1 + b2, h)
  {
    hide Magnitude, Mul;
    MagnitudeOfSum(y - Mul(h, d), z - Mul(h, e));
    assert (y - Mul(h, d)) + (z - Mul(h, e)) == y + z - (Mul(h, d) + Mul(h, e));
    Distributes(h, d, e);
    Distributes(Mul(h, h), b1, b2);
  }

  // An increment is at most linear in the step.
  lemma AtMostLinear(y: real, d: real, b: real, h: real)
    requires b >= 0.0 && Magnitude(h) <= 1.0 && Close(y, d, b, h)
    ensures Magnitude(y) <= Mul(Magnitude(h), Magnitude(d) + b)
  {
    hide Magnitude, Mul;
    MagnitudeOfSum(y - Mul(h, d), Mul(h, d));
    assert (y - Mul(h, d)) + Mul(h, d) == y;
    MagnitudeOfProduct(h, d);
    SquareOfMagnitude(h);
    Scaled(Magnitude(h), Magnitude(h), 1.0);
    Units(Magnitude(h));
    Scaled(b, Mul(h, h), Magnitude(h));
    Commutes(b, Magnitude(h));
    Distributes(Magnitude(h), Magnitude(d), b);
  }

  // The product of two increments is quadratic in the step.
  lemma ProductOfIncrements(y: real, d: real, b1: real, z: real, e: real, b2: real, h: real)
    requires b1 >= 0.0 && b2 >= 0.0 && Magnitude(h) <= 1.0
    requires Close(y, d, b1, h) && Close(z, e, b2, h)
    ensures Close(Mul(y, z), 0.0, Mul(Magnitude(d) + b1, Magnitude(e) + b2), h)
  {
    hide Magnitude, Mul;
    var p, q, a := Magnitude(d) + b1, Magnitude(e) + b2, Magnitude(h);
    AtMostLinear(y, d, b1, h);
    AtMostLinear(z, e, b2, h);
    ProductAtMost(y, z, Mul(a, q));
    NonNegative(a, q);
    Scaled(Mul(a, q), Magnitude(y), Mul(a, p));
    Commutes(Magnitude(y), Mul(a, q));
    SquareOfMagnitude(h);
    Regroup(a, p, q);
    Units(h);
  }

  lemma Regroup(a: real, p: real, q: real)
    ensures Mul(Mul(a, q), Mul(a, p)) == Mul(Mul(p, q), Mul(a, a))
  {
    assert (a * q) * (a * p) == (p * q) * (a * a);
  }

  lemma CloseProduct(f0: real, fh: real, d: real, b1: real, g0: real, gh: real, e: real, b2: real, h: real)
    requires b1 >= 0.0 && b2 >= 0.0 && Magnitude(h) <= 1.0
    requires Close(fh - f0, d, b1, h) && Close(gh - g0, e, b2, h)
    ensures Close(Mul(fh, gh) - Mul(f0, g0), Mul(g0, d) + Mul(f0, e),
                  Mul(Magnitude(g0), b1) + Mul(Magnitude(f0), b2) + Mul(Magnitude(d) + b1, Magnitude(e) + b2), h)
  {
    hide Close, Magnitude, Mul;
    var y, z := fh - f0, gh - g0;
    CloseMultiple(g0, y, d, b1, h);
    CloseMultiple(f0, z, e, b2, h);
    CloseSum(Mul(g0, y), Mul(g0, d), Mul(Magnitude(g0), b1), Mul(f0, z), Mul(f0, e), Mul(Magnitude(f0), b2), h);
    ProductOfIncrements(y, d, b1, z, e, b2, h);
    CloseSum(Mul(g0, y) + Mul(f0, z), Mul(g0, d) + Mul(f0, e), Mul(Magnitude(g0), b1) + Mul(Magnitude(f0), b2),
             Mul(y, z), 0.0, Mul(Magnitude(d) + b1, Magnitude(e) + b2), h);
    IncrementOfProduct(f0, fh, g0, gh);
  }

  lemma IncrementOfProduct(f0: real, fh: real, g0: real, gh: real)
    ensures Mul(g0, fh - f0) + Mul(f0, gh - g0) + Mul(fh - f0, gh - g0) == Mul(fh, gh) - Mul(f0, g0)
  {
  }

  // Derivatives of constants, shifts, multiples, sums and products.

  lemma OfConstant(f: real -> real, c: real)
    requires forall h: real :: f(h) == c
    ensures HasDerivative(f, 0.0)
  {
    assert Approximates(f, 0.0, 1.0, 0.0);
  }

  lemma OfShift(f: real -> real, c: real)
    requires forall h: real :: f(h) == c + h
    ensures HasDerivative(f, 1.0)
  {
    assert Approximates(f, 1.0, 1.0, 0.0);
  }

  lemma OfMultiple(s: real -> real, a: real, f: real -> real, d: real)
    requires HasDerivative(f, d)
    requires forall h: real :: s(h) == Mul(a, f(h))
    ensures HasDerivative(s, Mul(a, d))
  {
    hide Close, Mul;
    var r: real, b: real :| Approximates(f, d, r, b);
    NonNegative(Magnitude(a), b);
    forall h: real | Magnitude(h) <= r
      ensures Close(s(h) - s(0.0), Mul(a, d), Mul(Magnitude(a), b), h)
    {
      CloseMultiple(a, f(h) - f(0.0), d, b, h);
      Distributes(a, f(h), f(0.0));
    }
    assert Approximates(s, Mul(a, d), r, Mul(Magnitude(a), b));
  }

  lemma OfSum(s: real -> real, f: real -> real, d: real, g: real -> real, e: real)
    requires HasDerivative(f, d) && HasDerivative(g, e)
    requires forall h: real :: s(h) == f(h) + g(h)
    ensures HasDerivative(s, d + e)
  {
    hide Close, Mul;
    var r1: real, b1: real :| Approximates(f, d, r1, b1);
    var r2: real, b2: real :| Approximates(g, e, r2, b2);
    var r := Smaller(r1, r2);
    forall h: real | Magnitude(h) <= r
      ensures Close(s(h) - s(0.0), d + e, b1 + b2, h)
    {
      CloseSum(f(h) - f(0.0), d, b1, g(h) - g(0.0), e, b2, h);
      assert (f(h) - f(0.0)) + (g(h) - g(0.0)) == s(h) - s(0.0);
    }
    assert Approximates(s, d + e, r, b1 + b2);
  }

  lemma OfProduct(s: real -> real, f: real -> real, d: real, g: real -> real, e: real)
    requires HasDerivative(f, d) && HasDerivative(g, e)
    requires forall h: real :: s(h) == Mul(f(h), g(h))
    ensures HasDerivative(s, Mul(g(0.0), d) + Mul(f(0.0), e))
  {
    hide Close, Mul;
    var r1: real, b1: real :| Approximates(f, d, r1, b1);
    var r2: real, b2: real :| Approximates(g, e, r2, b2);
    var r := Smaller(r1, r2);
    var f0, g0 := f(0.0), g(0.0);
    var slope := Mul(g0, d) + Mul(f0, e);
    var bound := Mul(Magnitude(g0), b1) + Mul(Magnitude(f0), b2) + Mul(Magnitude(d) + b1, Magnitude(e) + b2);
    NonNegative(Magnitude(g0), b1);
    NonNegative(Magnitude(f0), b2);
    NonNegative(Magnitude(d) + b1, Magnitude(e) + b2);
    forall h: real | Magnitude(h) <= r
      ensures Close(s(h) - s(0.0), slope, bound, h)
    {
      CloseProduct(f0, f(h), d, b1, g0, g(h), e, b2, h);
    }
    assert Approximates(s, slope, r, bound);
  }

  function Times(a: real, f: real -> real): real -> real {
    (h: real) => Mul(a, f(h))
  }

  function Plus(f: real -> real, g: real -> real): real -> real {
    (h: real) => f(h) + g(h)
  }

  // Two functions that agree near 0 have the same derivative there.
  lemma SameNearby(f: real -> real, g: real -> real, d: real, near: real)
    requires near > 0.0 && forall h: real :: Magnitude(h) <= near ==> f(h) == g(h)
    requires HasDerivative(g, d)
    ensures HasDerivative(f, d)
  {
    hide Close, Mul;
    var r: real, b: real :| Approximates(g, d, r, b);
    assert f(0.0) == g(0.0);
    assert Approximates(f, d, Smaller(r, near), b);
  }

  // The larger of two functions with derivatives stays larger around 0.
  lemma StaysLarger(f: real -> real, d: real, g: real -> real, e: real) returns (near: real)
    requires HasDerivative(f, d) && HasDerivative(g, e) && f(0.0) > g(0.0)
    ensures near > 0.0 && forall h: real :: Magnitude(h) <= near ==> f(h) > g(h)
  {
    hide Close, Mul;
    var r1: real, b1: real :| Approximates(f, d, r1, b1);
    var r2: real, b2: real :| Approximates(g, e, r2, b2);
    var k := Magnitude(d - e) + (b1 + b2) + 1.0;
    var q := Part(f(0.0) - g(0.0), k);
    near := Smaller(q, Smaller(r1, r2));
    forall h: real | Magnitude(h) <= near ensures f(h) > g(h) {
      GapAtMost(f(h) - f(0.0), d, b1, g(h) - g(0.0), e, b2, h, q);
    }
  }

  // Two increments differ by little over a small step.
  lemma GapAtMost(y: real, d: real, b1: real, z: real, e: real, b2: real, h: real, q: real)
    requires b1 >= 0.0 && b2 >= 0.0 && Magnitude(h) <= 1.0 && Magnitude(h) <= q
    requires Close(y, d, b1, h) && Close(z, e, b2, h)
    ensures Magnitude(y - z) <= Mul(Magnitude(d - e) + (b1 + b2) + 1.0, q)
  {
    hide Close, Mul;
    var b := b1 + b2;
    var k := Magnitude(d - e) + b + 1.0;
    CloseMultiple(-1.0, z, e, b2, h);
    Units(z); Units(e); Units(b2);
    CloseSum(y, d, b1, -z, -e, b2, h);
    AtMostLinear(y - z, d - e, b, h);
    Scaled(Magnitude(h), Magnitude(d - e) + b, k);
    Commutes(k, Magnitude(h));
    Scaled(k, Magnitude(h), q);
  }

  // A positive q with k * q < x.
  lemma Part(x: real, k: real) returns (q: real)
    requires x > 0.0 && k >= 1.0
    ensures q > 0.0 && Mul(k, q) < x
  {
    q := x / (2.0 * k);
    assert q * (2.0 * k) == x;
  }

  // Two linear approximations of one function have the same slope.
  lemma DerivativeIsUnique(f: real -> real, d: real, e: real)
    requires HasDerivative(f, d) && HasDerivative(f, e)
    ensures d == e
  {
    hide Close, Mul;
    var r1: real, b1: real :| Approximates(f, d, r1, b1);
    var r2: real, b2: real :| Approximates(f, e, r2, b2);
    if d != e {
      var k := b1 + b2 + 1.0;
      var q := Part(Magnitude(d - e), k);
      var h := Smaller(q, Smaller(r1, r2));
      assert Magnitude(h) == h && h > 0.0;
      Squeeze(f(h) - f(0.0), h, d, e, b1, b2);
      Scaled(k, h, q);
      Scaled(h, b1 + b2, k);
      Commutes(k, h);
    }
  }

  lemma Squeeze(y: real, h: real, d: real, e: real, b1: real, b2: real)
    requires h > 0.0 && Close(y, d, b1, h) && Close(y, e, b2, h)
    ensures Magnitude(d - e) <= Mul(h, b1 + b2)
  {
    hide Mul;
    var b := b1 + b2;
    Distributes(h, d, e);
    Distributes(Mul(h, h), b1, b2);
    assert Magnitude(Mul(h, d - e)) <= Mul(b, Mul(h, h));
    MagnitudeOfProduct(h, d - e);
    Associates(b, h, h);
    Commutes(b, h);
    assert Mul(h, Magnitude(d - e)) <= Mul(h, Mul(h, b));
    if Magnitude(d - e) > Mul(h, b) {
      Scaled(h, Mul(h, b), Magnitude(d - e));
    }
  }
}
