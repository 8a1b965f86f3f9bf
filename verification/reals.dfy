// Products of reals by name, and the laws that proofs about them use.
module Reals {

  // Multiplication by name: most lemmas hide its definition and use the laws below.
  function Mul(x: real, y: real): real {
    x * y
  }

  function Magnitude(x: real): (r: real)
    ensures r >= 0.0 && (x == r || x == -r)
  {
    if x < 0.0 then -x else x
  }

  function Larger(x: real, y: real): real {
    if x < y then y else x
  }

  function Smaller(x: real, y: real): real {
    if y < x then y else x
  }

  // Laws of multiplication.

  lemma Distributes(a: real, x: real, y: real)
    ensures Mul(a, x + y) == Mul(a, x) + Mul(a, y)
    ensures Mul(a, x - y) == Mul(a, x) - Mul(a, y)
    ensures Mul(x + y, a) == Mul(x, a) + Mul(y, a)
  {
  }

  lemma Commutes(a: real, x: real)
    ensures Mul(a, x) == Mul(x, a)
  {
  }

  lemma Associates(a: real, x: real, y: real)
    ensures Mul(Mul(a, x), y) == Mul(a, Mul(x, y))
    ensures Mul(a, Mul(x, y)) == Mul(x, Mul(a, y))
  {
  }

  lemma MagnitudeOfProduct(a: real, x: real)
    ensures Magnitude(Mul(a, x)) == Mul(Magnitude(a), Magnitude(x))
  {
  }

  lemma Scaled(a: real, x: real, y: real)
    requires a >= 0.0 && x <= y
    ensures Mul(a, x) <= Mul(a, y)
    ensures a > 0.0 && x < y ==> Mul(a, x) < Mul(a, y)
  {
    var more := y - x;
    assert Mul(a, more) == Mul(a, y) - Mul(a, x);
    if a > 0.0 && more > 0.0 {
      assert Mul(a, more) > 0.0;
    } else {
      assert Mul(a, more) >= 0.0;
    }
  }

  lemma Units(x: real)
    ensures Mul(x, 0.0) == 0.0 && Mul(0.0, x) == 0.0 && Mul(x, 1.0) == x && Mul(1.0, x) == x && Mul(-1.0, x) == -x
  {
  }

  lemma NonNegative(a: real, x: real)
    requires a >= 0.0 && x >= 0.0
    ensures Mul(a, x) >= 0.0
  {
  }

  lemma SquareOfMagnitude(h: real)
    ensures Mul(Magnitude(h), Magnitude(h)) == Mul(h, h) && Mul(h, h) >= 0.0
  {
    MagnitudeOfProduct(h, h);
  }

  lemma MagnitudeOfSum(x: real, y: real)
    ensures Magnitude(x + y) <= Magnitude(x) + Magnitude(y)
  {
  }

  // a * x is at most Magnitude(a) * m when x is at most m.
  lemma ProductAtMost(a: real, x: real, m: real)
    requires Magnitude(x) <= m
    ensures Magnitude(Mul(a, x)) <= Mul(Magnitude(a), m)
  {
    hide Magnitude, Mul;
    MagnitudeOfProduct(a, x);
    Scaled(Magnitude(a), Magnitude(x), m);
  }
}
