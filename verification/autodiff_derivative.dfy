// The partial derivative of a term: the rules the tape applies, and that they compute the
// derivative of the term's value.
module AutodiffDerivative {

  import opened AutodiffTerms
  import opened AutodiffValues
  import opened Calculus
  import opened Reals

  function Partial(t: Term, v: nat, p: Point): real
    decreases t, 1
  {
    match t
    case Variable(id) => if id == v then 1.0 else 0.0
    case Constant(_, _) => 0.0
    case Zero(_) => 0.0
    case Sum(_, ts) => SumPartial(ts, v, p)
    case Product(_, l, r) => Mul(Value(Forward, l, p), Partial(r, v, p)) + Mul(Value(Forward, r, p), Partial(l, v, p))
    case ConstPower(_, b, e) =>
      if e == 0 then 0.0 else Mul(Mul(e as real, Pow(Value(Forward, b, p), e - 1)), Partial(b, v, p))
    case Abs(_, _) => 0.0
    case Max(_, l, r) =>
      if Value(Forward, l, p) > Value(Forward, r, p) then Partial(l, v, p) else Partial(r, v, p)
    case Min(_, l, r) =>
      if Value(Forward, l, p) < Value(Forward, r, p) then Partial(l, v, p) else Partial(r, v, p)
    case And(_, l, r) =>
      (if Value(Forward, l, p) <= 0.0 then Partial(l, v, p) else 0.0)
      + (if Value(Forward, r, p) <= 0.0 then Partial(r, v, p) else 0.0)
    case Or(_, l, r) =>
      if Value(Forward, l, p) > 0.0 || Value(Forward, r, p) > 0.0 then 0.0
      else Partial(l, v, p) + Partial(r, v, p)
    case LTConstraint(_, l, r, s) =>
      if Value(Forward, l, p) < Value(Forward, r, p) then 0.0 else Mul(s, Partial(r, v, p) - Partial(l, v, p))
    case LTEConstraint(_, l, r, s) =>
      if Value(Forward, l, p) <= Value(Forward, r, p) then 0.0 else Mul(s, Partial(r, v, p) - Partial(l, v, p))
    case ConstraintUtility(_, c, u) =>
      if Value(Forward, c, p) > 0.0 then Partial(u, v, p) else Partial(c, v, p)
  }

  function SumPartial(ts: seq<Term>, v: nat, p: Point): real
    decreases ts, 0
  {
    if ts == [] then 0.0 else SumPartial(ts[..|ts| - 1], v, p) + Partial(ts[|ts| - 1], v, p)
  }

  // A constraint that holds contributes no slope.
  lemma {:induction false} TrueIsFlat(t: Term, v: nat, p: Point)
    requires IsConstraint(t) && Value(Forward, t, p) > 0.0
    ensures Partial(t, v, p) == 0.0
    decreases t
  {
    hide AndValue, OrValue, LTValue, LTEValue, Holds;
    if t.LTConstraint? || t.LTEConstraint? {
      Comparisons(Forward, Value(Forward, t.left, p), Value(Forward, t.right, p), t.steepness);
    } else if !t.Constant? {
      ConstraintValue(Forward, t.left, p);
      ConstraintValue(Forward, t.right, p);
      Connectives(Forward, Value(Forward, t.left, p), Value(Forward, t.right, p));
      if Value(Forward, t.left, p) > 0.0 { TrueIsFlat(t.left, v, p); }
      if Value(Forward, t.right, p) > 0.0 { TrueIsFlat(t.right, v, p); }
    }
  }

  // The point moved by h along variable v, and the value of t on the way.

  function Shift(p: Point, v: nat, h: real): Point {
    (i: nat) => if i == v then p(i) + h else p(i)
  }

  function Line(t: Term, v: nat, p: Point): real -> real {
    (h: real) => Value(Forward, t, Shift(p, v, h))
  }

  lemma {:induction false} SamePoint(t: Term, p: Point, q: Point)
    requires forall i: nat :: p(i) == q(i)
    ensures Value(Forward, t, p) == Value(Forward, t, q)
    decreases t, 1
  {
    match t
    case Variable(_) =>
    case Constant(_, _) =>
    case Zero(_) =>
    case Sum(_, ts) => SameSum(ts, p, q);
    case ConstPower(_, b, _) => SamePoint(b, p, q);
    case Abs(_, a) => SamePoint(a, p, q);
    case ConstraintUtility(_, c, u) => SamePoint(c, p, q); SamePoint(u, p, q);
    case _ => SamePoint(t.left, p, q); SamePoint(t.right, p, q);
  }

  lemma {:induction false} SameSum(ts: seq<Term>, p: Point, q: Point)
    requires forall i: nat :: p(i) == q(i)
    ensures SumValue(Forward, ts, p) == SumValue(Forward, ts, q)
    decreases ts, 0
  {
    if ts != [] {
      SamePoint(ts[|ts| - 1], p, q);
      SameSum(ts[..|ts| - 1], p, q);
    }
  }

  lemma AtZero(t: Term, v: nat, p: Point)
    ensures Line(t, v, p)(0.0) == Value(Forward, t, p)
  {
    SamePoint(t, Shift(p, v, 0.0), p);
  }

  // No branch of the term switches at the point.
  predicate Smooth(t: Term, p: Point)
    decreases t
  {
    match t
    case Variable(_) => true
    case Constant(_, _) => true
    case Zero(_) => true
    case Sum(_, ts) => forall i :: 0 <= i < |ts| ==> Smooth(ts[i], p)
    case Product(_, l, r) => Smooth(l, p) && Smooth(r, p)
    case ConstPower(_, b, _) => Smooth(b, p)
    case Abs(_, _) => false
    case Max(_, l, r) =>
      && Smooth(l, p) && Smooth(r, p)
      && (Value(Forward, l, p) != Value(Forward, r, p) || (!IsNumeric(t) && Value(Forward, t, p) > 0.0))
    case Min(_, l, r) =>
      && Smooth(l, p) && Smooth(r, p)
      && (Value(Forward, l, p) != Value(Forward, r, p) || (!IsNumeric(t) && Value(Forward, t, p) > 0.0))
    case And(_, l, r) => Smooth(l, p) && Smooth(r, p)
    case Or(_, l, r) => Smooth(l, p) && Smooth(r, p)
    case LTConstraint(_, l, r, _) => Smooth(l, p) && Smooth(r, p) && Value(Forward, l, p) != Value(Forward, r, p)
    case LTEConstraint(_, l, r, _) => Smooth(l, p) && Smooth(r, p) && Value(Forward, l, p) != Value(Forward, r, p)
    case ConstraintUtility(_, c, u) => Smooth(c, p) && Smooth(u, p)
  }

  // Where a branch switches: equal operands of Max and Min pass the slope to the right one, equal
  // operands of < count as failing, those of <= as holding.
  lemma TiedSlopes(t: Term, v: nat, p: Point)
    requires t.Max? || t.Min? || t.LTConstraint? || t.LTEConstraint?
    requires Value(Forward, t.left, p) == Value(Forward, t.right, p)
    ensures t.Max? || t.Min? ==> Partial(t, v, p) == Partial(t.right, v, p)
    ensures t.LTConstraint? ==> Partial(t, v, p) == Mul(t.steepness, Partial(t.right, v, p) - Partial(t.left, v, p))
    ensures t.LTEConstraint? ==> Partial(t, v, p) == 0.0
  {
  }

  ghost predicate Slopes(t: Term, v: nat, p: Point) {
    HasDerivative(Line(t, v, p), Partial(t, v, p))
  }

  lemma {:induction false} NumericSlope(t: Term, v: nat, p: Point)
    requires IsNumeric(t) && Smooth(t, p)
    ensures Slopes(t, v, p)
    decreases t, 1
  {
    hide HasDerivative, Mul;
    match t
    case Variable(id) =>
      if id == v { OfShift(Line(t, v, p), p(id)); } else { OfConstant(Line(t, v, p), p(id)); }
    case Constant(_, c) => OfConstant(Line(t, v, p), c);
    case Zero(_) => OfConstant(Line(t, v, p), 0.0);
    case Sum(_, ts) =>
      SumSlope(ts, v, p);
      SameNearby(Line(t, v, p), SumLine(ts, v, p), SumPartial(ts, v, p), 1.0);
    case Product(_, l, r) =>
      NumericSlope(l, v, p); NumericSlope(r, v, p);
      ProductSlope(t, v, p);
    case ConstPower(_, b, e) =>
      NumericSlope(b, v, p);
      PowerSlope(Line(b, v, p), Partial(b, v, p), e);
      AtZero(b, v, p);
      SameNearby(Line(t, v, p), PowerLine(Line(b, v, p), e), Partial(t, v, p), 1.0);
    case Max(_, l, r) =>
      NumericSlope(l, v, p); NumericSlope(r, v, p);
      PickSlope(t, v, p);
    case Min(_, l, r) =>
      NumericSlope(l, v, p); NumericSlope(r, v, p);
      PickSlope(t, v, p);
  }

  function SumLine(ts: seq<Term>, v: nat, p: Point): real -> real {
    (h: real) => SumValue(Forward, ts, Shift(p, v, h))
  }

  lemma {:induction false} SumSlope(ts: seq<Term>, v: nat, p: Point)
    requires forall i :: 0 <= i < |ts| ==> IsNumeric(ts[i]) && Smooth(ts[i], p)
    ensures HasDerivative(SumLine(ts, v, p), SumPartial(ts, v, p))
    decreases ts, 0
  {
    hide HasDerivative, Mul;
    if ts == [] {
      OfConstant(SumLine(ts, v, p), 0.0);
    } else {
      var rest, last := ts[..|ts| - 1], ts[|ts| - 1];
      NumericSlope(last, v, p);
      SumSlope(rest, v, p);
      OfSum(SumLine(ts, v, p), SumLine(rest, v, p), SumPartial(rest, v, p), Line(last, v, p), Partial(last, v, p));
    }
  }

  lemma ProductSlope(t: Term, v: nat, p: Point)
    requires t.Product? && Slopes(t.left, v, p) && Slopes(t.right, v, p)
    ensures Slopes(t, v, p)
  {
    hide HasDerivative, Mul;
    OfProduct(Line(t, v, p), Line(t.left, v, p), Partial(t.left, v, p), Line(t.right, v, p), Partial(t.right, v, p));
    AtZero(t.left, v, p);
    AtZero(t.right, v, p);
  }

  function PowerLine(f: real -> real, e: nat): real -> real {
    (h: real) => Pow(f(h), e)
  }

  lemma PowerLineSteps(f: real -> real, e: nat)
    requires e >= 2
    ensures forall h: real :: PowerLine(f, e)(h) == Mul(f(h), PowerLine(f, e - 1)(h))
    ensures PowerLine(f, e - 1)(0.0) == Pow(f(0.0), e - 1)
  {
    hide Mul;
  }

  lemma {:induction false} PowerSlope(f: real -> real, d: real, e: nat)
    requires e >= 1 && HasDerivative(f, d)
    ensures HasDerivative(PowerLine(f, e), Mul(Mul(e as real, Pow(f(0.0), e - 1)), d))
  {
    hide HasDerivative, Mul, PowerLine;
    if e == 1 {
      FirstPower(f, d);
    } else {
      var k := Pow(f(0.0), e - 2);
      PowerSlope(f, d, e - 1);
      PowerLineSteps(f, e);
      OfProduct(PowerLine(f, e), f, d, PowerLine(f, e - 1), Mul(Mul((e - 1) as real, k), d));
      PowerRule(f(0.0), k, d, e);
    }
  }

  lemma FirstPower(f: real -> real, d: real)
    requires HasDerivative(f, d)
    ensures HasDerivative(PowerLine(f, 1), Mul(Mul(1.0, Pow(f(0.0), 0)), d))
  {
    hide HasDerivative;
    assert forall h: real :: PowerLine(f, 1)(h) == f(h) by {
      forall h: real ensures PowerLine(f, 1)(h) == f(h) { assert Pow(f(h), 1) == Mul(f(h), 1.0); }
    }
    SameNearby(PowerLine(f, 1), f, d, 1.0);
    Units(d);
    Units(1.0);
  }

  lemma PowerRule(x: real, k: real, d: real, e: nat)
    requires e >= 2
    ensures Mul(Mul(x, k), d) + Mul(x, Mul(Mul((e - 1) as real, k), d)) == Mul(Mul(e as real, Mul(x, k)), d)
  {
    hide Mul;
    var n, m := (e - 1) as real, Mul(x, k);
    Associates(x, Mul(n, k), d);
    Associates(x, n, k);
    Distributes(m, n, 1.0);
    Distributes(d, Mul(n, m), m);
    Units(m);
    assert e as real == n + 1.0;
  }

  // A Max or Min whose operands differ is the operand it picks, all around the point.
  lemma PickSlope(t: Term, v: nat, p: Point)
    requires (t.Max? || t.Min?) && Slopes(t.left, v, p) && Slopes(t.right, v, p)
    requires Value(Forward, t.left, p) != Value(Forward, t.right, p)
    ensures Slopes(t, v, p)
  {
    hide HasDerivative, Mul;
    AtZero(t.left, v, p);
    AtZero(t.right, v, p);
    var f, d, g, e := Line(t.left, v, p), Partial(t.left, v, p), Line(t.right, v, p), Partial(t.right, v, p);
    if f(0.0) > g(0.0) {
      var near := StaysLarger(f, d, g, e);
      SameNearby(Line(t, v, p), if t.Max? then f else g, Partial(t, v, p), near);
    } else {
      var near := StaysLarger(g, e, f, d);
      SameNearby(Line(t, v, p), if t.Max? then g else f, Partial(t, v, p), near);
    }
  }

  function Always(c: real): real -> real {
    (h: real) => c
  }

  lemma FlatNearby(f: real -> real, c: real, near: real)
    requires near > 0.0 && forall h: real :: Magnitude(h) <= near ==> f(h) == c
    ensures HasDerivative(f, 0.0)
  {
    hide HasDerivative;
    OfConstant(Always(c), c);
    SameNearby(f, Always(c), 0.0, near);
  }

  lemma SumNearby(f: real -> real, g: real -> real, d: real, k: real -> real, e: real, near: real)
    requires near > 0.0 && forall h: real :: Magnitude(h) <= near ==> f(h) == g(h) + k(h)
    requires HasDerivative(g, d) && HasDerivative(k, e)
    ensures HasDerivative(f, d + e)
  {
    hide HasDerivative;
    OfSum(Plus(g, k), g, d, k, e);
    SameNearby(f, Plus(g, k), d + e, near);
  }

  lemma TimesAt(a: real, f: real -> real, h: real)
    ensures Times(a, f)(h) == Mul(a, f(h))
  {
    hide Mul;
  }

  lemma TimesSlope(a: real, f: real -> real, d: real)
    requires HasDerivative(f, d)
    ensures HasDerivative(Times(a, f), Mul(a, d))
  {
    hide HasDerivative, Mul;
    OfMultiple(Times(a, f), a, f, d);
  }

  lemma GapSlope(w: real -> real, s: real, f: real -> real, d: real, g: real -> real, e: real, near: real)
    requires near > 0.0 && forall h: real :: Magnitude(h) <= near ==> w(h) == Mul(s, g(h) - f(h))
    requires HasDerivative(f, d) && HasDerivative(g, e)
    ensures HasDerivative(w, Mul(s, e - d))
  {
    hide HasDerivative, Mul, Times;
    TimesSlope(s, g, e);
    TimesSlope(-s, f, d);
    Opposite(s, d, e);
    forall h: real | Magnitude(h) <= near ensures w(h) == Times(s, g)(h) + Times(-s, f)(h) {
      TimesAt(s, g, h);
      TimesAt(-s, f, h);
      Opposite(s, f(h), g(h));
    }
    SumNearby(w, Times(s, g), Mul(s, e), Times(-s, f), Mul(-s, d), near);
  }

  // Around the point a comparison stays true, or stays false and follows its operands.
  lemma ComparisonSlope(t: Term, v: nat, p: Point)
    requires IsConstraint(t) && (t.LTConstraint? || t.LTEConstraint?)
    requires Slopes(t.left, v, p) && Slopes(t.right, v, p)
    requires Value(Forward, t.left, p) != Value(Forward, t.right, p)
    ensures Slopes(t, v, p)
  {
    hide HasDerivative, Mul;
    AtZero(t.left, v, p);
    AtZero(t.right, v, p);
    var f, d, g, e := Line(t.left, v, p), Partial(t.left, v, p), Line(t.right, v, p), Partial(t.right, v, p);
    if f(0.0) < g(0.0) {
      var near := StaysLarger(g, e, f, d);
      FlatNearby(Line(t, v, p), 1.0, near);
    } else {
      var near := StaysLarger(f, d, g, e);
      GapSlope(Line(t, v, p), t.steepness, f, d, g, e, near);
    }
  }

  lemma Opposite(s: real, x: real, y: real)
    ensures Mul(s, y - x) == Mul(s, y) + Mul(-s, x)
  {
  }

  // The truth of a constraint does not change around the point.
  lemma StableTruth(t: Term, v: nat, p: Point) returns (near: real)
    requires IsConstraint(t) && Slopes(t, v, p)
    ensures near > 0.0
    ensures Value(Forward, t, p) > 0.0 ==> forall h: real :: Magnitude(h) <= near ==> Line(t, v, p)(h) == 1.0
    ensures Value(Forward, t, p) <= 0.0 ==> forall h: real :: Magnitude(h) <= near ==> Line(t, v, p)(h) <= 0.0
  {
    hide HasDerivative, Value, Holds, IsConstraint;
    AtZero(t, v, p);
    ConstraintValue(Forward, t, p);
    var f, d := Line(t, v, p), Partial(t, v, p);
    if Value(Forward, t, p) > 0.0 {
      OfConstant(Always(0.0), 0.0);
      near := StaysLarger(f, d, Always(0.0), 0.0);
    } else {
      OfConstant(Always(1.0), 1.0);
      near := StaysLarger(Always(1.0), 0.0, f, d);
    }
    forall h: real ensures TrueOrFalse(f(h)) {
      ConstraintValue(Forward, t, Shift(p, v, h));
    }
  }

  lemma ConnectiveLine(t: Term, v: nat, p: Point, h: real)
    requires t.And? || t.Or?
    ensures var l, r := Line(t.left, v, p)(h), Line(t.right, v, p)(h);
      Line(t, v, p)(h) == if t.And? then AndValue(Forward, l, r) else OrValue(Forward, l, r)
  {
    hide AndValue, OrValue;
  }

  lemma ConnectiveOperands(t: Term)
    requires IsConstraint(t) && (t.And? || t.Or?)
    ensures IsConstraint(t.left) && IsConstraint(t.right)
  {
  }

  lemma ConnectiveSlope(t: Term, v: nat, p: Point)
    requires IsConstraint(t) && (t.And? || t.Or?)
    requires Slopes(t.left, v, p) && Slopes(t.right, v, p)
    ensures Slopes(t, v, p)
  {
    hide HasDerivative, Mul, Holds, Value, IsConstraint, Line;
    ConnectiveOperands(t);
    var f, d, g, e := Line(t.left, v, p), Partial(t.left, v, p), Line(t.right, v, p), Partial(t.right, v, p);
    var n1 := StableTruth(t.left, v, p);
    var n2 := StableTruth(t.right, v, p);
    var near := Smaller(n1, n2);
    var l, r := Value(Forward, t.left, p) > 0.0, Value(Forward, t.right, p) > 0.0;
    forall h: real | Magnitude(h) <= near
      ensures Line(t, v, p)(h) == if (t.Or? && (l || r)) || (l && r) then 1.0 else if l then g(h) else if r then f(h) else f(h) + g(h)
    {
      ConnectiveLine(t, v, p, h);
    }
    if (t.Or? && (l || r)) || (l && r) {
      FlatNearby(Line(t, v, p), 1.0, near);
    } else if l {
      SameNearby(Line(t, v, p), g, e, near);
    } else if r {
      SameNearby(Line(t, v, p), f, d, near);
    } else {
      SumNearby(Line(t, v, p), f, d, g, e, near);
    }
  }

  lemma {:induction false} ConstraintSlope(t: Term, v: nat, p: Point)
    requires IsConstraint(t) && Smooth(t, p)
    ensures Slopes(t, v, p)
    decreases t
  {
    hide HasDerivative, Mul, Partial, Value, Holds;
    if t.Constant? {
      NumericSlope(t, v, p);
    } else if t.LTConstraint? || t.LTEConstraint? {
      NumericSlope(t.left, v, p);
      NumericSlope(t.right, v, p);
      ComparisonSlope(t, v, p);
    } else {
      ConstraintSlope(t.left, v, p);
      ConstraintSlope(t.right, v, p);
      if t.And? || t.Or? {
        ConnectiveSlope(t, v, p);
      } else if Value(Forward, t.left, p) != Value(Forward, t.right, p) {
        PickSlope(t, v, p);
      } else {
        BothTrueSlope(t, v, p);
      }
    }
  }

  lemma BothTrueSlope(t: Term, v: nat, p: Point)
    requires IsConstraint(t) && (t.Max? || t.Min?)
    requires Slopes(t.left, v, p) && Slopes(t.right, v, p)
    requires Value(Forward, t.left, p) == Value(Forward, t.right, p) && Value(Forward, t, p) > 0.0
    ensures Slopes(t, v, p)
  {
    hide HasDerivative, Mul, Holds;
    var n1 := StableTruth(t.left, v, p);
    var n2 := StableTruth(t.right, v, p);
    FlatNearby(Line(t, v, p), 1.0, Smaller(n1, n2));
    TrueIsFlat(t, v, p);
  }

  lemma UtilitySlope(t: Term, v: nat, p: Point)
    requires t.ConstraintUtility? && IsConstraint(t.constraint)
    requires Slopes(t.constraint, v, p) && Slopes(t.utility, v, p)
    ensures Slopes(t, v, p)
  {
    hide HasDerivative, Mul, Holds;
    var near := StableTruth(t.constraint, v, p);
    if Value(Forward, t.constraint, p) > 0.0 {
      SameNearby(Line(t, v, p), Line(t.utility, v, p), Partial(t.utility, v, p), near);
    } else {
      SameNearby(Line(t, v, p), Line(t.constraint, v, p), Partial(t.constraint, v, p), near);
    }
  }

  // Wherever no branch of a well-typed term switches, the rules give the partial derivative,
  // and only that number is it.
  lemma {:induction false} PartialIsTheDerivative(t: Term, v: nat, p: Point, d: real)
    requires WellTyped(t) && Smooth(t, p)
    ensures HasDerivative(Line(t, v, p), d) <==> d == Partial(t, v, p)
  {
    hide HasDerivative, Mul, Partial, Value, Holds;
    if IsNumeric(t) {
      NumericSlope(t, v, p);
    } else if IsConstraint(t) {
      ConstraintSlope(t, v, p);
    } else {
      ConstraintSlope(t.constraint, v, p);
      NumericSlope(t.utility, v, p);
      UtilitySlope(t, v, p);
    }
    if HasDerivative(Line(t, v, p), d) {
      DerivativeIsUnique(Line(t, v, p), d, Partial(t, v, p));
    }
  }
}
