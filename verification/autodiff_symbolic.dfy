// The symbolic derivative of a term, as a term.
module AutodiffSymbolic {

  import opened Options
  import opened Reals
  import opened AutodiffTerms
  import opened AutodiffValues
  import opened AutodiffDerivative
  import opened Calculus

  // The identities of new terms play no part here.
  const NEW := 0

  function NewConstant(c: real): Term {
    if c == 0.0 then Zero(NEW) else Constant(NEW, c)
  }

  // The sum of two terms, which drops an operand that is Zero.
  function Plus(l: Term, r: Term): Term {
    if l.Zero? && r.Zero? then Zero(NEW)
    else if l.Zero? then r
    else if r.Zero? then l
    else Sum(NEW, [l, r])
  }

  // None where the derivative is refused. A Constant has no derivative term of its own; its
  // derivative is taken to be Zero.
  function Derivative(t: Term, v: nat): Option<Term>
    requires IsNumeric(t)
    decreases t, 1
  {
    match t
    case Variable(id) => Some(NewConstant(if id == v then 1.0 else 0.0))
    case Constant(_, _) => Some(Zero(NEW))
    case Zero(_) => Some(t)
    case Sum(_, ts) =>
      (match Derivatives(ts, v)
       case None => None
       case Some(ds) => Some(Sum(NEW, ds)))
    case Product(_, l, r) =>
      var dl, dr := Derivative(l, v), Derivative(r, v);
      if dl.None? || dr.None? then None
      else Some(Plus(Product(NEW, l, dr.value), Product(NEW, r, dl.value)))
    case ConstPower(_, b, e) =>
      var db := Derivative(b, v);
      if db.None? then None
      else Some(Product(NEW, Product(NEW, NewConstant(e as real), ConstPower(NEW, b, e - 1)), db.value))
    case Max(_, _, _) => None
    case Min(_, _, _) => None
  }

  function Derivatives(ts: seq<Term>, v: nat): (r: Option<seq<Term>>)
    requires forall i :: 0 <= i < |ts| ==> IsNumeric(ts[i])
    ensures r.Some? ==> |r.value| == |ts|
    decreases ts, 0
  {
    if ts == [] then Some([])
    else
      var rest, last := Derivatives(ts[..|ts| - 1], v), Derivative(ts[|ts| - 1], v);
      if rest.None? || last.None? then None else Some(rest.value + [last.value])
  }

  predicate IsPolynomial(t: Term)
    decreases t
  {
    match t
    case Variable(_) => true
    case Constant(_, _) => true
    case Zero(_) => true
    case Sum(_, ts) => forall i :: 0 <= i < |ts| ==> IsPolynomial(ts[i])
    case Product(_, l, r) => IsPolynomial(l) && IsPolynomial(r)
    case ConstPower(_, b, e) => e >= 1 && IsPolynomial(b)
    case _ => false
  }

  lemma ValueOfPlus(w: Visitor, l: Term, r: Term, p: Point)
    ensures Value(w, Plus(l, r), p) == Value(w, l, p) + Value(w, r, p)
  {
    if !l.Zero? && !r.Zero? {
      assert [l, r][..1] == [l] && [l][..0] == [];
      assert SumValue(w, [l], p) == SumValue(w, [], p) + Value(w, l, p);
      assert SumValue(w, [l, r], p) == SumValue(w, [l], p) + Value(w, r, p);
    }
  }

  // The derivative is defined exactly on polynomials, and its value is the partial derivative.
  lemma {:induction false} ValueOfDerivative(w: Visitor, t: Term, v: nat, p: Point)
    requires IsNumeric(t)
    ensures Derivative(t, v).Some? <==> IsPolynomial(t)
    ensures Derivative(t, v).Some? ==> Value(w, Derivative(t, v).value, p) == Partial(t, v, p)
    decreases t, 1
  {
    hide Mul;
    match t
    case Variable(_) =>
    case Constant(_, _) =>
    case Zero(_) =>
    case Sum(_, ts) =>
      ValueOfDerivatives(w, ts, v, p);
    case Product(_, l, r) =>
      ValueOfDerivative(w, l, v, p);
      ValueOfDerivative(w, r, v, p);
      BothAgree(w, l, p);
      BothAgree(w, r, p);
      if Derivative(t, v).Some? {
        ValueOfPlus(w, Product(NEW, l, Derivative(r, v).value), Product(NEW, r, Derivative(l, v).value), p);
      }
    case ConstPower(_, b, e) =>
      ValueOfDerivative(w, b, v, p);
      BothAgree(w, b, p);
      var k, x := NewConstant(e as real), ConstPower(NEW, b, e - 1);
      assert Value(w, Product(NEW, k, x), p) == Mul(e as real, Pow(Value(Forward, b, p), e - 1));
    case Max(_, _, _) =>
    case Min(_, _, _) =>
  }

  lemma BothAgree(w: Visitor, t: Term, p: Point)
    requires IsNumeric(t)
    ensures Value(w, t, p) == Value(Forward, t, p)
  {
    NumericAgree(t, p);
  }

  lemma {:induction false} ValueOfDerivatives(w: Visitor, ts: seq<Term>, v: nat, p: Point)
    requires forall i :: 0 <= i < |ts| ==> IsNumeric(ts[i])
    ensures Derivatives(ts, v).Some? <==> forall i :: 0 <= i < |ts| ==> IsPolynomial(ts[i])
    ensures Derivatives(ts, v).Some? ==> SumValue(w, Derivatives(ts, v).value, p) == SumPartial(ts, v, p)
    decreases ts, 0
  {
    hide Value, Partial, Derivative, IsPolynomial, IsNumeric;
    if ts != [] {
      var rest, last := ts[..|ts| - 1], ts[|ts| - 1];
      ValueOfDerivative(w, last, v, p);
      ValueOfDerivatives(w, rest, v, p);
      assert forall i :: 0 <= i < |rest| ==> rest[i] == ts[i];
      if Derivatives(ts, v).Some? {
        var ds := Derivatives(ts, v).value;
        assert ds[..|ds| - 1] == Derivatives(rest, v).value;
      }
    }
  }

  // Polynomials have no branches: reverse mode gives their derivatives at every point.

  lemma {:induction false} PolynomialIsSmooth(t: Term, p: Point)
    requires IsPolynomial(t)
    ensures IsNumeric(t) && Smooth(t, p)
    decreases t
  {
    match t
    case Variable(_) =>
    case Constant(_, _) =>
    case Zero(_) =>
    case Sum(_, ts) =>
      forall i | 0 <= i < |ts| ensures IsNumeric(ts[i]) && Smooth(ts[i], p) { PolynomialIsSmooth(ts[i], p); }
    case Product(_, l, r) => PolynomialIsSmooth(l, p); PolynomialIsSmooth(r, p);
    case ConstPower(_, b, _) => PolynomialIsSmooth(b, p);
  }

  lemma PolynomialSlope(t: Term, v: nat, p: Point)
    requires IsPolynomial(t)
    ensures HasDerivative(Line(t, v, p), Partial(t, v, p))
  {
    hide Smooth, IsPolynomial, HasDerivative, Line, Partial;
    PolynomialIsSmooth(t, p);
    PartialIsTheDerivative(t, v, p, Partial(t, v, p));
  }
}
