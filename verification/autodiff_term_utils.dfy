// Compiling a term for a single evaluation or differentiation.
module AutodiffTermUtils {

  import opened Calculus
  import opened Reals
  import opened AutodiffTerms
  import opened AutodiffValues
  import opened AutodiffDerivative
  import opened AutodiffDifferentiator

  // The wrapper around a bare variable changes nothing.
  lemma CompiledIsSame(t: Term, nextId: nat, p: Point)
    ensures forall w :: Value(w, Compiled(t, nextId), p) == Value(w, t, p)
    ensures forall v: nat :: Partial(Compiled(t, nextId), v, p) == Partial(t, v, p)
    ensures WellTyped(t) ==> WellTyped(Compiled(t, nextId))
    ensures Smooth(t, p) ==> Smooth(Compiled(t, nextId), p)
    ensures WellTyped(t) ==> (Agreement(Compiled(t, nextId), p) <==> Agreement(t, p))
  {
    hide Mul;
    if t.Variable? {
      var c := Compiled(t, nextId);
      assert c.ConstPower? && c.base == t && c.exponent == 1;
      assert Pow(p(t.id), 0) == 1.0;
      Units(p(t.id));
      Units(1.0);
      forall v: nat ensures Partial(c, v, p) == Partial(t, v, p) {
        assert Partial(c, v, p) == Mul(Mul(1.0, Pow(p(t.id), 0)), Partial(t, v, p));
        Units(Partial(t, v, p));
      }
      forall w ensures Value(w, c, p) == Value(w, t, p) {
        assert Value(w, c, p) == Pow(p(t.id), 1) == Mul(p(t.id), Pow(p(t.id), 0));
      }
    }
  }

  method Evaluate(term: Term, variables: seq<nat>, point: seq<real>, nextId: nat) returns (value: real)
    requires Compilable(term, variables, nextId) && |variables| <= |point|
    ensures value == Value(Eval, term, PointOf(variables, point))
  {
    hide Compilable, Value, PointOf;
    var compiled := new CompiledDifferentiator(term, variables, nextId);
    value := compiled.Evaluate(point);
    CompiledIsSame(term, nextId, PointOf(variables, point));
  }

  // The gradient of a term, and its value. Where no branch of the term switches, the gradient
  // consists of the partial derivatives of the value; the value is the one that evaluation gives
  // exactly where Agreement holds.
  method Differentiate(term: Term, variables: seq<nat>, point: seq<real>, nextId: nat) returns (gradient: seq<real>, value: real)
    requires Compilable(term, variables, nextId) && |variables| <= |point| && WellTyped(term)
    ensures |gradient| == |variables|
    ensures forall i :: 0 <= i < |variables| ==> gradient[i] == Partial(term, variables[i], PointOf(variables, point))
    ensures Smooth(term, PointOf(variables, point)) ==>
      forall i :: 0 <= i < |variables| ==> HasDerivative(Line(term, variables[i], PointOf(variables, point)), gradient[i])
    ensures value == Value(Eval, term, PointOf(variables, point)) <==> Agreement(term, PointOf(variables, point))
  {
    hide Compilable, Value, PointOf, Partial, WellTyped, Smooth, Agreement, HasDerivative, Line;
    ghost var p := PointOf(variables, point);
    CompiledIsSame(term, nextId, p);
    var compiled := new CompiledDifferentiator(term, variables, nextId);
    gradient, value := compiled.Differentiate(point);
    GradientIsTheDerivative(term, variables, gradient, p);
  }
}
