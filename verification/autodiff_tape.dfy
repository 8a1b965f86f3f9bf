// The tape: a term DAG as a list of elements whose edges point backwards, and the facts about
// terms on which compiling and sweeping it rest.
module AutodiffTape {

  import opened Reals
  import opened AutodiffDag
  import opened AutodiffTerms
  import opened AutodiffValues
  import opened AutodiffDerivative

  datatype InputEdge = InputEdge(index: nat, weight: real)

  // The class of a tape element, with the fields it adds.
  datatype Op =
    | CompiledVariable
    | CompiledConstant
    | CompiledSum(terms: seq<nat>)
    | CompiledConstPower(base: nat, exponent: nat)
    | CompiledAbs(arg: nat)
    | CompiledProduct(left: nat, right: nat)
    | CompiledMax(left: nat, right: nat)
    | CompiledMin(left: nat, right: nat)
    | CompiledAnd(left: nat, right: nat)
    | CompiledOr(left: nat, right: nat)
    | CompiledLTConstraint(left: nat, right: nat, steepness: real)
    | CompiledLTEConstraint(left: nat, right: nat, steepness: real)
    | CompiledConstraintUtility(constraint: nat, utility: nat)

  function OperandsOf(op: Op): seq<nat> {
    match op
    case CompiledVariable => []
    case CompiledConstant => []
    case CompiledSum(ts) => ts
    case CompiledConstPower(b, _) => [b]
    case CompiledAbs(a) => [a]
    case CompiledConstraintUtility(c, u) => [c, u]
    case _ => [op.left, op.right]
  }

  predicate SameKind(op: Op, t: Term) {
    match t
    case Variable(_) => op.CompiledVariable?
    case Constant(_, _) => op.CompiledConstant?
    case Zero(_) => op.CompiledConstant?
    case Sum(_, _) => op.CompiledSum?
    case Product(_, _, _) => op.CompiledProduct?
    case ConstPower(_, _, e) => op.CompiledConstPower? && op.exponent == e
    case Abs(_, _) => op.CompiledAbs?
    case Max(_, _, _) => op.CompiledMax?
    case Min(_, _, _) => op.CompiledMin?
    case And(_, _, _) => op.CompiledAnd?
    case Or(_, _, _) => op.CompiledOr?
    case LTConstraint(_, _, _, s) => op.CompiledLTConstraint? && op.steepness == s
    case LTEConstraint(_, _, _, s) => op.CompiledLTEConstraint? && op.steepness == s
    case ConstraintUtility(_, _, _) => op.CompiledConstraintUtility?
  }

  // Slot index, before slot n, holds t.
  predicate Refers(index: nat, t: Term, terms: seq<Term>, n: nat) {
    index < n <= |terms| && terms[index] == t
  }

  // op is t, with operands in slots before n.
  predicate Compiles(op: Op, t: Term, terms: seq<Term>, n: nat) {
    && SameKind(op, t)
    && |OperandsOf(op)| == |Children(t)|
    && forall k :: 0 <= k < |Children(t)| ==> Refers(OperandsOf(op)[k], Children(t)[k], terms, n)
  }

  lemma {:induction false} SubtermsWellTyped(t: Term, s: Term)
    requires WellTyped(t) && s in Subterms(t)
    ensures WellTyped(s)
    decreases t, 1
  {
    match t
    case Sum(_, ts) => if s != t { TermsWellTyped(ts, s); }
    case ConstPower(_, b, _) => if s != t { SubtermsWellTyped(b, s); }
    case Abs(_, _) =>
    case ConstraintUtility(_, c, u) => if s in Subterms(c) { SubtermsWellTyped(c, s); } else if s != t { SubtermsWellTyped(u, s); }
    case Variable(_) =>
    case Constant(_, _) =>
    case Zero(_) =>
    case _ => if s in Subterms(t.left) { SubtermsWellTyped(t.left, s); } else if s != t { SubtermsWellTyped(t.right, s); }
  }

  lemma {:induction false} TermsWellTyped(ts: seq<Term>, s: Term)
    requires forall i :: 0 <= i < |ts| ==> WellTyped(ts[i])
    requires s in AllSubterms(ts)
    ensures WellTyped(s)
    decreases ts, 0
  {
    var n := |ts| - 1;
    if s in Subterms(ts[n]) { SubtermsWellTyped(ts[n], s); } else { TermsWellTyped(ts[..n], s); }
  }

  // The chain rule: a weighted sum of the operands' slopes.
  function Dot(edges: seq<InputEdge>, terms: seq<Term>, v: nat, p: Point): real
    requires forall e :: e in edges ==> e.index < |terms|
  {
    if edges == [] then 0.0
    else
      var rest, e := edges[..|edges| - 1], edges[|edges| - 1];
      Dot(rest, terms, v, p) + Mul(e.weight, Partial(terms[e.index], v, p))
  }

  // The edges of an element carry the chain rule for its term.
  ghost predicate ChainRule(edges: seq<InputEdge>, t: Term, terms: seq<Term>, p: Point) {
    && (forall e :: e in edges ==> e.index < |terms|)
    && forall v: nat :: Dot(edges, terms, v, p) == Partial(t, v, p)
  }

  lemma DotOfTwo(a: InputEdge, b: InputEdge, terms: seq<Term>, v: nat, p: Point)
    requires a.index < |terms| && b.index < |terms|
    ensures Dot([a, b], terms, v, p)
         == Mul(a.weight, Partial(terms[a.index], v, p)) + Mul(b.weight, Partial(terms[b.index], v, p))
  {
    hide Mul;
    assert [a, b][..1] == [a] && [a][..0] == [];
    assert Dot([a], terms, v, p) == Dot([], terms, v, p) + Mul(a.weight, Partial(terms[a.index], v, p));
  }

  lemma DotOfOne(a: InputEdge, terms: seq<Term>, v: nat, p: Point)
    requires a.index < |terms|
    ensures Dot([a], terms, v, p) == Mul(a.weight, Partial(terms[a.index], v, p))
  {
    hide Mul;
    assert [a][..0] == [];
  }

  // The adjoints of the first n elements, weighted with the slopes of their terms.
  function Weighted(adjoints: seq<real>, terms: seq<Term>, n: nat, v: nat, p: Point): real
    requires n <= |adjoints| && n <= |terms|
  {
    if n == 0 then 0.0
    else Weighted(adjoints, terms, n - 1, v, p) + Mul(adjoints[n - 1], Partial(terms[n - 1], v, p))
  }

  lemma {:induction false} WeightedUpdate(a: seq<real>, terms: seq<Term>, n: nat, i: nat, x: real, v: nat, p: Point)
    requires n <= |a| && n <= |terms| && i < |a|
    ensures Weighted(a[i := a[i] + x], terms, n, v, p)
         == Weighted(a, terms, n, v, p) + (if i < n then Mul(x, Partial(terms[i], v, p)) else 0.0)
  {
    hide Mul;
    if n > 0 {
      WeightedUpdate(a, terms, n - 1, i, x, v, p);
      if i == n - 1 { Distributes(Partial(terms[i], v, p), a[i], x); }
    }
  }

  lemma {:induction false} WeightedZeros(a: seq<real>, terms: seq<Term>, n: nat, v: nat, p: Point)
    requires n <= |a| && n <= |terms| && forall i :: 0 <= i < n ==> a[i] == 0.0
    ensures Weighted(a, terms, n, v, p) == 0.0
  {
    hide Mul;
    if n > 0 {
      WeightedZeros(a, terms, n - 1, v, p);
      Units(Partial(terms[n - 1], v, p));
    }
  }

  // The first n slots hold distinct variables: what is weighted is the adjoint of v's slot.
  lemma {:induction false} WeightedVariables(a: seq<real>, terms: seq<Term>, n: nat, v: nat, p: Point)
    requires n <= |a| && n <= |terms|
    requires forall i :: 0 <= i < n ==> terms[i].Variable?
    requires forall i, j :: 0 <= i < j < n ==> terms[i].id != terms[j].id
    ensures (forall i :: 0 <= i < n ==> terms[i].id != v) ==> Weighted(a, terms, n, v, p) == 0.0
    ensures forall i :: 0 <= i < n && terms[i].id == v ==> Weighted(a, terms, n, v, p) == a[i]
  {
    hide Mul;
    if n > 0 {
      WeightedVariables(a, terms, n - 1, v, p);
      Units(a[n - 1]);
    }
  }
}
