// Why the weights that the forward sweep leaves on the edges carry the chain rule.
module AutodiffSweeps {

  import opened Reals
  import opened AutodiffDag
  import opened AutodiffTerms
  import opened AutodiffValues
  import opened AutodiffDerivative
  import opened AutodiffTape

  // What the forward sweep guarantees about the weights of a term with two operands worth l and
  // r. And leaves a weight as it was when its operand is neither.
  predicate PairWeights(t: Term, l: real, r: real, w0: real, w1: real)
    requires |Children(t)| == 2
  {
    match t
    case Sum(_, _) => w0 == 1.0 && w1 == 1.0
    case Product(_, _, _) => w0 == r && w1 == l
    case Max(_, _, _) => if l > r then w0 == 1.0 && w1 == 0.0 else w0 == 0.0 && w1 == 1.0
    case Min(_, _, _) => if l < r then w0 == 1.0 && w1 == 0.0 else w0 == 0.0 && w1 == 1.0
    case And(_, _, _) =>
      && (l > 0.75 && r > 0.75 ==> w0 == 0.0 && w1 == 0.0)
      && (l <= 0.0 ==> w0 == 1.0) && (r <= 0.0 ==> w1 == 1.0)
    case Or(_, _, _) =>
      && (l > 0.75 || r > 0.75 ==> w0 == 0.0 && w1 == 0.0)
      && (l <= 0.0 && r <= 0.0 ==> w0 == 1.0 && w1 == 1.0)
    case LTConstraint(_, _, _, s) => if l < r then w0 == 0.0 && w1 == 0.0 else w0 == -s && w1 == s
    case LTEConstraint(_, _, _, s) => if l <= r then w0 == 0.0 && w1 == 0.0 else w0 == -s && w1 == s
    case ConstraintUtility(_, _, _) => if l > 0.0 then w0 == 0.0 && w1 == 1.0 else w0 == 1.0 && w1 == 0.0
  }

  // The chain rule for two operands. Stale weights of And do no harm: the operand they belong
  // to holds, so it is flat.
  lemma PairRule(t: Term, p: Point, w0: real, w1: real, v: nat)
    requires WellTyped(t) && |Children(t)| == 2 && !t.Sum?
    requires PairWeights(t, Value(Forward, Children(t)[0], p), Value(Forward, Children(t)[1], p), w0, w1)
    ensures Mul(w0, Partial(Children(t)[0], v, p)) + Mul(w1, Partial(Children(t)[1], v, p)) == Partial(t, v, p)
  {
    hide Mul, Value, Holds;
    var l, r := Children(t)[0], Children(t)[1];
    Units(Partial(l, v, p));
    Units(Partial(r, v, p));
    if t.Product? {
      Commutes(w0, Partial(l, v, p));
    } else if t.LTConstraint? || t.LTEConstraint? {
      Opposite(t.steepness, Partial(l, v, p), Partial(r, v, p));
    } else if t.And? || t.Or? {
      OperandsMeanTruth(t, p);
      if Value(Forward, l, p) > 0.0 { FlatOperand(l, w0, v, p); }
      if Value(Forward, r, p) > 0.0 { FlatOperand(r, w1, v, p); }
    }
  }

  lemma OperandsMeanTruth(t: Term, p: Point)
    requires IsConstraint(t) && (t.And? || t.Or?)
    ensures TrueOrFalse(Value(Forward, t.left, p)) && TrueOrFalse(Value(Forward, t.right, p))
  {
    ConstraintValue(Forward, t.left, p);
    ConstraintValue(Forward, t.right, p);
  }

  lemma FlatOperand(c: Term, w: real, v: nat, p: Point)
    requires IsConstraint(c) && Value(Forward, c, p) > 0.0
    ensures Mul(w, Partial(c, v, p)) == 0.0
  {
    TrueIsFlat(c, v, p);
    Units(w);
  }

  lemma PairChain(edges: seq<InputEdge>, t: Term, terms: seq<Term>, p: Point)
    requires WellTyped(t) && |Children(t)| == 2 && !t.Sum? && |edges| == 2
    requires Refers(edges[0].index, Children(t)[0], terms, |terms|)
    requires Refers(edges[1].index, Children(t)[1], terms, |terms|)
    requires PairWeights(t, Value(Forward, Children(t)[0], p), Value(Forward, Children(t)[1], p),
                         edges[0].weight, edges[1].weight)
    ensures ChainRule(edges, t, terms, p)
  {
    hide Mul, PairWeights, WellTyped, Value, Partial, Dot;
    assert edges == [edges[0], edges[1]];
    forall v: nat ensures Dot(edges, terms, v, p) == Partial(t, v, p) {
      DotOfTwo(edges[0], edges[1], terms, v, p);
      PairRule(t, p, edges[0].weight, edges[1].weight, v);
    }
  }

  lemma PowerChain(edges: seq<InputEdge>, t: Term, terms: seq<Term>, p: Point)
    requires t.ConstPower? && t.exponent >= 1 && |edges| == 1
    requires Refers(edges[0].index, t.base, terms, |terms|)
    requires edges[0].weight == Mul(t.exponent as real, Pow(Value(Forward, t.base, p), t.exponent - 1))
    ensures ChainRule(edges, t, terms, p)
  {
    hide Mul, Value, Dot;
    assert edges == [edges[0]];
    forall v: nat ensures Dot(edges, terms, v, p) == Partial(t, v, p) {
      DotOfOne(edges[0], terms, v, p);
    }
  }

  lemma SumChain(edges: seq<InputEdge>, t: Term, terms: seq<Term>, p: Point)
    requires t.Sum? && |edges| == |t.terms|
    requires forall k :: 0 <= k < |edges| ==> edges[k].weight == 1.0 && Refers(edges[k].index, t.terms[k], terms, |terms|)
    ensures ChainRule(edges, t, terms, p)
  {
    forall v: nat ensures Dot(edges, terms, v, p) == Partial(t, v, p) {
      DotOfSum(edges, t.terms, terms, v, p);
    }
  }

  lemma {:induction false} DotOfSum(edges: seq<InputEdge>, ts: seq<Term>, terms: seq<Term>, v: nat, p: Point)
    requires |edges| == |ts| && forall e :: e in edges ==> e.index < |terms|
    requires forall k :: 0 <= k < |edges| ==> edges[k].weight == 1.0 && Refers(edges[k].index, ts[k], terms, |terms|)
    ensures Dot(edges, terms, v, p) == SumPartial(ts, v, p)
  {
    hide Mul;
    if edges != [] {
      var n := |edges| - 1;
      DotOfSum(edges[..n], ts[..n], terms, v, p);
      Units(Partial(ts[n], v, p));
    }
  }

  lemma LeafChain(t: Term, terms: seq<Term>, p: Point)
    requires t.Constant? || t.Zero?
    ensures ChainRule([], t, terms, p)
  {
  }

  // Passing the adjoint a over edges, one at a time.
  ghost predicate Passed(before: seq<real>, after: seq<real>, edges: seq<InputEdge>, a: real, terms: seq<Term>, n: nat, p: Point) {
    && |after| == |before| && n <= |before| && n <= |terms|
    && (forall e :: e in edges ==> e.index < n)
    && forall v: nat :: Weighted(after, terms, n, v, p) == Weighted(before, terms, n, v, p) + Mul(a, Dot(edges, terms, v, p))
  }

  lemma PassNothing(before: seq<real>, a: real, terms: seq<Term>, n: nat, p: Point)
    requires n <= |before| && n <= |terms|
    ensures Passed(before, before, [], a, terms, n, p)
  {
    Units(a);
  }

  lemma PassOne(before: seq<real>, after: seq<real>, edges: seq<InputEdge>, e: InputEdge, a: real, terms: seq<Term>, n: nat, p: Point)
    requires Passed(before, after, edges, a, terms, n, p) && e.index < n
    ensures Passed(before, after[e.index := after[e.index] + Mul(a, e.weight)], edges + [e], a, terms, n, p)
  {
    hide Mul;
    var passed := after[e.index := after[e.index] + Mul(a, e.weight)];
    forall v: nat
      ensures Weighted(passed, terms, n, v, p) == Weighted(before, terms, n, v, p) + Mul(a, Dot(edges + [e], terms, v, p))
    {
      var slope := Partial(terms[e.index], v, p);
      WeightedUpdate(after, terms, n, e.index, Mul(a, e.weight), v, p);
      Associates(a, e.weight, slope);
      assert (edges + [e])[..|edges|] == edges;
      Distributes(a, Dot(edges, terms, v, p), Mul(e.weight, slope));
    }
  }

  // What the adjoints before slot n account for is the slope of the root.
  ghost predicate Accounted(adjoints: seq<real>, terms: seq<Term>, n: nat, root: Term, p: Point) {
    && n <= |adjoints| && n <= |terms|
    && forall v: nat :: Weighted(adjoints, terms, n, v, p) == Partial(root, v, p)
  }

  lemma StartAccounted(adjoints: seq<real>, terms: seq<Term>, p: Point)
    requires |adjoints| == |terms| > 0 && adjoints[|terms| - 1] == 1.0
    requires forall i :: 0 <= i < |terms| - 1 ==> adjoints[i] == 0.0
    ensures Accounted(adjoints, terms, |terms|, terms[|terms| - 1], p)
  {
    hide Mul;
    var n := |terms| - 1;
    forall v: nat ensures Weighted(adjoints, terms, n + 1, v, p) == Partial(terms[n], v, p) {
      WeightedZeros(adjoints, terms, n, v, p);
      Units(Partial(terms[n], v, p));
    }
  }

  // Once slot n has passed its adjoint on, the slots before n account for everything.
  lemma StillAccounted(before: seq<real>, after: seq<real>, edges: seq<InputEdge>, terms: seq<Term>, n: nat, root: Term, p: Point)
    requires n < |terms| && Accounted(before, terms, n + 1, root, p)
    requires Passed(before, after, edges, before[n], terms, n, p)
    requires ChainRule(edges, terms[n], terms, p)
    ensures Accounted(after, terms, n, root, p)
  {
    hide Mul;
    forall v: nat ensures Weighted(after, terms, n, v, p) == Partial(root, v, p) {
      assert Dot(edges, terms, v, p) == Partial(terms[n], v, p);
    }
  }

  lemma AccountedVariable(adjoints: seq<real>, terms: seq<Term>, n: nat, root: Term, p: Point, i: nat)
    requires Accounted(adjoints, terms, n, root, p) && i < n
    requires forall j :: 0 <= j < n ==> terms[j].Variable?
    requires forall j, k :: 0 <= j < k < n ==> terms[j].id != terms[k].id
    ensures adjoints[i] == Partial(root, terms[i].id, p)
  {
    WeightedVariables(adjoints, terms, n, terms[i].id, p);
  }
}
