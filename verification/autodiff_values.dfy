// What the value of a constraint term means, and when `evaluate` and `differentiate` agree.
module AutodiffValues {

  import opened AutodiffTerms
  import opened Reals

  // Arithmetic terms: no constraint below them.
  predicate IsNumeric(t: Term)
    decreases t
  {
    match t
    case Variable(_) => true
    case Constant(_, _) => true
    case Zero(_) => true
    case Sum(_, ts) => forall i :: 0 <= i < |ts| ==> IsNumeric(ts[i])
    case Product(_, l, r) => IsNumeric(l) && IsNumeric(r)
    case ConstPower(_, b, e) => e >= 1 && IsNumeric(b)
    case Max(_, l, r) => IsNumeric(l) && IsNumeric(r)
    case Min(_, l, r) => IsNumeric(l) && IsNumeric(r)
    case _ => false
  }

  // Constraints: comparisons of numeric terms, constants that read as true (1) or false (at
  // most 0), and their combinations.
  predicate IsConstraint(t: Term)
    decreases t
  {
    match t
    case Constant(_, c) => c == 1.0 || c <= 0.0
    case LTConstraint(_, l, r, s) => IsNumeric(l) && IsNumeric(r) && s > 0.0
    case LTEConstraint(_, l, r, s) => IsNumeric(l) && IsNumeric(r) && s > 0.0
    case And(_, l, r) => IsConstraint(l) && IsConstraint(r)
    case Or(_, l, r) => IsConstraint(l) && IsConstraint(r)
    case Max(_, l, r) => IsConstraint(l) && IsConstraint(r)
    case Min(_, l, r) => IsConstraint(l) && IsConstraint(r)
    case _ => false
  }

  predicate WellTyped(t: Term) {
    || IsNumeric(t)
    || IsConstraint(t)
    || (t.ConstraintUtility? && IsConstraint(t.constraint) && IsNumeric(t.utility))
  }

  // The truth of a constraint at a point; `strictly` reads every <= as <.
  predicate Holds(t: Term, p: Point, strictly: bool)
    requires IsConstraint(t)
    decreases t
  {
    match t
    case Constant(_, c) => c == 1.0
    case LTConstraint(_, l, r, _) => Value(Forward, l, p) < Value(Forward, r, p)
    case LTEConstraint(_, l, r, _) =>
      Value(Forward, l, p) < Value(Forward, r, p) || (!strictly && Value(Forward, l, p) == Value(Forward, r, p))
    case And(_, l, r) => Holds(l, p, strictly) && Holds(r, p, strictly)
    case Or(_, l, r) => Holds(l, p, strictly) || Holds(r, p, strictly)
    case Max(_, l, r) => Holds(l, p, strictly) || Holds(r, p, strictly)
    case Min(_, l, r) => Holds(l, p, strictly) && Holds(r, p, strictly)
  }

  // The two visitors agree on every arithmetic term.
  lemma {:induction false} NumericAgree(t: Term, p: Point)
    requires IsNumeric(t)
    ensures Value(Eval, t, p) == Value(Forward, t, p)
    decreases t, 1
  {
    match t
    case Variable(_) =>
    case Constant(_, _) =>
    case Zero(_) =>
    case Sum(_, ts) => SumAgree(ts, p);
    case Product(_, l, r) => NumericAgree(l, p); NumericAgree(r, p);
    case ConstPower(_, b, _) => NumericAgree(b, p);
    case Max(_, l, r) => NumericAgree(l, p); NumericAgree(r, p);
    case Min(_, l, r) => NumericAgree(l, p); NumericAgree(r, p);
  }

  lemma {:induction false} SumAgree(ts: seq<Term>, p: Point)
    requires forall i :: 0 <= i < |ts| ==> IsNumeric(ts[i])
    ensures SumValue(Eval, ts, p) == SumValue(Forward, ts, p)
    decreases ts, 0
  {
    if ts != [] {
      NumericAgree(ts[|ts| - 1], p);
      SumAgree(ts[..|ts| - 1], p);
    }
  }

  predicate TrueOrFalse(v: real) {
    v == 1.0 || v <= 0.0
  }

  // On values that mean true or false, both visitors' rules are conjunction and disjunction.
  lemma Connectives(w: Visitor, l: real, r: real)
    requires TrueOrFalse(l) && TrueOrFalse(r)
    ensures TrueOrFalse(AndValue(w, l, r)) && (AndValue(w, l, r) > 0.0 <==> l > 0.0 && r > 0.0)
    ensures TrueOrFalse(OrValue(w, l, r)) && (OrValue(w, l, r) > 0.0 <==> l > 0.0 || r > 0.0)
    ensures TrueOrFalse(Larger(l, r)) && (Larger(l, r) > 0.0 <==> l > 0.0 || r > 0.0)
    ensures TrueOrFalse(Smaller(l, r)) && (Smaller(l, r) > 0.0 <==> l > 0.0 && r > 0.0)
  {
  }

  // How far a constraint is from holding: at most 0, and 0 when it holds.
  function Failure(t: Term, p: Point, strictly: bool): real
    requires IsConstraint(t)
    decreases t
  {
    match t
    case Constant(_, c) => Smaller(c, 0.0)
    case LTConstraint(_, l, r, s) => Gap(Value(Forward, l, p), Value(Forward, r, p), s)
    case LTEConstraint(_, l, r, s) => Gap(Value(Forward, l, p), Value(Forward, r, p), s)
    case And(_, l, r) => Failure(l, p, strictly) + Failure(r, p, strictly)
    case Or(_, l, r) =>
      if Holds(l, p, strictly) || Holds(r, p, strictly) then 0.0
      else Failure(l, p, strictly) + Failure(r, p, strictly)
    case Max(_, l, r) => Larger(Failure(l, p, strictly), Failure(r, p, strictly))
    case Min(_, l, r) => Smaller(Failure(l, p, strictly), Failure(r, p, strictly))
  }

  function Gap(l: real, r: real, s: real): real {
    if l < r then 0.0 else Mul(s, r - l)
  }

  // The worth of a constraint that holds or fails by f.
  predicate Worth(v: real, holds: bool, f: real) {
    f <= 0.0 && (holds ==> v == 1.0 && f == 0.0) && (!holds ==> v == f)
  }

  lemma ConnectivesWorth(w: Visitor, l: real, a: bool, f: real, r: real, b: bool, g: real)
    requires Worth(l, a, f) && Worth(r, b, g)
    ensures Worth(AndValue(w, l, r), a && b, f + g)
    ensures Worth(OrValue(w, l, r), a || b, if a || b then 0.0 else f + g)
    ensures Worth(Larger(l, r), a || b, Larger(f, g))
    ensures Worth(Smaller(l, r), a && b, Smaller(f, g))
  {
  }

  // A constraint that holds is worth exactly 1, one that fails its failure; `evaluate` reads <=
  // as <, `differentiate` does not.
  lemma {:induction false} ConstraintWorth(w: Visitor, t: Term, p: Point)
    requires IsConstraint(t)
    ensures Worth(Value(w, t, p), Holds(t, p, w == Eval), Failure(t, p, w == Eval))
    decreases t
  {
    hide AndValue, OrValue, Larger, Smaller, LTValue, LTEValue, Gap, Worth;
    if t.LTConstraint? || t.LTEConstraint? {
      NumericAgree(t.left, p);
      NumericAgree(t.right, p);
      ComparisonsWorth(w, Value(w, t.left, p), Value(w, t.right, p), t.steepness);
    } else if t.Constant? {
      ConstantWorth(t.value);
    } else {
      ConstraintWorth(w, t.left, p);
      ConstraintWorth(w, t.right, p);
      ConnectivesWorth(w, Value(w, t.left, p), Holds(t.left, p, w == Eval), Failure(t.left, p, w == Eval),
        Value(w, t.right, p), Holds(t.right, p, w == Eval), Failure(t.right, p, w == Eval));
    }
  }

  lemma ConstantWorth(c: real)
    requires c == 1.0 || c <= 0.0
    ensures Worth(c, c == 1.0, Smaller(c, 0.0))
  {
  }

  lemma ComparisonsWorth(w: Visitor, l: real, r: real, s: real)
    requires s > 0.0
    ensures Worth(LTValue(l, r, s), l < r, Gap(l, r, s))
    ensures Worth(LTEValue(w, l, r, s), l < r || (w == Forward && l == r), Gap(l, r, s))
  {
    Comparisons(w, l, r, s);
    if l == r { Units(s); }
  }

  // So the value of a constraint is positive exactly when it holds.
  lemma ConstraintValue(w: Visitor, t: Term, p: Point)
    requires IsConstraint(t)
    ensures TrueOrFalse(Value(w, t, p))
    ensures Value(w, t, p) > 0.0 <==> Holds(t, p, w == Eval)
  {
    hide Value, Holds, Failure, IsConstraint;
    ConstraintWorth(w, t, p);
  }

  // And a connective by its operands.
  lemma ConnectivePositive(w: Visitor, t: Term, p: Point)
    requires IsConstraint(t) && (t.And? || t.Or? || t.Max? || t.Min?)
    ensures t.And? || t.Min? ==>
      (Value(w, t, p) > 0.0 <==> Value(w, t.left, p) > 0.0 && Value(w, t.right, p) > 0.0)
    ensures t.Or? || t.Max? ==>
      (Value(w, t, p) > 0.0 <==> Value(w, t.left, p) > 0.0 || Value(w, t.right, p) > 0.0)
  {
    hide Value;
    ConstraintValue(w, t, p);
    ConstraintValue(w, t.left, p);
    ConstraintValue(w, t.right, p);
  }

  lemma Comparisons(w: Visitor, l: real, r: real, s: real)
    requires s > 0.0
    ensures TrueOrFalse(LTValue(l, r, s)) && (LTValue(l, r, s) > 0.0 <==> l < r)
    ensures TrueOrFalse(LTEValue(w, l, r, s))
    ensures LTEValue(w, l, r, s) > 0.0 <==> l < r || (w == Forward && l == r)
    ensures LTEValue(Eval, l, r, s) == LTEValue(Forward, l, r, s) <==> l != r
  {
    if r <= l {
      var gap := l - r;
      assert Mul(s, gap) >= 0.0;
      assert Mul(s, r - l) == -Mul(s, gap);
    }
  }

  // Reading <= as < makes constraints fail, and fail by more.
  lemma {:induction false} StrictlyWorse(t: Term, p: Point)
    requires IsConstraint(t)
    ensures Holds(t, p, true) ==> Holds(t, p, false)
    ensures Failure(t, p, true) <= Failure(t, p, false) <= 0.0
    ensures forall strictly :: Holds(t, p, strictly) ==> Failure(t, p, strictly) == 0.0
    decreases t
  {
    hide Value, Gap;
    if t.LTConstraint? || t.LTEConstraint? {
      ComparisonsWorth(Forward, Value(Forward, t.left, p), Value(Forward, t.right, p), t.steepness);
    } else if !t.Constant? {
      StrictlyWorse(t.left, p);
      StrictlyWorse(t.right, p);
    }
  }

  // The ties at the point do not change by how much t fails. Only under an Or can they: when it
  // holds by a tie alone, its operands must not fail by anything either.
  predicate SameFailure(t: Term, p: Point)
    requires IsConstraint(t)
    decreases t
  {
    match t
    case And(_, l, r) => SameFailure(l, p) && SameFailure(r, p)
    case Or(_, l, r) =>
      if Holds(t, p, true) then true
      else if Holds(t, p, false) then Failure(l, p, true) == 0.0 && Failure(r, p, true) == 0.0
      else SameFailure(l, p) && SameFailure(r, p)
    case Max(_, l, r) =>
      || (Failure(l, p, false) >= Failure(r, p, false) && SameFailure(l, p))
      || (Failure(r, p, false) >= Failure(l, p, false) && SameFailure(r, p))
    case Min(_, l, r) =>
      var least := Smaller(Failure(l, p, false), Failure(r, p, false));
      Failure(l, p, true) >= least && Failure(r, p, true) >= least
    case _ => true
  }

  lemma {:induction false} SameFailureExactly(t: Term, p: Point)
    requires IsConstraint(t)
    ensures SameFailure(t, p) <==> Failure(t, p, true) == Failure(t, p, false)
    decreases t
  {
    hide Value, Gap;
    if !t.Constant? && !t.LTConstraint? && !t.LTEConstraint? {
      StrictlyWorse(t.left, p);
      StrictlyWorse(t.right, p);
      SameFailureExactly(t.left, p);
      SameFailureExactly(t.right, p);
    }
  }

  // Constraints of comparisons and constants by And, Max and Min, which is all that the
  // operators & and | build by default.
  predicate OrFree(t: Term)
    decreases t
  {
    match t
    case Or(_, _, _) => false
    case And(_, l, r) => OrFree(l) && OrFree(r)
    case Max(_, l, r) => OrFree(l) && OrFree(r)
    case Min(_, l, r) => OrFree(l) && OrFree(r)
    case ConstraintUtility(_, c, _) => OrFree(c)
    case _ => true
  }

  lemma {:induction false} OrFreeFailure(t: Term, p: Point)
    requires IsConstraint(t) && OrFree(t)
    ensures SameFailure(t, p)
    ensures Holds(t, p, false) && !Holds(t, p, true) ==> Failure(t, p, true) == 0.0
    decreases t
  {
    hide Value, Gap;
    if !t.Constant? && !t.LTConstraint? && !t.LTEConstraint? {
      OrFreeFailure(t.left, p);
      OrFreeFailure(t.right, p);
      SameFailureExactly(t.left, p);
      SameFailureExactly(t.right, p);
    }
    SameFailureExactly(t, p);
    StrictlyWorse(t, p);
  }

  // Where the two visitors agree: a constraint may not hold by a tie alone, nor fail by more for
  // a tie; under a utility it may hold by a tie if the utility is worth what `evaluate` sees.
  predicate Agreement(t: Term, p: Point)
    requires WellTyped(t)
  {
    if IsNumeric(t) then true
    else if IsConstraint(t) then Settled(t, p)
    else
      || Settled(t.constraint, p)
      || (Holds(t.constraint, p, false) && !Holds(t.constraint, p, true)
          && Value(Forward, t.utility, p) == Failure(t.constraint, p, true))
  }

  predicate Settled(t: Term, p: Point)
    requires IsConstraint(t)
  {
    (Holds(t, p, false) ==> Holds(t, p, true)) && SameFailure(t, p)
  }

  lemma ConstraintAgree(t: Term, p: Point)
    requires IsConstraint(t)
    ensures Value(Eval, t, p) == Value(Forward, t, p) <==> Settled(t, p)
  {
    hide Value, Holds, Failure, SameFailure, IsConstraint;
    ConstraintWorth(Eval, t, p);
    ConstraintWorth(Forward, t, p);
    StrictlyWorse(t, p);
    SameFailureExactly(t, p);
  }

  lemma UtilityWorth(c: real, d: real, strictly: bool, holds: bool, f: real, g: real, u: real)
    requires Worth(c, strictly, f) && Worth(d, holds, g) && (strictly ==> holds) && f <= g
    ensures UtilityValue(Eval, c, u) == UtilityValue(Forward, d, u)
      <==> (strictly == holds && f == g) || (holds && !strictly && u == f)
  {
    hide Mul;
    Units(u);
  }

  // `differentiate` and `evaluate` return the same value exactly where Agreement holds.
  lemma SweepsAgree(t: Term, p: Point)
    requires WellTyped(t)
    ensures Value(Eval, t, p) == Value(Forward, t, p) <==> Agreement(t, p)
  {
    hide Holds, Failure, SameFailure, IsConstraint, IsNumeric, UtilityValue;
    if IsNumeric(t) {
      NumericAgree(t, p);
    } else if IsConstraint(t) {
      ConstraintAgree(t, p);
    } else {
      var c, u := t.constraint, Value(Forward, t.utility, p);
      NumericAgree(t.utility, p);
      ConstraintWorth(Eval, c, p);
      ConstraintWorth(Forward, c, p);
      StrictlyWorse(c, p);
      SameFailureExactly(c, p);
      UtilityWorth(Value(Eval, c, p), Value(Forward, c, p), Holds(c, p, true), Holds(c, p, false),
        Failure(c, p, true), Failure(c, p, false), u);
    }
  }

  // Without Or, all that matters is whether a constraint holds by a tie alone.
  lemma SweepsAgreeWithoutOr(t: Term, p: Point)
    requires OrFree(t)
    ensures IsConstraint(t) ==>
      (Value(Eval, t, p) == Value(Forward, t, p) <==> (Holds(t, p, true) <==> Holds(t, p, false)))
    ensures WellTyped(t) && t.ConstraintUtility? ==>
      (Value(Eval, t, p) == Value(Forward, t, p)
       <==> (Holds(t.constraint, p, true) <==> Holds(t.constraint, p, false)) || Value(Forward, t.utility, p) == 0.0)
  {
    hide Value, Holds, Failure, SameFailure;
    if IsConstraint(t) {
      ConstraintAgree(t, p);
      OrFreeFailure(t, p);
      StrictlyWorse(t, p);
    } else if WellTyped(t) && t.ConstraintUtility? {
      SweepsAgree(t, p);
      OrFreeFailure(t.constraint, p);
      StrictlyWorse(t.constraint, p);
    }
  }

  // No <= compares equal operands at the point.
  predicate NoTie(t: Term, p: Point)
    decreases t
  {
    match t
    case LTEConstraint(_, l, r, _) => Value(Forward, l, p) != Value(Forward, r, p)
    case And(_, l, r) => NoTie(l, p) && NoTie(r, p)
    case Or(_, l, r) => NoTie(l, p) && NoTie(r, p)
    case Max(_, l, r) => NoTie(l, p) && NoTie(r, p)
    case Min(_, l, r) => NoTie(l, p) && NoTie(r, p)
    case ConstraintUtility(_, c, _) => NoTie(c, p)
    case _ => true
  }

  lemma {:induction false} UntiedIsSettled(t: Term, p: Point)
    requires IsConstraint(t) && NoTie(t, p)
    ensures Holds(t, p, true) == Holds(t, p, false) && Failure(t, p, true) == Failure(t, p, false)
    ensures Settled(t, p)
    decreases t
  {
    if !t.Constant? && !t.LTConstraint? && !t.LTEConstraint? {
      UntiedIsSettled(t.left, p);
      UntiedIsSettled(t.right, p);
    }
    SameFailureExactly(t, p);
  }

  // In particular they agree wherever no <= is tied.
  lemma UntiedSweepsAgree(t: Term, p: Point)
    requires WellTyped(t) && NoTie(t, p)
    ensures Agreement(t, p)
  {
    if IsConstraint(t) {
      UntiedIsSettled(t, p);
    } else if !IsNumeric(t) {
      UntiedIsSettled(t.constraint, p);
    }
  }

  // A tie need not hurt: (x <= x) and false is -1 under both.
  lemma TieWithoutHarm(t: Term, x: Term, p: Point)
    requires IsNumeric(x) && t == And(2, LTEConstraint(1, x, x, 1.0), Constant(0, -1.0))
    ensures !NoTie(t, p) && Value(Eval, t, p) == Value(Forward, t, p) == -1.0
  {
    assert IsConstraint(t.left) && IsConstraint(t.right);
    ConstraintWorth(Eval, t, p);
    ConstraintWorth(Forward, t, p);
  }

  // It does hurt in x <= x with utility 5: `evaluate` says 0, `differentiate` says 5.
  lemma EvaluateAndDifferentiateDiffer(t: Term, x: Term, p: Point)
    requires IsNumeric(x) && t == ConstraintUtility(2, LTEConstraint(1, x, x, 1.0), Constant(0, 5.0))
    ensures WellTyped(t) && !Agreement(t, p) && Value(Eval, t, p) == 0.0 && Value(Forward, t, p) == 5.0
  {
    NumericAgree(x, p);
    Units(1.0);
    SweepsAgree(t, p);
  }

  // Under an Or it hurts although the whole constraint fails either way: (x <= x) or false is worth
  // -1 to `evaluate` and 1 to `differentiate`, so that a conjunction with it fails by different amounts.
  lemma OrLosesTheTie(t: Term, x: Term, p: Point)
    requires IsNumeric(x)
    requires t == And(4, Or(2, LTEConstraint(1, x, x, 1.0), Constant(0, -1.0)), Constant(3, -1.0))
    ensures IsConstraint(t) && !Holds(t, p, true) && !Holds(t, p, false)
    ensures !Agreement(t, p) && Value(Eval, t, p) == -2.0 && Value(Forward, t, p) == -1.0
  {
    var or, tie, no := t.left, t.left.left, t.right;
    assert IsConstraint(tie) && IsConstraint(no) && IsConstraint(or.right);
    assert Holds(tie, p, false) && !Holds(tie, p, true) && !Holds(no, p, true) && !Holds(no, p, false);
    assert Failure(tie, p, true) == 0.0 by { Units(1.0); }
    assert Failure(no, p, true) == Failure(no, p, false) == -1.0;
    OrByTie(or, tie, or.right, p);
    ConstraintWorth(Eval, t, p);
    ConstraintWorth(Forward, t, p);
    SweepsAgree(t, p);
  }

  lemma OrByTie(t: Term, tie: Term, no: Term, p: Point)
    requires t == Or(2, tie, no) && IsConstraint(tie) && IsConstraint(no)
    requires Holds(tie, p, false) && !Holds(tie, p, true) && !Holds(no, p, true)
    requires Failure(tie, p, true) == 0.0 && Failure(no, p, true) == -1.0
    ensures IsConstraint(t) && Holds(t, p, false) && !Holds(t, p, true)
    ensures Failure(t, p, true) == -1.0 && Failure(t, p, false) == 0.0 && !SameFailure(t, p)
  {
  }
}
