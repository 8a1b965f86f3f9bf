// The rules, term by term: the bounds each visit sets are met by every point inside.
module IntervalTerms {

  import opened Options
  import opened Reals
  import opened AutodiffTerms
  import opened AutodiffDag
  import opened AutodiffValues
  import opened IntervalSum
  import opened IntervalRules

  lemma OperandsIn(u: set<Term>, t: Term)
    requires Closed(u) && t in u && |Children(t)| == 2
    ensures Children(t)[0] in u && Children(t)[1] in u
  {
  }

  // Bounds for the value of a term; None is no bound.
  datatype Bounds = Bounds(lo: Option<real>, hi: Option<real>)

  function Around(i: Interval): Bounds {
    Bounds(Some(i.min), Some(i.max))
  }

  // Upwards: from the operands to the term.

  function MagnitudeBounds(i: Interval): Interval {
    var a, b := Magnitude(i.min), Magnitude(i.max);
    if Mul(i.min, i.max) <= 0.0 then Interval(0.0, Larger(a, b)) else Interval(Smaller(a, b), Larger(a, b))
  }

  lemma MagnitudeWithin(x: real, i: Interval)
    requires Within(x, i)
    ensures Within(Magnitude(x), MagnitudeBounds(i))
  {
    if Mul(i.min, i.max) > 0.0 { SignKept(i, x); }
  }

  lemma AbsUp(box: Box, u: set<Term>, t: Term)
    requires TermsOk(u) && Covers(box, u) && t in u && t.Abs?
    ensures t.arg in u
    ensures ImpliedBy(box, u, t, MagnitudeBounds(box[t.arg.id]))
  {
    hide MagnitudeBounds, Magnitude;
    assert Children(t)[0] in u;
    forall p: Point | Inside(box, u, p)
      ensures Within(Value(Forward, t, p), MagnitudeBounds(box[t.arg.id]))
    {
      MagnitudeWithin(Value(Forward, t.arg, p), box[t.arg.id]);
    }
  }

  lemma ConnectiveValues(t: Term, p: Point)
    requires IsConstraint(t) && (t.And? || t.Or? || t.Max?)
    ensures TrueOrFalse(Value(Forward, t.left, p)) && TrueOrFalse(Value(Forward, t.right, p))
    ensures TrueOrFalse(Value(Forward, t, p))
    ensures t.And? ==> (Value(Forward, t, p) > 0.0 <==> Value(Forward, t.left, p) > 0.0 && Value(Forward, t.right, p) > 0.0)
    ensures t.Max? || t.Or? ==> (Value(Forward, t, p) > 0.0 <==> Value(Forward, t.left, p) > 0.0 || Value(Forward, t.right, p) > 0.0)
  {
    hide Holds, AndValue, OrValue, Larger;
    ConstraintValue(Forward, t.left, p);
    ConstraintValue(Forward, t.right, p);
    Connectives(Forward, Value(Forward, t.left, p), Value(Forward, t.right, p));
  }

  lemma AndUp(box: Box, u: set<Term>, t: Term)
    requires TermsOk(u) && Covers(box, u) && t in u && t.And? && IsConstraint(t)
    ensures t.left in u && t.right in u
    ensures box[t.left.id].min > 0.0 && box[t.right.id].min > 0.0 ==> Implied(box, u, t, Some(1.0), Some(1.0))
    ensures box[t.left.id].max <= 0.0 || box[t.right.id].max <= 0.0 ==> Implied(box, u, t, None, Some(0.0))
  {
    hide Value, IsConstraint;
    OperandsIn(u, t);
    forall p: Point ensures TrueOrFalse(Value(Forward, t, p))
      ensures Value(Forward, t, p) > 0.0 <==> Value(Forward, t.left, p) > 0.0 && Value(Forward, t.right, p) > 0.0
    {
      ConnectiveValues(t, p);
    }
  }

  lemma OrUp(box: Box, u: set<Term>, t: Term)
    requires TermsOk(u) && Covers(box, u) && t in u && t.Or? && IsConstraint(t)
    ensures t.left in u && t.right in u
    ensures box[t.left.id].min > 0.0 || box[t.right.id].min > 0.0 ==> Implied(box, u, t, Some(1.0), Some(1.0))
    ensures box[t.left.id].max <= 0.0 && box[t.right.id].max <= 0.0 ==> Implied(box, u, t, None, Some(0.0))
  {
    hide Value, IsConstraint;
    OperandsIn(u, t);
    forall p: Point ensures TrueOrFalse(Value(Forward, t, p))
      ensures Value(Forward, t, p) > 0.0 <==> Value(Forward, t.left, p) > 0.0 || Value(Forward, t.right, p) > 0.0
    {
      ConnectiveValues(t, p);
    }
  }

  lemma ComparisonValue(t: Term, p: Point)
    requires (t.LTConstraint? || t.LTEConstraint?) && t.steepness > 0.0
    ensures TrueOrFalse(Value(Forward, t, p))
    ensures t.LTConstraint? ==> (Value(Forward, t, p) > 0.0 <==> Value(Forward, t.left, p) < Value(Forward, t.right, p))
    ensures t.LTEConstraint? ==> (Value(Forward, t, p) > 0.0 <==> Value(Forward, t.left, p) <= Value(Forward, t.right, p))
  {
    Comparisons(Forward, Value(Forward, t.left, p), Value(Forward, t.right, p), t.steepness);
  }

  lemma ComparisonUp(box: Box, u: set<Term>, t: Term)
    requires TermsOk(u) && Covers(box, u) && t in u && (t.LTConstraint? || t.LTEConstraint?) && t.steepness > 0.0
    ensures t.left in u && t.right in u
    ensures var l, r := box[t.left.id], box[t.right.id];
      && (t.LTConstraint? && l.max < r.min ==> Implied(box, u, t, Some(1.0), Some(1.0)))
      && (t.LTConstraint? && l.min >= r.max ==> Implied(box, u, t, None, Some(0.0)))
      && (t.LTEConstraint? && l.max <= r.min ==> Implied(box, u, t, Some(1.0), Some(1.0)))
      && (t.LTEConstraint? && l.min > r.max ==> Implied(box, u, t, None, Some(0.0)))
  {
    hide Value;
    OperandsIn(u, t);
    forall p: Point ensures TrueOrFalse(Value(Forward, t, p))
      ensures t.LTConstraint? ==> (Value(Forward, t, p) > 0.0 <==> Value(Forward, t.left, p) < Value(Forward, t.right, p))
      ensures t.LTEConstraint? ==> (Value(Forward, t, p) > 0.0 <==> Value(Forward, t.left, p) <= Value(Forward, t.right, p))
    {
      ComparisonValue(t, p);
    }
  }

  lemma ExtremeUp(box: Box, u: set<Term>, t: Term)
    requires TermsOk(u) && Covers(box, u) && t in u && (t.Max? || t.Min?)
    ensures t.left in u && t.right in u
    ensures var l, r := box[t.left.id], box[t.right.id];
      Implied(box, u, t, Some(Smaller(l.min, r.min)), Some(Larger(l.max, r.max)))
  {
    OperandsIn(u, t);
  }

  // The bounds of a product; a factor multiplied with itself gives no negative product.
  function ProductBounds(box: Box, l: Term, r: Term): Interval
    requires l.id in box && r.id in box
  {
    if l.id == r.id then Squares(box[l.id]) else Products(box[l.id], box[r.id])
  }

  lemma ProductUp(box: Box, u: set<Term>, t: Term)
    requires TermsOk(u) && Covers(box, u) && t in u && t.Product?
    ensures t.left in u && t.right in u
    ensures ImpliedBy(box, u, t, ProductBounds(box, t.left, t.right))
  {
    hide Mul, Products, Squares;
    OperandsIn(u, t);
    forall p: Point | Inside(box, u, p)
      ensures Within(Value(Forward, t, p), ProductBounds(box, t.left, t.right))
    {
      if t.left.id == t.right.id {
        assert t.left == t.right;
        SquareWithin(Value(Forward, t.left, p), box[t.left.id]);
      } else {
        ProductWithin(Value(Forward, t.left, p), box[t.left.id], Value(Forward, t.right, p), box[t.right.id]);
      }
    }
  }

  // An exponent of 0 bounds the power only when the base keeps its sign.
  function PowerBounds(i: Interval, e: nat): Bounds {
    if e > 0 || Mul(i.min, i.max) > 0.0 then Around(Powers(i, e)) else Bounds(None, None)
  }

  lemma PowerUp(box: Box, u: set<Term>, t: Term)
    requires TermsOk(u) && Covers(box, u) && t in u && t.ConstPower?
    ensures t.base in u
    ensures var b := PowerBounds(box[t.base.id], t.exponent); Implied(box, u, t, b.lo, b.hi)
  {
    hide Mul, Powers;
    assert Children(t)[0] in u;
    var i := box[t.base.id];
    forall p: Point | Inside(box, u, p)
      ensures var b := PowerBounds(i, t.exponent); Meets(Value(Forward, t, p), b.lo, b.hi)
    {
      if t.exponent > 0 {
        PowerWithin(Value(Forward, t.base, p), i, t.exponent);
      } else if Mul(i.min, i.max) > 0.0 {
        assert Pow(i.min, 0) == Pow(i.max, 0) == 1.0;
        assert Powers(i, 0) == Interval(1.0, 1.0) by { ZerothPowers(i); }
      }
    }
  }

  lemma ZerothPowers(i: Interval)
    requires Mul(i.min, i.max) > 0.0
    ensures Powers(i, 0) == Interval(1.0, 1.0)
  {
  }

  // The intervals and the values of the operands of a sum.

  function Row(box: Box, ts: seq<Term>): seq<Interval>
    requires forall i :: 0 <= i < |ts| ==> ts[i].id in box
  {
    seq(|ts|, i requires 0 <= i < |ts| => box[ts[i].id])
  }

  function ValuesOf(ts: seq<Term>, p: Point): seq<real> {
    seq(|ts|, i requires 0 <= i < |ts| => Value(Forward, ts[i], p))
  }

  lemma {:induction false} TotalIsSum(ts: seq<Term>, p: Point)
    ensures Total(ValuesOf(ts, p)) == SumValue(Forward, ts, p)
  {
    if ts != [] {
      TotalIsSum(ts[..|ts| - 1], p);
      assert ValuesOf(ts, p)[..|ts| - 1] == ValuesOf(ts[..|ts| - 1], p);
    }
  }

  lemma TermsIn(u: set<Term>, t: Term)
    requires Closed(u) && t in u && t.Sum?
    ensures forall i :: 0 <= i < |t.terms| ==> t.terms[i] in u
  {
    forall i | 0 <= i < |t.terms| ensures t.terms[i] in u { assert Children(t)[i] in u; }
  }

  // At a point inside, the values of the operands solve the sum.
  lemma SumSolved(box: Box, u: set<Term>, t: Term, p: Point)
    requires Closed(u) && t in u && t.Sum? && Inside(box, u, p)
    ensures forall i :: 0 <= i < |t.terms| ==> t.terms[i].id in box
    ensures Solution(ValuesOf(t.terms, p), Row(box, t.terms), box[t.id])
  {
    TermsIn(u, t);
    TotalIsSum(t.terms, p);
  }

  lemma SumUp(box: Box, u: set<Term>, t: Term)
    requires TermsOk(u) && Covers(box, u) && t in u && t.Sum?
    ensures forall i :: 0 <= i < |t.terms| ==> t.terms[i].id in box
    ensures Implied(box, u, t, Some(Mins(Row(box, t.terms))), Some(Maxs(Row(box, t.terms))))
  {
    TermsIn(u, t);
    forall p: Point | Inside(box, u, p)
      ensures Mins(Row(box, t.terms)) <= Value(Forward, t, p) <= Maxs(Row(box, t.terms))
    {
      SumSolved(box, u, t, p);
      TotalBetween(ValuesOf(t.terms, p), Row(box, t.terms));
      TotalIsSum(t.terms, p);
    }
  }

  // Downwards: from the term to its operands.

  lemma AbsDown(box: Box, u: set<Term>, t: Term)
    requires TermsOk(u) && Covers(box, u) && t in u && t.Abs?
    ensures t.arg in u && Implied(box, u, t.arg, Some(-box[t.id].max), Some(box[t.id].max))
  {
    assert Children(t)[0] in u;
  }

  lemma AndDown(box: Box, u: set<Term>, t: Term)
    requires TermsOk(u) && Covers(box, u) && t in u && t.And? && IsConstraint(t) && box[t.id].min > 0.0
    ensures Implied(box, u, t.left, Some(1.0), Some(1.0)) && Implied(box, u, t.right, Some(1.0), Some(1.0))
  {
    hide Value, IsConstraint;
    OperandsIn(u, t);
    forall p: Point | Inside(box, u, p) ensures Value(Forward, t.left, p) == 1.0 && Value(Forward, t.right, p) == 1.0 {
      ConnectiveValues(t, p);
    }
  }

  lemma ComparisonDown(box: Box, u: set<Term>, t: Term)
    requires TermsOk(u) && Covers(box, u) && t in u && (t.LTConstraint? || t.LTEConstraint?) && t.steepness > 0.0
    ensures t.left in u && t.right in u
    ensures var l, r := box[t.left.id], box[t.right.id];
      && (box[t.id].min > 0.0 ==>
            Implied(box, u, t.right, Some(l.min), None) && Implied(box, u, t.left, None, Some(r.max)))
      && (box[t.id].max <= 0.0 ==>
            Implied(box, u, t.right, None, Some(l.max)) && Implied(box, u, t.left, Some(r.min), None))
  {
    hide Value;
    OperandsIn(u, t);
    forall p: Point
      ensures Value(Forward, t, p) > 0.0 ==> Value(Forward, t.left, p) <= Value(Forward, t.right, p)
      ensures Value(Forward, t, p) <= 0.0 ==> Value(Forward, t.left, p) >= Value(Forward, t.right, p)
    {
      ComparisonValue(t, p);
    }
  }

  lemma MaxDown(box: Box, u: set<Term>, t: Term)
    requires TermsOk(u) && Covers(box, u) && t in u && t.Max? && IsConstraint(t) && box[t.id].min > 0.0
    ensures t.left in u && t.right in u
    ensures box[t.left.id].max <= 0.0 ==> Implied(box, u, t.right, Some(1.0), Some(1.0))
    ensures box[t.right.id].max <= 0.0 ==> Implied(box, u, t.left, Some(1.0), Some(1.0))
  {
    hide Value, IsConstraint;
    OperandsIn(u, t);
    forall p: Point ensures TrueOrFalse(Value(Forward, t.left, p)) && TrueOrFalse(Value(Forward, t.right, p))
      ensures Value(Forward, t, p) > 0.0 ==> Value(Forward, t.left, p) > 0.0 || Value(Forward, t.right, p) > 0.0
    {
      ConnectiveValues(t, p);
    }
  }

  // What is left of an operand of Max, when the other operand is at most 0, is at most the
  // number 1, to which the rule cuts it.
  predicate OnlyOne(operand: Interval, max: Interval) {
    var lo, hi := Larger(operand.min, max.min), Smaller(operand.max, max.max);
    lo > hi || lo == hi == 1.0
  }

  // The rule of Max for its operands, read as numbers, cuts off no value.
  predicate MaxIsSafe(box: Box, t: Term)
    requires t.Max? && t.id in box && t.left.id in box && t.right.id in box
  {
    var l, r, m := box[t.left.id], box[t.right.id], box[t.id];
    m.min > 0.0 ==> (l.max <= 0.0 ==> OnlyOne(r, m)) && (r.max <= 0.0 ==> OnlyOne(l, m))
  }

  predicate AreOperands(t: Term, one: Term, other: Term) {
    t.Max? && ((t.left == one && t.right == other) || (t.left == other && t.right == one))
  }

  lemma MaxValue(t: Term, p: Point)
    requires t.Max?
    ensures Value(Forward, t, p) == Larger(Value(Forward, t.left, p), Value(Forward, t.right, p))
  {
  }

  // Whatever the operands are, where OnlyOne holds the rule loses no point.
  lemma MaxOfNumbersDown(box: Box, u: set<Term>, t: Term, one: Term, other: Term)
    requires TermsOk(u) && Covers(box, u) && t in u && AreOperands(t, one, other)
    ensures one in u && other in u
    ensures box[t.id].min > 0.0 && box[one.id].max <= 0.0 && OnlyOne(box[other.id], box[t.id]) ==>
      Implied(box, u, other, Some(1.0), Some(1.0))
  {
    hide Value;
    OperandsIn(u, t);
    forall p: Point | Inside(box, u, p) && box[t.id].min > 0.0 && box[one.id].max <= 0.0
      ensures Within(Value(Forward, other, p), box[t.id]) && Within(Value(Forward, other, p), box[other.id])
    {
      MaxValue(t, p);
    }
  }

  // On two variables, it loses no point only there.
  lemma MaxOfVariables(box: Box, u: set<Term>, t: Term, one: Term, other: Term)
    requires BoxOk(box, u) && OneTermPerId(u) && AreOperands(t, one, other) && u == {t, one, other}
    requires one.Variable? && other.Variable? && one.id != other.id
    requires box[t.id].min > 0.0 && box[one.id].max <= 0.0
    ensures Implied(box, u, other, Some(1.0), Some(1.0)) <==> OnlyOne(box[other.id], box[t.id])
  {
    var a, b, m := box[one.id], box[other.id], box[t.id];
    var lo, hi := Larger(b.min, m.min), Smaller(b.max, m.max);
    if OnlyOne(b, m) {
      MaxOfNumbersDown(box, u, t, one, other);
    } else {
      var y := if lo != 1.0 then lo else hi;
      var p: Point := (id: nat) => if id == one.id then a.min else y;
      assert Value(Forward, one, p) == a.min && Value(Forward, other, p) == y && Value(Forward, t, p) == y;
      assert t.id != one.id && t.id != other.id;
      assert Inside(box, u, p) && !Meets(Value(Forward, other, p), Some(1.0), Some(1.0));
    }
  }

  lemma MinDown(box: Box, u: set<Term>, t: Term)
    requires TermsOk(u) && Covers(box, u) && t in u && t.Min?
    ensures Implied(box, u, t.left, Some(box[t.id].min), None) && Implied(box, u, t.right, Some(box[t.id].min), None)
  {
    OperandsIn(u, t);
  }

  lemma ProductDown(box: Box, u: set<Term>, t: Term)
    requires TermsOk(u) && Covers(box, u) && t in u && t.Product?
    ensures t.left in u && t.right in u
    ensures var l, r, c := box[t.left.id], box[t.right.id], box[t.id];
      && (SameSign(r) ==> r.min != 0.0 && r.max != 0.0 && ImpliedBy(box, u, t.left, Quotients(c, r)))
      && (SameSign(l) ==> l.min != 0.0 && l.max != 0.0 && ImpliedBy(box, u, t.right, Quotients(c, l)))
  {
    hide Mul, Quotients, SameSign;
    OperandsIn(u, t);
    var l, r, c := box[t.left.id], box[t.right.id], box[t.id];
    NonZero(l);
    NonZero(r);
    forall p: Point | Inside(box, u, p)
      ensures SameSign(r) ==> Within(Value(Forward, t.left, p), Quotients(c, r))
      ensures SameSign(l) ==> Within(Value(Forward, t.right, p), Quotients(c, l))
    {
      var x, y := Value(Forward, t.left, p), Value(Forward, t.right, p);
      assert Value(Forward, t, p) == Mul(x, y);
      Commutes(x, y);
      if SameSign(r) { QuotientWithin(x, y, c, r); }
      if SameSign(l) { QuotientWithin(y, x, c, l); }
    }
  }

  lemma NonZero(i: Interval)
    ensures SameSign(i) ==> i.min != 0.0 && i.max != 0.0
  {
  }

  // Operand i of a sum is left what the sum and the other operands leave to it.
  lemma SumDown(box: Box, u: set<Term>, t: Term, i: nat)
    requires TermsOk(u) && Covers(box, u) && t in u && t.Sum? && i < |t.terms|
    ensures t.terms[i] in u && forall k :: 0 <= k < |t.terms| ==> t.terms[k].id in box
    ensures var row, sum := Row(box, t.terms), box[t.id];
      Implied(box, u, t.terms[i], Some(sum.min - (Maxs(row) - row[i].max)), Some(sum.max - (Mins(row) - row[i].min)))
  {
    TermsIn(u, t);
    var row, sum := Row(box, t.terms), box[t.id];
    forall p: Point | Inside(box, u, p)
      ensures Within(Value(Forward, t.terms[i], p), Interval(sum.min - (Maxs(row) - row[i].max), sum.max - (Mins(row) - row[i].min)))
    {
      SumSolved(box, u, t, p);
      NarrowedKeeps(ValuesOf(t.terms, p), row, i, sum);
      assert Within(ValuesOf(t.terms, p)[i], row[i := Narrowed(row, i, sum)][i]);
    }
  }

  // Narrowing operand i narrows only entry i of the row.
  lemma RowUpdated(box: Box, ts: seq<Term>, i: nat, x: Interval)
    requires DistinctIds(ts) && i < |ts| && forall k :: 0 <= k < |ts| ==> ts[k].id in box
    ensures Row(box[ts[i].id := x], ts) == Row(box, ts)[i := x]
  {
    var after := box[ts[i].id := x];
    forall k | 0 <= k < |ts| ensures Row(after, ts)[k] == Row(box, ts)[i := x][k] {
      assert k < i ==> ts[k].id != ts[i].id;
      assert k > i ==> ts[i].id != ts[k].id;
    }
  }

  // What the visits do to the box.

  predicate KnowsOperands(box: Box, t: Term) {
    forall k :: 0 <= k < |Children(t)| ==> Children(t)[k].id in box
  }

  function TruthBounds(holds: bool): Bounds {
    if holds then Bounds(Some(1.0), Some(1.0)) else Bounds(None, Some(0.0))
  }

  // The bounds an upward visit sets on t.
  function UpBounds(box: Box, t: Term): Bounds
    requires KnowsOperands(box, t)
  {
    if t.Sum? then Around(Interval(Mins(Row(box, Children(t))), Maxs(Row(box, Children(t)))))
    else if |Children(t)| == 1 then
      var i := box[Children(t)[0].id];
      if t.Abs? then Around(MagnitudeBounds(i)) else if t.ConstPower? then PowerBounds(i, t.exponent) else Bounds(None, None)
    else if |Children(t)| == 2 then
      var l, r := box[Children(t)[0].id], box[Children(t)[1].id];
      match t
      case And(_, _, _) =>
        if l.min > 0.0 && r.min > 0.0 then TruthBounds(true)
        else if l.max <= 0.0 || r.max <= 0.0 then TruthBounds(false) else Bounds(None, None)
      case Or(_, _, _) =>
        if l.min > 0.0 || r.min > 0.0 then TruthBounds(true)
        else if l.max <= 0.0 && r.max <= 0.0 then TruthBounds(false) else Bounds(None, None)
      case LTConstraint(_, _, _, _) =>
        if l.max < r.min then TruthBounds(true) else if l.min >= r.max then TruthBounds(false) else Bounds(None, None)
      case LTEConstraint(_, _, _, _) =>
        if l.max <= r.min then TruthBounds(true) else if l.min > r.max then TruthBounds(false) else Bounds(None, None)
      case Max(_, _, _) => Around(Interval(Smaller(l.min, r.min), Larger(l.max, r.max)))
      case Min(_, _, _) => Around(Interval(Smaller(l.min, r.min), Larger(l.max, r.max)))
      case Product(_, _, _) => Around(ProductBounds(box, Children(t)[0], Children(t)[1]))
      case _ => Bounds(None, None)
    else Bounds(None, None)
  }

  function CutAt(box: Box, t: Term, b: Bounds): Box
    requires t.id in box
  {
    box[t.id := Cut(box[t.id], b.lo, b.hi)]
  }

  lemma NoBounds(box: Box, t: Term)
    requires t.id in box
    ensures CutAt(box, t, Bounds(None, None)) == box
  {
    assert box[t.id] == Interval(box[t.id].min, box[t.id].max);
  }

  // The box after a downward visit to t, which is no sum, narrowed its operands.
  function DownBox(box: Box, t: Term): Box
    requires KnowsOperands(box, t) && t.id in box && !t.Sum?
  {
    if |Children(t)| == 1 then
      var a := Children(t)[0];
      if t.Abs? then CutAt(box, a, Bounds(Some(-box[t.id].max), Some(box[t.id].max))) else box
    else if |Children(t)| == 2 then
      var l, r, i := Children(t)[0], Children(t)[1], box[t.id];
      match t
      case And(_, _, _) =>
        if i.min > 0.0 then CutAt(CutAt(box, l, TruthBounds(true)), r, TruthBounds(true)) else box
      case LTConstraint(_, _, _, _) => DownComparisonBox(box, i, l, r)
      case LTEConstraint(_, _, _, _) => DownComparisonBox(box, i, l, r)
      case Max(_, _, _) =>
        if i.min <= 0.0 then box
        else
          var first := if box[l.id].max <= 0.0 then CutAt(box, r, TruthBounds(true)) else box;
          if first[r.id].max <= 0.0 then CutAt(first, l, TruthBounds(true)) else first
      case Min(_, _, _) =>
        CutAt(CutAt(box, l, Bounds(Some(i.min), None)), r, Bounds(Some(i.min), None))
      case Product(_, _, _) =>
        NonZero(box[r.id]);
        var first := if SameSign(box[r.id]) then CutAt(box, l, Around(Quotients(i, box[r.id]))) else box;
        NonZero(first[l.id]);
        if SameSign(first[l.id]) then CutAt(first, r, Around(Quotients(first[t.id], first[l.id]))) else first
      case _ => box
    else box
  }

  // A comparison that holds orders the intervals of its operands, one that fails the other way.
  function DownComparisonBox(box: Box, i: Interval, l: Term, r: Term): Box
    requires l.id in box && r.id in box
  {
    if i.min > 0.0 then
      var first := CutAt(box, r, Bounds(Some(box[l.id].min), None));
      CutAt(first, l, Bounds(None, Some(first[r.id].max)))
    else if i.max <= 0.0 then
      var first := CutAt(box, r, Bounds(None, Some(box[l.id].max)));
      CutAt(first, l, Bounds(Some(first[r.id].min), None))
    else box
  }

  // A visit to a Max of two variables loses no point exactly where its rule is safe.
  lemma MaxVisitExactly(box: Box, u: set<Term>, t: Term)
    requires BoxOk(box, u) && OneTermPerId(u) && t.Max? && u == {t, t.left, t.right}
    requires t.left.Variable? && t.right.Variable? && t.left.id != t.right.id
    ensures KnowsOperands(box, t)
    ensures (forall p: Point :: Inside(box, u, p) ==> Inside(DownBox(box, t), u, p)) <==> MaxIsSafe(box, t)
  {
    hide Value;
    var l, r, m := box[t.left.id], box[t.right.id], box[t.id];
    assert Children(t)[0] == t.left && Children(t)[1] == t.right;
    assert t.id != t.left.id && t.id != t.right.id;
    if m.min > 0.0 && l.max <= 0.0 { MaxOfVariables(box, u, t, t.left, t.right); }
    if m.min > 0.0 && r.max <= 0.0 { MaxOfVariables(box, u, t, t.right, t.left); }
  }

  // An instance: max(x, y) lies in [2, 3] and x in [-1, 0], so y can be 2, which the rule cuts off.
  lemma MaxOfNumbersIsUnsound(u: set<Term>, t: Term, box: Box)
    requires t == Max(2, Variable(0), Variable(1)) && u == {t, t.left, t.right}
    requires box == map[0 := Interval(-1.0, 0.0), 1 := Interval(0.0, 5.0), 2 := Interval(2.0, 3.0)]
    ensures BoxOk(box, u) && !MaxIsSafe(box, t)
    ensures KnowsOperands(box, t) && exists p: Point :: Inside(box, u, p) && !Inside(DownBox(box, t), u, p)
  {
    MaxVisitExactly(box, u, t);
  }

  // The rules are as tight as their operands allow.

  lemma MagnitudeIsTight(i: Interval)
    requires NonEmpty(i)
    ensures exists x :: Within(x, i) && Magnitude(x) == MagnitudeBounds(i).min
    ensures exists x :: Within(x, i) && Magnitude(x) == MagnitudeBounds(i).max
  {
    assert Within(i.min, i) && Within(i.max, i);
    SignOf(i);
    if Mul(i.min, i.max) <= 0.0 {
      assert Within(0.0, i) && Magnitude(0.0) == 0.0;
    }
  }

  lemma SignOf(i: Interval)
    requires NonEmpty(i)
    ensures i.min > 0.0 || i.max < 0.0 ==> Mul(i.min, i.max) > 0.0
  {
  }

  lemma ProductsAreTight(a: Interval, b: Interval)
    requires NonEmpty(a) && NonEmpty(b)
    ensures exists x, y :: Within(x, a) && Within(y, b) && Mul(x, y) == Products(a, b).min
    ensures exists x, y :: Within(x, a) && Within(y, b) && Mul(x, y) == Products(a, b).max
  {
    hide Mul;
    assert Within(a.min, a) && Within(a.max, a) && Within(b.min, b) && Within(b.max, b);
  }

  lemma PowersAreTight(i: Interval, e: nat)
    requires NonEmpty(i) && e > 0
    ensures exists x :: Within(x, i) && Pow(x, e) == Powers(i, e).min
    ensures exists x :: Within(x, i) && Pow(x, e) == Powers(i, e).max
  {
    assert Within(i.min, i) && Within(i.max, i);
    SignOf(i);
    if Mul(i.min, i.max) <= 0.0 {
      Units(Pow(0.0, e - 1));
      assert Within(0.0, i) && Pow(0.0, e) == 0.0;
    }
  }

  lemma QuotientsAreTight(a: Interval, b: Interval)
    requires NonEmpty(a) && NonEmpty(b) && b.min != 0.0 && b.max != 0.0
    ensures exists x, y :: Within(Mul(x, y), a) && Within(y, b) && x == Quotients(a, b).min
    ensures exists x, y :: Within(Mul(x, y), a) && Within(y, b) && x == Quotients(a, b).max
  {
    hide Mul;
    Divides(a.min, b.min); Divides(a.min, b.max); Divides(a.max, b.min); Divides(a.max, b.max);
    assert Within(a.min, a) && Within(a.max, a) && Within(b.min, b) && Within(b.max, b);
  }

  lemma Divides(x: real, y: real)
    requires y != 0.0
    ensures Mul(x / y, y) == x
  {
  }

  lemma SumsAreTight(row: seq<Interval>)
    requires AllNonEmpty(row)
    ensures exists v :: Solution(v, row, Interval(Mins(row), Mins(row)))
    ensures exists v :: Solution(v, row, Interval(Maxs(row), Maxs(row)))
  {
    MinsBelowMaxs(row);
    FillFits(row, Mins(row));
    FillFits(row, Maxs(row));
    assert Solution(Fill(row, Mins(row)), row, Interval(Mins(row), Mins(row)));
    assert Solution(Fill(row, Maxs(row)), row, Interval(Maxs(row), Maxs(row)));
  }
}
