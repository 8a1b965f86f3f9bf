// What visits achieve, on the intervals before and after them. Later narrowing keeps it.
module IntervalEffects {

  import opened Options
  import opened Reals
  import opened AutodiffTerms
  import opened AutodiffDag
  import opened AutodiffValues
  import opened IntervalSum
  import opened IntervalRules
  import opened IntervalTerms

  predicate Tighter(a: Interval, b: Interval) {
    b.min <= a.min && a.max <= b.max
  }

  predicate IsOne(i: Interval) {
    1.0 <= i.min && i.max <= 1.0
  }

  // Every interval of after is within the one of before, and neither box has an empty one.
  predicate Shrinks(before: Box, after: Box, u: set<Term>) {
    BoxOk(before, u) && BoxOk(after, u) && forall t :: t in u ==> Tighter(after[t.id], before[t.id])
  }

  predicate Holding(box: Box, t: Term) {
    t.id in box && KnowsOperands(box, t)
  }

  // Upwards: what the operands before say about t after.
  predicate Raised(before: Box, after: Box, t: Term) {
    && Holding(before, t) && Holding(after, t)
    && var i := after[t.id];
       match t
       case Sum(_, ts) => Tighter(i, Interval(Mins(Row(before, Children(t))), Maxs(Row(before, Children(t)))))
       case Abs(_, _) => Tighter(i, MagnitudeBounds(before[Children(t)[0].id]))
       case ConstPower(_, _, e) => e > 0 ==> Tighter(i, Powers(before[Children(t)[0].id], e))
       case Product(_, _, _) => Tighter(i, ProductBounds(before, Children(t)[0], Children(t)[1]))
       case Variable(_) => true
       case Constant(_, _) => true
       case Zero(_) => true
       case ConstraintUtility(_, _, _) => true
       case _ => RaisedByTwo(before[Children(t)[0].id], before[Children(t)[1].id], i, t)
  }

  predicate RaisedByTwo(l: Interval, r: Interval, i: Interval, t: Term) {
    match t
    case Max(_, _, _) => Smaller(l.min, r.min) <= i.min && i.max <= Larger(l.max, r.max)
    case Min(_, _, _) => Smaller(l.min, r.min) <= i.min && i.max <= Larger(l.max, r.max)
    case And(_, _, _) =>
      (l.min > 0.0 && r.min > 0.0 ==> IsOne(i)) && (l.max <= 0.0 || r.max <= 0.0 ==> i.max <= 0.0)
    case Or(_, _, _) =>
      (l.min > 0.0 || r.min > 0.0 ==> IsOne(i)) && (l.max <= 0.0 && r.max <= 0.0 ==> i.max <= 0.0)
    case LTConstraint(_, _, _, _) => (l.max < r.min ==> IsOne(i)) && (l.min >= r.max ==> i.max <= 0.0)
    case LTEConstraint(_, _, _, _) => (l.max <= r.min ==> IsOne(i)) && (l.min > r.max ==> i.max <= 0.0)
    case _ => true
  }

  // Downwards: what t and its operands before say about the operands after.
  predicate Lowered(before: Box, after: Box, t: Term) {
    && Holding(before, t) && Holding(after, t)
    && var i := before[t.id];
       match t
       case Sum(_, _) =>
         forall k {:trigger Row(after, Children(t))[k]} :: 0 <= k < |Children(t)| ==>
           Tighter(Row(after, Children(t))[k], Narrowed(Row(before, Children(t)), k, i))
       case Abs(_, _) => Tighter(after[Children(t)[0].id], Interval(-i.max, i.max))
       case ConstPower(_, _, _) => true
       case Variable(_) => true
       case Constant(_, _) => true
       case Zero(_) => true
       case ConstraintUtility(_, _, _) => true
       case _ =>
         var l, r := Children(t)[0].id, Children(t)[1].id;
         LoweredToTwo(before[l], before[r], i, after[l], after[r], t)
  }

  predicate LoweredToTwo(l: Interval, r: Interval, i: Interval, newL: Interval, newR: Interval, t: Term) {
    match t
    case And(_, _, _) => i.min > 0.0 ==> IsOne(newL) && IsOne(newR)
    case LTConstraint(_, _, _, _) => Ordered(l, r, i, newL, newR)
    case LTEConstraint(_, _, _, _) => Ordered(l, r, i, newL, newR)
    case Max(_, _, _) => i.min > 0.0 ==> (l.max <= 0.0 ==> IsOne(newR)) && (r.max <= 0.0 ==> IsOne(newL))
    case Min(_, _, _) => i.min <= newL.min && i.min <= newR.min
    case Product(_, _, _) =>
      && (SameSign(r) ==> r.min != 0.0 && r.max != 0.0 && Tighter(newL, Quotients(i, r)))
      && (SameSign(l) ==> l.min != 0.0 && l.max != 0.0 && Tighter(newR, Quotients(i, l)))
    case _ => true
  }

  // A comparison that holds puts the right operand above the left one, one that fails below it.
  predicate Ordered(l: Interval, r: Interval, i: Interval, newL: Interval, newR: Interval) {
    && (i.min > 0.0 ==> l.min <= newR.min && newL.max <= r.max)
    && (i.max <= 0.0 ==> newR.max <= l.max && r.min <= newL.min)
  }

  // Narrower operands give narrower bounds.

  lemma ProductsNarrow(a: Interval, a0: Interval, b: Interval, b0: Interval)
    requires NonEmpty(a) && NonEmpty(b) && Tighter(a, a0) && Tighter(b, b0)
    ensures Tighter(Products(a, b), Products(a0, b0))
  {
    hide Mul;
    ProductWithin(a.min, a0, b.min, b0);
    ProductWithin(a.min, a0, b.max, b0);
    ProductWithin(a.max, a0, b.min, b0);
    ProductWithin(a.max, a0, b.max, b0);
    ProductsOf(a, b);
  }

  lemma ProductsOf(a: Interval, b: Interval)
    ensures var i, p, q, r, s := Products(a, b), Mul(a.min, b.min), Mul(a.min, b.max), Mul(a.max, b.min), Mul(a.max, b.max);
      (i.min == p || i.min == q || i.min == r || i.min == s) && (i.max == p || i.max == q || i.max == r || i.max == s)
  {
    hide Mul;
  }

  lemma KeepsZero(a: Interval, a0: Interval)
    requires NonEmpty(a) && Tighter(a, a0)
    ensures Mul(a.min, a.max) <= 0.0 ==> Within(0.0, a) && Within(0.0, a0)
    ensures SameSign(a0) ==> SameSign(a) && a.min != 0.0 && a.max != 0.0
  {
    SignOf(a);
    if SameSign(a0) {
      SignKept(a0, a.min);
      SignKept(a0, a.max);
    }
  }

  lemma SquaresNarrow(a: Interval, a0: Interval)
    requires NonEmpty(a) && Tighter(a, a0)
    ensures Tighter(Squares(a), Squares(a0))
  {
    hide Mul, SameSign;
    KeepsZero(a, a0);
    SquareWithin(a.min, a0);
    SquareWithin(a.max, a0);
    Units(0.0);
    if Mul(a.min, a.max) <= 0.0 { SquareWithin(0.0, a0); }
  }

  lemma PowersNarrow(a: Interval, a0: Interval, e: nat)
    requires NonEmpty(a) && Tighter(a, a0) && e > 0
    ensures Tighter(Powers(a, e), Powers(a0, e))
  {
    hide Mul, SameSign, Pow;
    KeepsZero(a, a0);
    PowerWithin(a.min, a0, e);
    PowerWithin(a.max, a0, e);
    if Mul(a.min, a.max) <= 0.0 {
      PowerWithin(0.0, a0, e);
      ZeroPower(e);
    }
  }

  lemma ZeroPower(e: nat)
    requires e > 0
    ensures Pow(0.0, e) == 0.0
  {
    Units(Pow(0.0, e - 1));
  }

  lemma MagnitudesNarrow(a: Interval, a0: Interval)
    requires NonEmpty(a) && Tighter(a, a0)
    ensures Tighter(MagnitudeBounds(a), MagnitudeBounds(a0))
  {
    hide Mul, SameSign;
    KeepsZero(a, a0);
    MagnitudeWithin(a.min, a0);
    MagnitudeWithin(a.max, a0);
    if Mul(a.min, a.max) <= 0.0 { MagnitudeWithin(0.0, a0); }
  }

  lemma QuotientsNarrow(a: Interval, a0: Interval, b: Interval, b0: Interval)
    requires NonEmpty(a) && NonEmpty(b) && Tighter(a, a0) && Tighter(b, b0) && SameSign(b0)
    requires b.min != 0.0 && b.max != 0.0 && b0.min != 0.0 && b0.max != 0.0
    ensures Tighter(Quotients(a, b), Quotients(a0, b0))
  {
    hide Mul, SameSign;
    Divides(a.min, b.min); Divides(a.min, b.max); Divides(a.max, b.min); Divides(a.max, b.max);
    QuotientWithin(a.min / b.min, b.min, a0, b0);
    QuotientWithin(a.min / b.max, b.max, a0, b0);
    QuotientWithin(a.max / b.min, b.min, a0, b0);
    QuotientWithin(a.max / b.max, b.max, a0, b0);
    QuotientsOf(a, b);
  }

  lemma QuotientsOf(a: Interval, b: Interval)
    requires b.min != 0.0 && b.max != 0.0
    ensures var i, p, q, r, s := Quotients(a, b), a.min / b.min, a.min / b.max, a.max / b.min, a.max / b.max;
      (i.min == p || i.min == q || i.min == r || i.min == s) && (i.max == p || i.max == q || i.max == r || i.max == s)
  {
  }

  predicate RowTighter(a: seq<Interval>, b: seq<Interval>) {
    |a| == |b| && forall i :: 0 <= i < |a| ==> Tighter(a[i], b[i])
  }

  lemma {:induction false} SumsNarrow(a: seq<Interval>, b: seq<Interval>)
    requires RowTighter(a, b)
    ensures Mins(b) <= Mins(a) && Maxs(a) <= Maxs(b)
  {
    if a != [] {
      SumsNarrow(a[..|a| - 1], b[..|b| - 1]);
    }
  }

  lemma NarrowedNarrows(a: seq<Interval>, b: seq<Interval>, k: nat, i: Interval, j: Interval)
    requires RowTighter(a, b) && Tighter(i, j) && k < |a|
    ensures Tighter(Narrowed(a, k, i), Narrowed(b, k, j))
  {
    var none := Interval(0.0, 0.0);
    UpdateSums(a, k, none);
    UpdateSums(b, k, none);
    SumsNarrow(a[k := none], b[k := none]);
  }

  lemma RowsTighter(box: Box, after: Box, ts: seq<Term>)
    requires forall k :: 0 <= k < |ts| ==> ts[k].id in box && ts[k].id in after && Tighter(after[ts[k].id], box[ts[k].id])
    ensures RowTighter(Row(after, ts), Row(box, ts))
  {
  }

  // What a visit achieved in the middle of a run is achieved by the run.

  ghost predicate RowShrinks(before: Box, after: Box, t: Term) {
    && Holding(before, t) && Holding(after, t)
    && Tighter(after[t.id], before[t.id]) && NonEmpty(after[t.id])
    && forall k :: 0 <= k < |Children(t)| ==>
      Tighter(after[Children(t)[k].id], before[Children(t)[k].id]) && NonEmpty(after[Children(t)[k].id])
  }

  lemma ShrinksAt(before: Box, after: Box, u: set<Term>, t: Term)
    requires Shrinks(before, after, u) && Closed(u) && t in u
    ensures RowShrinks(before, after, t)
  {
    forall k | 0 <= k < |Children(t)| ensures Children(t)[k] in u {}
  }

  lemma RaisedStays(old0: Box, b: Box, c: Box, now: Box, t: Term)
    requires Raised(b, c, t) && RowShrinks(old0, b, t) && RowShrinks(c, now, t)
    ensures Raised(old0, now, t)
  {
    hide Products, Squares, Powers, MagnitudeBounds, Mul, Row, Mins, Maxs;
    match t
    case Sum(_, ts) =>
      RowsTighter(old0, b, Children(t));
      SumsNarrow(Row(b, Children(t)), Row(old0, Children(t)));
    case Abs(_, _) => MagnitudesNarrow(b[Children(t)[0].id], old0[Children(t)[0].id]);
    case ConstPower(_, _, e) => if e > 0 { PowersNarrow(b[Children(t)[0].id], old0[Children(t)[0].id], e); }
    case Product(_, _, _) =>
      var l, r := Children(t)[0].id, Children(t)[1].id;
      ProductsNarrow(b[l], old0[l], b[r], old0[r]);
      SquaresNarrow(b[l], old0[l]);
    case _ =>
  }

  lemma LoweredStays(old0: Box, b: Box, c: Box, now: Box, t: Term)
    requires Lowered(b, c, t) && RowShrinks(old0, b, t) && RowShrinks(c, now, t)
    ensures Lowered(old0, now, t)
  {
    hide Quotients, SameSign, Row, Narrowed;
    match t
    case Sum(_, ts) => LoweredSumStays(old0, b, c, now, t);
    case Product(_, _, _) =>
      var l, r := Children(t)[0].id, Children(t)[1].id;
      QuotientStays(old0[t.id], b[t.id], old0[r], b[r], c[l], now[l]);
      QuotientStays(old0[t.id], b[t.id], old0[l], b[l], c[r], now[r]);
    case _ =>
  }

  lemma QuotientStays(a0: Interval, a: Interval, b0: Interval, b: Interval, x: Interval, now: Interval)
    requires NonEmpty(a) && NonEmpty(b) && Tighter(a, a0) && Tighter(b, b0) && Tighter(now, x)
    requires SameSign(b) ==> b.min != 0.0 && b.max != 0.0 && Tighter(x, Quotients(a, b))
    ensures SameSign(b0) ==> b0.min != 0.0 && b0.max != 0.0 && Tighter(now, Quotients(a0, b0))
  {
    hide Quotients, SameSign;
    NonZero(b0);
    if SameSign(b0) {
      KeepsZero(b, b0);
      QuotientsNarrow(a, a0, b, b0);
    }
  }

  lemma LoweredSumStays(old0: Box, b: Box, c: Box, now: Box, t: Term)
    requires t.Sum? && Lowered(b, c, t) && RowShrinks(old0, b, t) && RowShrinks(c, now, t)
    ensures Lowered(old0, now, t)
  {
    hide Narrowed;
    RowsTighter(old0, b, Children(t));
    forall k | 0 <= k < |Children(t)|
      ensures Tighter(Row(now, Children(t))[k], Narrowed(Row(old0, Children(t)), k, old0[t.id]))
    {
      NarrowedNarrows(Row(b, Children(t)), Row(old0, Children(t)), k, b[t.id], old0[t.id]);
      assert Tighter(Row(c, Children(t))[k], Narrowed(Row(b, Children(t)), k, b[t.id]));
    }
  }

  // From what the visits set.

  lemma UpRaises(box: Box, t: Term)
    requires Holding(box, t) && RisesSoundly(t)
    requires var after := CutAt(box, t, UpBounds(box, t)); NonEmpty(after[t.id])
    requires forall k :: 0 <= k < |Children(t)| ==> Children(t)[k].id != t.id && NonEmpty(box[Children(t)[k].id])
    ensures Raised(box, CutAt(box, t, UpBounds(box, t)), t)
  {
    hide Products, Squares, Powers, MagnitudeBounds, Mul, Row, Mins, Maxs;
  }

  lemma DownLowers(box: Box, t: Term)
    requires Holding(box, t) && !t.Sum? && SinksOk(box, t) && NonEmpty(box[t.id])
    requires forall k :: 0 <= k < |Children(t)| ==> Children(t)[k].id != t.id
    requires var after := DownBox(box, t);
      forall k :: 0 <= k < |Children(t)| ==> Children(t)[k].id in after && NonEmpty(after[Children(t)[k].id])
    ensures Lowered(box, DownBox(box, t), t)
  {
    hide Quotients, SameSign, Mul;
    if t.Product? {
      DownProductLowers(box, t);
    } else if |Children(t)| == 2 {
      DownTwoLowers(box, t);
    }
  }

  lemma DownTwoLowers(box: Box, t: Term)
    requires Holding(box, t) && !t.Sum? && !t.Product? && |Children(t)| == 2 && NonEmpty(box[t.id])
    requires forall k :: 0 <= k < |Children(t)| ==> Children(t)[k].id != t.id
    ensures Lowered(box, DownBox(box, t), t)
  {
    hide DownBox, LoweredToTwo;
    var l, r := Children(t)[0], Children(t)[1];
    DownKeys(box, t);
    NothingLowered(box[l.id], box[r.id], box[t.id], t);
    if t.And? {
      DownAndLowers(box, t);
    } else if t.LTConstraint? || t.LTEConstraint? {
      DownComparisonLowers(box, t);
    } else if t.Max? {
      DownMaxLowers(box, t);
    } else if t.Min? {
      DownMinLowers(box, t);
    }
  }

  lemma NothingLowered(l: Interval, r: Interval, i: Interval, t: Term)
    ensures !t.And? && !t.LTConstraint? && !t.LTEConstraint? && !t.Max? && !t.Min? && !t.Product? ==>
      forall newL, newR :: LoweredToTwo(l, r, i, newL, newR, t)
  {
  }

  lemma DownKeys(box: Box, t: Term)
    requires Holding(box, t) && !t.Sum?
    ensures Holding(DownBox(box, t), t)
  {
  }

  lemma DownAndLowers(box: Box, t: Term)
    requires Holding(box, t) && t.And? && |Children(t)| == 2
    ensures Holding(DownBox(box, t), t)
    ensures var l, r, after := Children(t)[0].id, Children(t)[1].id, DownBox(box, t);
      LoweredToTwo(box[l], box[r], box[t.id], after[l], after[r], t)
  {
    DownKeys(box, t);
  }

  lemma DownComparisonLowers(box: Box, t: Term)
    requires Holding(box, t) && (t.LTConstraint? || t.LTEConstraint?) && |Children(t)| == 2 && NonEmpty(box[t.id])
    ensures Holding(DownBox(box, t), t)
    ensures var l, r, after := Children(t)[0].id, Children(t)[1].id, DownBox(box, t);
      LoweredToTwo(box[l], box[r], box[t.id], after[l], after[r], t)
  {
    DownKeys(box, t);
    var l, r := Children(t)[0], Children(t)[1];
    var after := DownComparisonBox(box, box[t.id], l, r);
    assert DownBox(box, t) == after;
    ComparisonOrders(box, box[t.id], l, r);
  }

  lemma ComparisonOrders(box: Box, i: Interval, l: Term, r: Term)
    requires l.id in box && r.id in box && NonEmpty(i)
    ensures var after := DownComparisonBox(box, i, l, r);
      l.id in after && r.id in after && Ordered(box[l.id], box[r.id], i, after[l.id], after[r.id])
  {
  }

  lemma DownMaxLowers(box: Box, t: Term)
    requires Holding(box, t) && t.Max? && |Children(t)| == 2
    ensures Holding(DownBox(box, t), t)
    ensures var l, r, after := Children(t)[0].id, Children(t)[1].id, DownBox(box, t);
      LoweredToTwo(box[l], box[r], box[t.id], after[l], after[r], t)
  {
    DownKeys(box, t);
  }

  lemma DownMinLowers(box: Box, t: Term)
    requires Holding(box, t) && t.Min? && |Children(t)| == 2
    ensures Holding(DownBox(box, t), t)
    ensures var l, r, after := Children(t)[0].id, Children(t)[1].id, DownBox(box, t);
      LoweredToTwo(box[l], box[r], box[t.id], after[l], after[r], t)
  {
    DownKeys(box, t);
  }

  predicate SinksOk(box: Box, t: Term) {
    t.Product? ==> |Children(t)| == 2 && Children(t)[0].id != Children(t)[1].id
  }

  lemma DownProductLowers(box: Box, t: Term)
    requires Holding(box, t) && t.Product? && SinksOk(box, t) && NonEmpty(box[t.id])
    requires forall k :: 0 <= k < |Children(t)| ==> Children(t)[k].id != t.id
    requires var after := DownBox(box, t);
      forall k :: 0 <= k < |Children(t)| ==> Children(t)[k].id in after && NonEmpty(after[Children(t)[k].id])
    ensures Lowered(box, DownBox(box, t), t)
  {
    hide Quotients, SameSign, Mul;
    var l, r := Children(t)[0], Children(t)[1];
    NonZero(box[l.id]);
    NonZero(box[r.id]);
    var first := if SameSign(box[r.id]) then CutAt(box, l, Around(Quotients(box[t.id], box[r.id]))) else box;
    NonZero(first[l.id]);
    assert Tighter(first[l.id], box[l.id]);
    if SameSign(box[l.id]) {
      KeepsZero(first[l.id], box[l.id]);
      QuotientsNarrow(box[t.id], box[t.id], first[l.id], box[l.id]);
    }
  }

  lemma SumLowers(before: Box, after: Box, t: Term)
    requires t.Sum? && Holding(before, t) && Holding(after, t) && NonEmpty(before[t.id])
    requires forall k :: 0 <= k < |Children(t)| ==>
      Projection(Row(after, Children(t))[k], Row(before, Children(t)), before[t.id], k)
    ensures Lowered(before, after, t)
  {
    forall k | 0 <= k < |Children(t)|
      ensures Tighter(Row(after, Children(t))[k], Narrowed(Row(before, Children(t)), k, before[t.id]))
    {
      ProjectionTighter(Row(after, Children(t))[k], Row(before, Children(t)), before[t.id], k);
    }
  }

  lemma ProjectionTighter(x: Interval, row: seq<Interval>, sum: Interval, i: nat)
    requires i < |row| && Projection(x, row, sum, i)
    ensures Tighter(x, Narrowed(row, i, sum))
  {
    hide Narrowed;
    var v :| Solution(v, row, sum) && v[i] == x.min;
    var w :| Solution(w, row, sum) && w[i] == x.max;
    InNarrowed(v, row, sum, i);
    InNarrowed(w, row, sum, i);
  }

  lemma InNarrowed(v: seq<real>, row: seq<Interval>, sum: Interval, i: nat)
    requires i < |row| && Solution(v, row, sum)
    ensures |v| == |row| && Within(v[i], Narrowed(row, i, sum))
  {
    NarrowedKeeps(v, row, i, sum);
    assert Within(v[i], row[i := Narrowed(row, i, sum)][i]);
  }

  // Boxes that no visit can narrow without emptying an interval.

  predicate Disjoint(a: Interval, b: Interval) {
    a.max < b.min || b.max < a.min
  }

  predicate Hopeless(box: Box, t: Term) {
    && Holding(box, t)
    && var i := box[t.id];
       match t
       case Sum(_, _) => Children(t) != [] && !Feasible(Row(box, Children(t)), i)
       case Abs(_, _) => Disjoint(i, MagnitudeBounds(box[Children(t)[0].id]))
       case Product(_, _, _) => Disjoint(i, ProductBounds(box, Children(t)[0], Children(t)[1]))
       case And(_, _, _) => i.min > 0.0 && (!Within(1.0, box[Children(t)[0].id]) || !Within(1.0, box[Children(t)[1].id]))
       case LTConstraint(_, _, _, _) => Opposed(box[Children(t)[0].id], box[Children(t)[1].id], i)
       case LTEConstraint(_, _, _, _) => Opposed(box[Children(t)[0].id], box[Children(t)[1].id], i)
       case Min(_, _, _) => i.min > box[Children(t)[0].id].max || i.min > box[Children(t)[1].id].max
       case _ => false
  }

  // The comparison holds and its left operand is above the right one, or the other way round.
  predicate Opposed(l: Interval, r: Interval, i: Interval) {
    (i.min > 0.0 && l.min > r.max) || (i.max <= 0.0 && l.max < r.min)
  }

  lemma HopelessEmpties(before: Box, after: Box, t: Term)
    requires Hopeless(before, t) && RowShrinks(before, after, t) && NonEmpty(before[t.id])
    requires forall k :: 0 <= k < |Children(t)| ==> NonEmpty(before[Children(t)[k].id])
    ensures !(Lowered(before, after, t) && Raised(before, after, t))
  {
    hide MagnitudeBounds, ProductBounds, Row, Mins, Maxs, Narrowed, Feasible;
    if t.Sum? {
      SumEmpties(before, after, t);
    }
  }

  lemma SumEmpties(before: Box, after: Box, t: Term)
    requires t.Sum? && Hopeless(before, t) && RowShrinks(before, after, t) && NonEmpty(before[t.id])
    requires forall k :: 0 <= k < |Children(t)| ==> NonEmpty(before[Children(t)[k].id])
    ensures !Lowered(before, after, t)
  {
    hide Narrowed, Feasible;
    var row := Row(before, Children(t));
    assert AllNonEmpty(row);
    InfeasibleIsEmpty(row, before[t.id], 0);
    assert Row(after, Children(t))[0] == after[Children(t)[0].id];
  }

  // A whole run.

  // The terms that are queued to start with.
  function Active(t: Term): set<Term> {
    set s | s in Subterms(t) && !s.Constant? && !s.Zero?
  }

  ghost predicate Done(before: Box, after: Box, t: Term) {
    Lowered(before, after, t) && Raised(before, after, t)
  }

  lemma DoneStays(first: Box, box: Box, now: Box, u: set<Term>, t: Term)
    requires Closed(u) && t in u && Done(first, box, t) && Shrinks(first, first, u) && Shrinks(box, now, u)
    ensures Done(first, now, t)
  {
    hide Lowered, Raised, Shrinks, RowShrinks;
    ShrinksAt(first, first, u, t);
    ShrinksAt(box, now, u, t);
    LoweredStays(first, first, box, now, t);
    RaisedStays(first, first, box, now, t);
  }

  // Visiting t downwards, then upwards.
  lemma VisitIsDone(first: Box, box: Box, down: Box, up: Box, u: set<Term>, t: Term)
    requires Closed(u) && t in u && Lowered(box, down, t) && Raised(down, up, t)
    requires Shrinks(first, box, u) && Shrinks(first, down, u) && Shrinks(down, up, u) && Shrinks(up, up, u)
    ensures Done(first, up, t)
  {
    hide Lowered, Raised, Shrinks, RowShrinks;
    ShrinksAt(first, box, u, t);
    ShrinksAt(first, down, u, t);
    ShrinksAt(down, up, u, t);
    ShrinksAt(up, up, u, t);
    LoweredStays(first, box, down, up, t);
    RaisedStays(first, down, up, up, t);
  }

  lemma HopelessThrows(first: Box, now: Box, u: set<Term>, t: Term)
    requires Closed(u) && t in u && Shrinks(first, now, u) && Shrinks(first, first, u) && Hopeless(first, t)
    ensures !Done(first, now, t)
  {
    hide Lowered, Raised, Hopeless, Shrinks;
    ShrinksAt(first, now, u, t);
    ShrinksAt(first, first, u, t);
    HopelessEmpties(first, now, t);
  }

  lemma SoundShrinks(before: Box, after: Box, u: set<Term>)
    requires BoxOk(before, u) && Sound(before, after, u, false)
    ensures Shrinks(before, after, u) && Shrinks(before, before, u) && Shrinks(after, after, u)
  {
    hide Inside;
  }

  lemma {:induction false} DistinctLength(q: seq<Term>, a: set<Term>)
    requires forall i, j :: 0 <= i < j < |q| ==> q[i] != q[j]
    requires forall i :: 0 <= i < |q| ==> q[i] in a
    ensures |q| <= |a|
  {
    if q != [] {
      var k := |q| - 1;
      DistinctLength(q[..k], a - {q[k]});
    }
  }

  // The queue after some turns: what is left of the first terms comes first.
  predicate QueueLeft(first: seq<Term>, q: seq<Term>, turn: nat) {
    turn <= |first| ==> first[turn..] <= q
  }

  lemma QueueTurns(first: seq<Term>, q: seq<Term>, now: seq<Term>, turn: nat)
    requires QueueLeft(first, q, turn) && q != [] && q[1..] <= now
    ensures QueueLeft(first, now, turn + 1)
    ensures turn < |first| ==> q[0] == first[turn]
  {
    if turn < |first| {
      assert first[turn..][0] == q[0];
      assert first[turn + 1..] == first[turn..][1..];
      assert first[turn..][1..] <= q[1..];
    }
  }
}
