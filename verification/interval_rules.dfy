// Intervals around the values of terms, and why the propagation rules only cut off values that
// no point takes.
module IntervalRules {

  import opened Options
  import opened Reals
  import opened AutodiffTerms
  import opened AutodiffDag
  import opened AutodiffValues
  import opened IntervalSum

  // The interval of every term, by id.
  type Box = map<nat, Interval>

  // No two terms of the list are the same object.
  predicate DistinctIds(ts: seq<Term>) {
    forall i, j :: 0 <= i < j < |ts| ==> ts[i].id != ts[j].id
  }

  // The terms whose upward rules are modelled. Those of And and Or read their operands as truth
  // values.
  predicate RisesSoundly(t: Term) {
    match t
    case And(_, _, _) => IsConstraint(t)
    case Or(_, _, _) => IsConstraint(t)
    case LTConstraint(_, _, _, s) => s > 0.0
    case LTEConstraint(_, _, _, s) => s > 0.0
    case ConstraintUtility(_, _, _) => false
    case _ => true
  }

  // The terms whose downward rules are modelled and sound at every box.
  predicate SinksSoundly(t: Term) {
    match t
    case Sum(_, ts) => DistinctIds(ts)
    case Product(_, l, r) => l.id != r.id
    case Max(_, _, _) => IsConstraint(t)
    case Or(_, _, _) => false
    case ConstPower(_, _, _) => false
    case _ => RisesSoundly(t)
  }

  ghost predicate TermsOk(u: set<Term>) {
    Closed(u) && OneTermPerId(u)
  }

  predicate Covers(box: Box, u: set<Term>) {
    forall t :: t in u ==> t.id in box
  }

  // No interval is empty.
  predicate BoxOk(box: Box, u: set<Term>) {
    Covers(box, u) && forall t :: t in u ==> NonEmpty(box[t.id])
  }

  // At p the value of every term lies in its interval.
  ghost predicate Inside(box: Box, u: set<Term>, p: Point) {
    Covers(box, u) && forall t :: t in u ==> Within(Value(Forward, t, p), box[t.id])
  }

  ghost predicate Narrower(after: Box, before: Box, u: set<Term>) {
    && Covers(before, u) && Covers(after, u)
    && forall t :: t in u ==> before[t.id].min <= after[t.id].min && after[t.id].max <= before[t.id].max
  }

  // Every point inside before is inside after, and there is none when an interval got empty.
  ghost predicate Sound(before: Box, after: Box, u: set<Term>, thrown: bool) {
    && Narrower(after, before, u)
    && (!thrown ==> BoxOk(after, u))
    && forall p: Point :: Inside(before, u, p) ==> !thrown && Inside(after, u, p)
  }

  lemma SoundStays(box: Box, u: set<Term>)
    requires BoxOk(box, u)
    ensures Sound(box, box, u, false)
  {
  }

  lemma SoundTwice(a: Box, b: Box, c: Box, u: set<Term>, thrown: bool)
    requires Sound(a, b, u, false) && Sound(b, c, u, thrown)
    ensures Sound(a, c, u, thrown)
  {
  }

  // Bounds that the value of t meets at every point inside; None is no bound.
  ghost predicate Implied(box: Box, u: set<Term>, t: Term, lo: Option<real>, hi: Option<real>) {
    && t in u
    && forall p: Point :: Inside(box, u, p) ==> Meets(Value(Forward, t, p), lo, hi)
  }

  ghost predicate ImpliedBy(box: Box, u: set<Term>, t: Term, i: Interval) {
    Implied(box, u, t, Some(i.min), Some(i.max))
  }

  predicate Meets(x: real, lo: Option<real>, hi: Option<real>) {
    (lo.Some? ==> lo.value <= x) && (hi.Some? ==> x <= hi.value)
  }

  function Cut(i: Interval, lo: Option<real>, hi: Option<real>): Interval {
    Interval(if lo.Some? then Larger(i.min, lo.value) else i.min,
             if hi.Some? then Smaller(i.max, hi.value) else i.max)
  }

  lemma CutIsSound(box: Box, u: set<Term>, t: Term, lo: Option<real>, hi: Option<real>)
    requires BoxOk(box, u) && OneTermPerId(u) && Implied(box, u, t, lo, hi)
    ensures var cut := Cut(box[t.id], lo, hi);
      Sound(box, box[t.id := cut], u, !NonEmpty(cut))
  {
    hide Value;
    var cut := Cut(box[t.id], lo, hi);
    var after := box[t.id := cut];
    forall p: Point | Inside(box, u, p) ensures NonEmpty(cut) && Inside(after, u, p) {
      assert Within(Value(Forward, t, p), cut);
    }
  }

  // Products and quotients of intervals.

  function Least4(a: real, b: real, c: real, d: real): real {
    Smaller(a, Smaller(b, Smaller(c, d)))
  }

  function Greatest4(a: real, b: real, c: real, d: real): real {
    Larger(a, Larger(b, Larger(c, d)))
  }

  function Products(a: Interval, b: Interval): Interval {
    var aa, ab, ba, bb := Mul(a.min, b.min), Mul(a.min, b.max), Mul(a.max, b.min), Mul(a.max, b.max);
    Interval(Least4(aa, ab, ba, bb), Greatest4(aa, ab, ba, bb))
  }

  lemma BetweenProducts(x: real, y: real, i: Interval)
    requires Within(y, i)
    ensures Smaller(Mul(x, i.min), Mul(x, i.max)) <= Mul(x, y) <= Larger(Mul(x, i.min), Mul(x, i.max))
  {
    hide Mul;
    if x >= 0.0 {
      Scaled(x, i.min, y);
      Scaled(x, y, i.max);
    } else {
      Scaled(-x, i.min, y);
      Scaled(-x, y, i.max);
      Negated(x, i.min); Negated(x, y); Negated(x, i.max);
    }
  }

  lemma Negated(x: real, y: real)
    ensures Mul(-x, y) == -Mul(x, y)
  {
  }

  lemma ProductWithin(x: real, a: Interval, y: real, b: Interval)
    requires Within(x, a) && Within(y, b)
    ensures Within(Mul(x, y), Products(a, b))
  {
    hide Mul;
    BetweenProducts(x, y, b);
    BetweenProducts(b.min, x, a);
    BetweenProducts(b.max, x, a);
    Commutes(x, b.min); Commutes(a.min, b.min); Commutes(a.max, b.min);
    Commutes(x, b.max); Commutes(a.min, b.max); Commutes(a.max, b.max);
  }

  // Powers of an interval.

  function Powers(i: Interval, e: nat): Interval {
    var a, b := Pow(i.max, e), Pow(i.min, e);
    if Mul(i.min, i.max) <= 0.0 then Interval(Smaller(0.0, Smaller(a, b)), Larger(0.0, Larger(a, b)))
    else Interval(Smaller(a, b), Larger(a, b))
  }

  lemma {:induction false} PowerOrder(x: real, y: real, e: nat)
    requires 0.0 <= x <= y
    ensures 0.0 <= Pow(x, e) <= Pow(y, e)
  {
    hide Mul;
    if e > 0 {
      PowerOrder(x, y, e - 1);
      NonNegative(x, Pow(x, e - 1));
      Scaled(x, Pow(x, e - 1), Pow(y, e - 1));
      Scaled(Pow(y, e - 1), x, y);
      Commutes(x, Pow(y, e - 1));
      Commutes(y, Pow(y, e - 1));
    }
  }

  lemma {:induction false} PowerOfNegated(x: real, e: nat)
    ensures Pow(-x, e) == if e % 2 == 0 then Pow(x, e) else -Pow(x, e)
  {
    hide Mul;
    if e > 0 {
      PowerOfNegated(x, e - 1);
      Negated(x, Pow(-x, e - 1));
      Negated(Pow(x, e - 1), x);
      Commutes(x, Pow(-x, e - 1));
      Commutes(x, Pow(x, e - 1));
    }
  }

  // Between two numbers of one sign, powers lie between those of the two.
  lemma PowerBetween(x: real, y: real, z: real, e: nat)
    requires x <= y <= z && (x >= 0.0 || z <= 0.0)
    ensures Smaller(Pow(x, e), Pow(z, e)) <= Pow(y, e) <= Larger(Pow(x, e), Pow(z, e))
  {
    hide Pow;
    if x >= 0.0 {
      PowerOrder(x, y, e);
      PowerOrder(y, z, e);
    } else {
      PowerOfNegative(x, y, e);
      PowerOfNegative(y, z, e);
    }
  }

  lemma PowerOfNegative(x: real, y: real, e: nat)
    requires x <= y <= 0.0
    ensures if e % 2 == 0 then Pow(y, e) <= Pow(x, e) else Pow(x, e) <= Pow(y, e)
  {
    hide Pow;
    PowerOrder(-y, -x, e);
    PowerOfNegated(x, e);
    PowerOfNegated(y, e);
  }

  lemma PowerWithin(x: real, i: Interval, e: nat)
    requires Within(x, i) && e > 0
    ensures Within(Pow(x, e), Powers(i, e))
  {
    hide Mul;
    Units(Pow(0.0, e - 1));
    if Mul(i.min, i.max) > 0.0 {
      SignKept(i, x);
      PowerBetween(i.min, x, i.max, e);
    } else if x >= 0.0 {
      PowerBetween(0.0, x, i.max, e);
    } else {
      PowerBetween(i.min, x, 0.0, e);
    }
  }

  lemma SquareIsPower(x: real)
    ensures Pow(x, 2) == Mul(x, x) && Mul(x, x) >= 0.0
  {
    SquareOfMagnitude(x);
    assert Pow(x, 0) == 1.0;
    assert Pow(x, 1) == Mul(x, Pow(x, 0)) == x;
  }

  // The product of an interval with itself.
  function Squares(i: Interval): Interval {
    var aa, bb := Mul(i.min, i.min), Mul(i.max, i.max);
    Interval(if Mul(i.min, i.max) <= 0.0 then 0.0 else Smaller(aa, bb), Larger(aa, bb))
  }

  lemma SquareWithin(x: real, i: Interval)
    requires Within(x, i)
    ensures Within(Mul(x, x), Squares(i))
  {
    hide Mul;
    SquareIsPower(x);
    SquareIsPower(i.min);
    SquareIsPower(i.max);
    PowerWithin(x, i, 2);
  }

  predicate SameSign(b: Interval) {
    Mul(b.min, b.max) > 0.0
  }

  lemma SignKept(b: Interval, y: real)
    requires SameSign(b) && Within(y, b)
    ensures (b.min > 0.0 && y > 0.0 && b.max > 0.0) || (b.min < 0.0 && y < 0.0 && b.max < 0.0)
  {
    hide Mul;
    Units(b.min); Units(b.max);
    if b.min <= 0.0 <= b.max {
      Scaled(b.max, b.min, 0.0);
      Commutes(b.min, b.max);
    }
  }

  function Quotients(a: Interval, b: Interval): Interval
    requires b.min != 0.0 && b.max != 0.0
  {
    var aa, ab, ba, bb := a.min / b.min, a.min / b.max, a.max / b.min, a.max / b.max;
    Interval(Least4(aa, ab, ba, bb), Greatest4(aa, ab, ba, bb))
  }

  lemma InverseOrder(x: real, y: real)
    requires x <= y && (x > 0.0 || y < 0.0)
    ensures 1.0 / y <= 1.0 / x
  {
    var p, q := 1.0 / x, 1.0 / y;
    assert p * x == 1.0 && q * y == 1.0;
    assert p * q > 0.0;
    assert p - q == (p * q) * (y - x);
  }

  lemma Division(x: real, y: real)
    requires y != 0.0
    ensures x / y == Mul(x, 1.0 / y)
    ensures Mul(Mul(x, y), 1.0 / y) == x
  {
    var q := 1.0 / y;
    assert q * y == 1.0;
    assert (x * y) * q == x * (q * y);
    assert (x / y) * y == x;
    assert x / y == (x / y) * (q * y) == x * q;
  }

  // What one factor can be, given the product and the other factor.
  lemma QuotientWithin(x: real, y: real, a: Interval, b: Interval)
    requires Within(Mul(x, y), a) && Within(y, b) && b.min != 0.0 && b.max != 0.0 && SameSign(b)
    ensures Within(x, Quotients(a, b))
  {
    hide Mul, SameSign;
    SignKept(b, y);
    var inverse := Interval(1.0 / b.max, 1.0 / b.min);
    InverseOrder(b.min, y);
    InverseOrder(y, b.max);
    ProductWithin(Mul(x, y), a, 1.0 / y, inverse);
    Division(x, y);
    Division(a.min, b.min); Division(a.min, b.max); Division(a.max, b.min); Division(a.max, b.max);
  }
}
