// Terms of the autodiff library, their value at a point, and their partial derivatives.
//
// The id of a term stands for the identity of its (shared) object.
module AutodiffTerms {

  import opened Reals

  datatype Term =
    | Variable(id: nat)
    | Constant(id: nat, value: real)
    | Zero(id: nat)
    | Sum(id: nat, terms: seq<Term>)
    | Product(id: nat, left: Term, right: Term)
    | ConstPower(id: nat, base: Term, exponent: nat)
    | Abs(id: nat, arg: Term)
    | Max(id: nat, left: Term, right: Term)
    | Min(id: nat, left: Term, right: Term)
    | And(id: nat, left: Term, right: Term)
    | Or(id: nat, left: Term, right: Term)
    | LTConstraint(id: nat, left: Term, right: Term, steepness: real)
    | LTEConstraint(id: nat, left: Term, right: Term, steepness: real)
    | ConstraintUtility(id: nat, constraint: Term, utility: Term)

  // A point gives every variable, by id, a value.
  type Point = nat -> real

  function Pow(b: real, e: nat): real {
    if e == 0 then 1.0 else Mul(b, Pow(b, e - 1))
  }

  // The two visitors of the tape give the connectives different rules: EvalVisitor serves
  // `evaluate`, ForwardSweepVisitor serves `differentiate`.
  datatype Visitor = Eval | Forward

  function AndValue(w: Visitor, l: real, r: real): real {
    match w
    case Eval => if l > 0.75 then r else if r > 0.75 then l else l + r
    case Forward =>
      if l > 0.75 && r > 0.75 then 1.0
      else (if l <= 0.0 then l else 0.0) + (if r <= 0.0 then r else 0.0)
  }

  function OrValue(w: Visitor, l: real, r: real): real {
    match w
    case Eval => if l > 0.75 then l else if r > 0.75 then r else l + r
    case Forward =>
      if l > 0.75 || r > 0.75 then 1.0
      else (if l <= 0.0 then l else 0.0) + (if r <= 0.0 then r else 0.0)
  }

  function LTValue(l: real, r: real, steepness: real): real {
    if l < r then 1.0 else Mul(steepness, r - l)
  }

  function LTEValue(w: Visitor, l: real, r: real, steepness: real): real {
    if (if w == Eval then l < r else l <= r) then 1.0 else Mul(steepness, r - l)
  }

  function UtilityValue(w: Visitor, c: real, u: real): real {
    match w
    case Eval => if c < 0.999 then c else Mul(c, u)
    case Forward => if c > 0.0 then u else c
  }

  function Value(w: Visitor, t: Term, p: Point): real
    decreases t, 1
  {
    match t
    case Variable(id) => p(id)
    case Constant(_, c) => c
    case Zero(_) => 0.0
    case Sum(_, ts) => SumValue(w, ts, p)
    case Product(_, l, r) => Mul(Value(w, l, p), Value(w, r, p))
    case ConstPower(_, b, e) => Pow(Value(w, b, p), e)
    case Abs(_, a) => Magnitude(Value(w, a, p))
    case Max(_, l, r) => Larger(Value(w, l, p), Value(w, r, p))
    case Min(_, l, r) => Smaller(Value(w, l, p), Value(w, r, p))
    case And(_, l, r) => AndValue(w, Value(w, l, p), Value(w, r, p))
    case Or(_, l, r) => OrValue(w, Value(w, l, p), Value(w, r, p))
    case LTConstraint(_, l, r, s) => LTValue(Value(w, l, p), Value(w, r, p), s)
    case LTEConstraint(_, l, r, s) => LTEValue(w, Value(w, l, p), Value(w, r, p), s)
    case ConstraintUtility(_, c, u) => UtilityValue(w, Value(w, c, p), Value(w, u, p))
  }

  function SumValue(w: Visitor, ts: seq<Term>, p: Point): real
    decreases ts, 0
  {
    if ts == [] then 0.0 else SumValue(w, ts[..|ts| - 1], p) + Value(w, ts[|ts| - 1], p)
  }
}
