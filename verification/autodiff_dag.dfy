// The terms below a term, which share subterms.
module AutodiffDag {

  import opened AutodiffTerms

  function Children(t: Term): seq<Term> {
    match t
    case Variable(_) => []
    case Constant(_, _) => []
    case Zero(_) => []
    case Sum(_, ts) => ts
    case ConstPower(_, b, _) => [b]
    case Abs(_, a) => [a]
    case ConstraintUtility(_, c, u) => [c, u]
    case _ => [t.left, t.right]
  }

  // The shared terms below t, t included.
  function Subterms(t: Term): (s: set<Term>)
    ensures t in s
    decreases t, 1
  {
    match t
    case Sum(_, ts) => {t} + AllSubterms(ts)
    case ConstPower(_, b, _) => {t} + Subterms(b)
    case Abs(_, a) => {t} + Subterms(a)
    case ConstraintUtility(_, c, u) => {t} + Subterms(c) + Subterms(u)
    case Variable(_) => {t}
    case Constant(_, _) => {t}
    case Zero(_) => {t}
    case _ => {t} + Subterms(t.left) + Subterms(t.right)
  }

  function AllSubterms(ts: seq<Term>): (s: set<Term>)
    ensures forall i :: 0 <= i < |ts| ==> ts[i] in s
    decreases ts, 0
  {
    if ts == [] then {} else AllSubterms(ts[..|ts| - 1]) + Subterms(ts[|ts| - 1])
  }

  ghost predicate Closed(u: set<Term>) {
    forall t, k :: t in u && 0 <= k < |Children(t)| ==> Children(t)[k] in u
  }

  lemma {:induction false} SubtermsClosed(t: Term)
    ensures Closed(Subterms(t))
    decreases t, 1
  {
    match t
    case Sum(_, ts) => AllSubtermsClosed(ts);
    case ConstPower(_, b, _) => SubtermsClosed(b);
    case Abs(_, a) => SubtermsClosed(a);
    case ConstraintUtility(_, c, u) => SubtermsClosed(c); SubtermsClosed(u);
    case Variable(_) =>
    case Constant(_, _) =>
    case Zero(_) =>
    case _ => SubtermsClosed(t.left); SubtermsClosed(t.right);
  }

  lemma {:induction false} AllSubtermsClosed(ts: seq<Term>)
    ensures Closed(AllSubterms(ts))
    decreases ts, 0
  {
    if ts != [] {
      AllSubtermsClosed(ts[..|ts| - 1]);
      SubtermsClosed(ts[|ts| - 1]);
    }
  }

  // An id stands for one term.
  ghost predicate OneTermPerId(u: set<Term>) {
    forall s, t :: s in u && t in u && s.id == t.id ==> s == t
  }
}
