// The terms a transformation works with, and what its comparisons say at a point.
module CnfUniverse {

  import opened AutodiffTerms
  import opened AutodiffDag
  import opened AutodiffValues
  import opened CnfTypes

  // One is a <= and the other the strict comparison that denies it, with the same steepness.
  predicate IsNegation(e: Term, p: Term) {
    && ((e.LTEConstraint? && p.LTConstraint?) || (e.LTConstraint? && p.LTEConstraint?))
    && p.left == e.right && p.right == e.left && p.steepness == e.steepness
  }

  // The negation of a comparison, as a new term.
  function Opposite(e: Term, id: nat): Term
    requires e.LTConstraint? || e.LTEConstraint?
  {
    if e.LTConstraint? then LTEConstraint(id, e.right, e.left, e.steepness) else LTConstraint(id, e.right, e.left, e.steepness)
  }

  // The terms in play: ids stand for objects, and cached negations are negations, cached at both
  // ends.
  ghost predicate UniverseOk(u: set<Term>, negated: map<nat, Term>, nextId: nat) {
    && Closed(u) && OneTermPerId(u)
    && (forall t :: t in u ==> t.id < nextId)
    && (forall e :: e in negated ==> negated[e] in u && exists t :: t in u && t.id == e && IsNegation(t, negated[e]))
    && Paired(negated)
  }

  predicate Paired(negated: map<nat, Term>) {
    forall e :: e in negated ==> negated[e].id in negated && negated[negated[e].id].id == e
  }

  // A new negation is cached at both ends.
  lemma NewNegation(u: set<Term>, negated: map<nat, Term>, nextId: nat, e: Term, p: Term)
    requires UniverseOk(u, negated, nextId) && e in u && (e.LTConstraint? || e.LTEConstraint?) && e.id !in negated
    requires p == Opposite(e, nextId)
    ensures UniverseOk(u + {p}, negated[e.id := p][nextId := e], nextId + 1)
  {
    hide Closed, OneTermPerId, Paired;
    LargerUniverse(u, p, nextId, e);
    FreshId(u, negated, nextId, e);
    var more := negated[e.id := p][nextId := e];
    forall i | i in more ensures more[i] in u + {p} && exists t :: t in u + {p} && t.id == i && IsNegation(t, more[i]) {
      if i == nextId {
        assert p in u + {p} && p.id == i && IsNegation(p, more[i]);
      } else if i == e.id {
        assert e in u + {p} && e.id == i && IsNegation(e, more[i]);
      } else {
        var t :| t in u && t.id == i && IsNegation(t, negated[i]);
        assert t in u + {p};
      }
    }
    StillPaired(negated, nextId, e, p);
  }

  lemma StillPaired(negated: map<nat, Term>, nextId: nat, e: Term, p: Term)
    requires Paired(negated) && e.id !in negated && nextId !in negated && p.id == nextId && e.id != nextId
    ensures Paired(negated[e.id := p][nextId := e])
  {
    var more := negated[e.id := p][nextId := e];
    forall i | i in more ensures more[i].id in more && more[more[i].id].id == i {
      if i != nextId && i != e.id {
        assert negated[i].id in negated;
      }
    }
  }

  lemma FreshId(u: set<Term>, negated: map<nat, Term>, nextId: nat, e: Term)
    requires UniverseOk(u, negated, nextId) && e in u
    ensures Paired(negated) && nextId !in negated && e.id != nextId
  {
    hide Closed, OneTermPerId;
  }

  lemma LargerUniverse(u: set<Term>, p: Term, nextId: nat, e: Term)
    requires Closed(u) && OneTermPerId(u) && (forall t :: t in u ==> t.id < nextId)
    requires e in u && (e.LTConstraint? || e.LTEConstraint?) && p == Opposite(e, nextId)
    ensures Closed(u + {p}) && OneTermPerId(u + {p}) && forall t :: t in u + {p} ==> t.id < nextId + 1
  {
    assert Children(e)[0] in u && Children(e)[1] in u;
  }

  // A new connective over terms in play.
  lemma NewConnective(u: set<Term>, negated: map<nat, Term>, nextId: nat, t: Term)
    requires UniverseOk(u, negated, nextId) && t.id == nextId
    requires |Children(t)| == 2 && Children(t)[0] in u && Children(t)[1] in u
    ensures UniverseOk(u + {t}, negated, nextId + 1)
  {
  }

  lemma UniqueIds(u: set<Term>, negated: map<nat, Term>, nextId: nat)
    requires UniverseOk(u, negated, nextId)
    ensures OneTermPerId(u)
  {
  }

  // The consistent valuation that a valuation of the strict comparisons extends to.
  function Extended(strict: Valuation, negated: map<nat, Term>): Valuation {
    (id: nat) => if id in negated && negated[id].LTConstraint? then !strict(negated[id].id) else strict(id)
  }

  // Of a comparison and its negation, one is strict.
  lemma OneIsStrict(u: set<Term>, negated: map<nat, Term>, nextId: nat, e: nat)
    requires UniverseOk(u, negated, nextId) && e in negated
    ensures negated[e].id in negated && negated[negated[e].id].id == e
    ensures negated[e].LTConstraint? <==> !negated[negated[e].id].LTConstraint?
  {
    hide Closed;
    var f := negated[e].id;
    assert f in negated && negated[f].id == e;
    var s :| s in u && s.id == e && IsNegation(s, negated[e]);
    assert negated[f] == s;
  }

  lemma ExtendedIsConsistent(u: set<Term>, negated: map<nat, Term>, nextId: nat, strict: Valuation)
    requires UniverseOk(u, negated, nextId)
    ensures Consistent(Extended(strict, negated), negated)
    ensures forall t :: t in u && t.LTConstraint? ==> Extended(strict, negated)(t.id) == strict(t.id)
  {
    hide UniverseOk;
    forall e | e in negated ensures Extended(strict, negated)(e) == !Extended(strict, negated)(negated[e].id) {
      OneIsStrict(u, negated, nextId, e);
    }
    forall t | t in u && t.LTConstraint? ensures Extended(strict, negated)(t.id) == strict(t.id) {
      DeniedByWeak(u, negated, nextId, t);
    }
  }

  lemma DeniedByWeak(u: set<Term>, negated: map<nat, Term>, nextId: nat, t: Term)
    requires UniverseOk(u, negated, nextId) && t in u && t.LTConstraint?
    ensures t.id in negated ==> !negated[t.id].LTConstraint?
  {
    hide Closed;
    if t.id in negated {
      var s :| s in u && s.id == t.id && IsNegation(s, negated[t.id]);
      assert s == t;
    }
  }

  // A consistent valuation is what its strict comparisons extend to.
  lemma ConsistentIsExtended(val: Valuation, negated: map<nat, Term>, id: nat)
    requires Consistent(val, negated)
    ensures Extended(val, negated)(id) == val(id)
  {
  }

  predicate Compares(t: Term, p: Point) {
    match t
    case LTConstraint(_, l, r, _) => Value(Forward, l, p) < Value(Forward, r, p)
    case LTEConstraint(_, l, r, _) => Value(Forward, l, p) <= Value(Forward, r, p)
    case _ => false
  }

  lemma NegationIsConstraint(e: Term, n: Term)
    requires IsNegation(e, n) && IsConstraint(e)
    ensures IsConstraint(n)
  {
  }

  // A negation is worth 1 at exactly the points where the comparison is not, and at most 0 elsewhere.
  lemma NegationDenies(e: Term, n: Term, p: Point)
    requires IsNegation(e, n) && IsConstraint(e)
    ensures IsConstraint(n) && TrueOrFalse(Value(Forward, n, p))
    ensures Value(Forward, n, p) > 0.0 <==> !(Value(Forward, e, p) > 0.0)
  {
    hide Value;
    ConstraintValue(Forward, e, p);
    ConstraintValue(Forward, n, p);
  }

  // The valuation a point gives: a comparison is true when its operands compare there.
  ghost function AtPoint(u: set<Term>, p: Point): Valuation {
    (id: nat) => exists t :: t in u && t.id == id && Compares(t, p)
  }

  lemma AtPointOf(u: set<Term>, t: Term, p: Point)
    requires OneTermPerId(u) && t in u
    ensures AtPoint(u, p)(t.id) == Compares(t, p)
  {
  }

  lemma {:induction false} TruthHolds(u: set<Term>, t: Term, p: Point)
    requires Closed(u) && OneTermPerId(u) && t in u && IsConstraint(t)
    ensures Truth(t, AtPoint(u, p)) <==> Holds(t, p, false)
    decreases t
  {
    hide Value, AtPoint, OneTermPerId;
    if t.LTConstraint? || t.LTEConstraint? {
      AtPointOf(u, t, p);
    } else if !t.Constant? {
      assert Children(t)[0] in u && Children(t)[1] in u;
      TruthHolds(u, t.left, p);
      TruthHolds(u, t.right, p);
    }
  }

  lemma CachedAtPoint(u: set<Term>, negated: map<nat, Term>, nextId: nat, e: nat, p: Point)
    requires UniverseOk(u, negated, nextId) && e in negated
    ensures AtPoint(u, p)(e) == !AtPoint(u, p)(negated[e].id)
  {
    hide Value, AtPoint, Closed, OneTermPerId, Paired;
    var s :| s in u && s.id == e && IsNegation(s, negated[e]);
    AtPointOf(u, s, p);
    AtPointOf(u, negated[e], p);
  }

  // The valuation of a point is consistent, and makes a constraint true exactly when its value
  // at the point is positive.
  lemma TruthAtPoint(u: set<Term>, negated: map<nat, Term>, nextId: nat, t: Term, p: Point)
    requires UniverseOk(u, negated, nextId) && t in u && IsConstraint(t)
    ensures Consistent(AtPoint(u, p), negated)
    ensures Truth(t, AtPoint(u, p)) <==> Value(Forward, t, p) > 0.0
  {
    hide Value, AtPoint, Truth, Holds, IsConstraint, Closed, OneTermPerId, IsNegation;
    TruthHolds(u, t, p);
    ConstraintValue(Forward, t, p);
    forall e | e in negated ensures AtPoint(u, p)(e) == !AtPoint(u, p)(negated[e].id) {
      CachedAtPoint(u, negated, nextId, e, p);
    }
  }
}
