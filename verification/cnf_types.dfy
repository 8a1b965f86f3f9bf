// Clauses over literals that still hold a formula, or a comparison of the SAT problem.
module CnfTypes {

  import opened AutodiffTerms

  datatype Assignment = Unassigned | True | False

  // A temporary literal stands for the truth of its atom; a finished one for its atom, which is
  // a strict comparison, or for the negation of it.
  datatype Lit = Lit(atom: Term, sign: Assignment, variable: nat, isTemporary: bool)

  // Clauses refer to literals by number: a clone shares the literals of the original.
  datatype Clause = Clause(literals: seq<nat>, isFinished: bool, isTautologic: bool)

  // The formulas that can be transformed.
  predicate IsFormula(t: Term)
    decreases t
  {
    match t
    case Max(_, l, r) => IsFormula(l) && IsFormula(r)
    case Min(_, l, r) => IsFormula(l) && IsFormula(r)
    case And(_, l, r) => IsFormula(l) && IsFormula(r)
    case Or(_, l, r) => IsFormula(l) && IsFormula(r)
    case LTConstraint(_, _, _, _) => true
    case LTEConstraint(_, _, _, _) => true
    case Constant(_, _) => true
    case _ => false
  }

  // A valuation gives every comparison, by id, a truth value. Comparisons that are negations of
  // each other have opposite ones.
  type Valuation = nat -> bool

  ghost predicate Consistent(val: Valuation, negated: map<nat, Term>) {
    forall e :: e in negated ==> val(e) == !val(negated[e].id)
  }

  predicate Truth(t: Term, val: Valuation)
    decreases t
  {
    match t
    case Max(_, l, r) => Truth(l, val) || Truth(r, val)
    case Min(_, l, r) => Truth(l, val) && Truth(r, val)
    case And(_, l, r) => Truth(l, val) && Truth(r, val)
    case Or(_, l, r) => Truth(l, val) || Truth(r, val)
    case LTConstraint(id, _, _, _) => val(id)
    case LTEConstraint(id, _, _, _) => val(id)
    case Constant(_, c) => c > 0.0
    case _ => false
  }

  predicate LitTrue(l: Lit, val: Valuation) {
    if l.isTemporary then Truth(l.atom, val) else val(l.atom.id) == l.sign.True?
  }

  predicate InRange(c: Clause, lits: seq<Lit>) {
    forall k :: 0 <= k < |c.literals| ==> c.literals[k] < |lits|
  }

  predicate ClauseTrue(c: Clause, lits: seq<Lit>, val: Valuation)
    requires InRange(c, lits)
  {
    c.isTautologic || exists k :: 0 <= k < |c.literals| && LitTrue(lits[c.literals[k]], val)
  }

  predicate CnfTrue(clauses: seq<Clause>, lits: seq<Lit>, val: Valuation)
    requires forall i :: 0 <= i < |clauses| ==> InRange(clauses[i], lits)
  {
    forall i :: 0 <= i < |clauses| ==> ClauseTrue(clauses[i], lits, val)
  }

  // No clause holds two temporary literals with the same atom.
  predicate ClauseOk(c: Clause, lits: seq<Lit>) {
    && InRange(c, lits)
    && (c.isTautologic ==> c.literals == [])
    && (c.isFinished ==> NoTemporary(c, lits))
    && forall i, j :: 0 <= i < j < |c.literals| ==> Apart(lits[c.literals[i]], lits[c.literals[j]])
  }

  predicate Apart(a: Lit, b: Lit) {
    a.isTemporary && b.isTemporary ==> a.atom.id != b.atom.id
  }

  predicate NoTemporary(c: Clause, lits: seq<Lit>)
    requires InRange(c, lits)
  {
    forall k :: 0 <= k < |c.literals| ==> !lits[c.literals[k]].isTemporary
  }

  // Temporary literals are unsigned; finished ones have a signed comparison and its variable.
  predicate LitOk(l: Lit, atoms: map<nat, nat>) {
    if l.isTemporary then
      l.sign == Unassigned
    else
      l.atom.LTConstraint? && l.sign != Unassigned && l.atom.id in atoms && l.variable == atoms[l.atom.id]
  }

  // A literal may be finished while other clauses hold it; what it says stays the same.
  ghost predicate SameMeaning(before: Lit, after: Lit, negated: map<nat, Term>) {
    && (after.isTemporary ==> after == before)
    && forall val: Valuation :: Consistent(val, negated) ==> LitTrue(after, val) == LitTrue(before, val)
  }

  ghost predicate Evolved(before: seq<Lit>, after: seq<Lit>, negated: map<nat, Term>) {
    && |before| <= |after|
    && forall k :: 0 <= k < |before| ==> SameMeaning(before[k], after[k], negated)
  }

  lemma EvolvedClause(c: Clause, before: seq<Lit>, after: seq<Lit>, negated: map<nat, Term>)
    requires ClauseOk(c, before) && Evolved(before, after, negated)
    ensures ClauseOk(c, after)
    ensures NoTemporary(c, before) ==> NoTemporary(c, after)
    ensures forall val: Valuation :: Consistent(val, negated) ==> ClauseTrue(c, after, val) == ClauseTrue(c, before, val)
  {
    hide Truth, LitTrue;
    assert forall k :: 0 <= k < |c.literals| ==> SameMeaning(before[c.literals[k]], after[c.literals[k]], negated);
    forall i, j | 0 <= i < j < |c.literals| ensures Apart(after[c.literals[i]], after[c.literals[j]]) {
      assert Apart(before[c.literals[i]], before[c.literals[j]]);
    }
  }

  // Termination: a formula counts its connectives and leaves, a clause 3 to the sum of its
  // temporary literals.

  function Size(t: Term): (n: nat)
    ensures n >= 1
    decreases t
  {
    match t
    case Max(_, l, r) => 1 + Size(l) + Size(r)
    case Min(_, l, r) => 1 + Size(l) + Size(r)
    case And(_, l, r) => 1 + Size(l) + Size(r)
    case Or(_, l, r) => 1 + Size(l) + Size(r)
    case _ => 1
  }

  function LitSize(l: Lit): nat {
    if l.isTemporary then Size(l.atom) else 0
  }

  function Pending(literals: seq<nat>, lits: seq<Lit>): nat
    requires forall k :: 0 <= k < |literals| ==> literals[k] < |lits|
  {
    if literals == [] then 0
    else Pending(literals[..|literals| - 1], lits) + LitSize(lits[literals[|literals| - 1]])
  }

  function Pow3(n: nat): (r: nat)
    ensures r >= 1
  {
    if n == 0 then 1 else 3 * Pow3(n - 1)
  }

  function Work(clauses: seq<Clause>, lits: seq<Lit>): nat
    requires forall i :: 0 <= i < |clauses| ==> InRange(clauses[i], lits)
  {
    if clauses == [] then 0
    else
      var last := clauses[|clauses| - 1];
      assert InRange(last, lits);
      Work(clauses[..|clauses| - 1], lits) + Pow3(Pending(last.literals, lits))
  }

  lemma {:induction false} Pow3Monotone(m: nat, n: nat)
    requires m <= n
    ensures Pow3(m) <= Pow3(n)
    decreases n
  {
    if m < n { Pow3Monotone(m, n - 1); }
  }

  lemma {:induction false} PendingEvolved(literals: seq<nat>, before: seq<Lit>, after: seq<Lit>, negated: map<nat, Term>)
    requires Evolved(before, after, negated)
    requires forall k :: 0 <= k < |literals| ==> literals[k] < |before|
    ensures Pending(literals, after) <= Pending(literals, before)
  {
    hide LitTrue, Consistent;
    if literals != [] {
      var n := |literals| - 1;
      PendingEvolved(literals[..n], before, after, negated);
      assert SameMeaning(before[literals[n]], after[literals[n]], negated);
    }
  }

  lemma {:induction false} PendingConcat(a: seq<nat>, b: seq<nat>, lits: seq<Lit>)
    requires forall k :: 0 <= k < |a| ==> a[k] < |lits|
    requires forall k :: 0 <= k < |b| ==> b[k] < |lits|
    ensures Pending(a + b, lits) == Pending(a, lits) + Pending(b, lits)
  {
    if b == [] {
      assert a + b == a;
    } else {
      var n := |b| - 1;
      PendingConcat(a, b[..n], lits);
      assert (a + b)[..|a| + n] == a + b[..n];
    }
  }

  lemma {:induction false} WorkConcat(a: seq<Clause>, b: seq<Clause>, lits: seq<Lit>)
    requires forall i :: 0 <= i < |a| ==> InRange(a[i], lits)
    requires forall i :: 0 <= i < |b| ==> InRange(b[i], lits)
    ensures forall i :: 0 <= i < |a + b| ==> InRange((a + b)[i], lits)
    ensures Work(a + b, lits) == Work(a, lits) + Work(b, lits)
  {
    if b == [] {
      assert a + b == a;
    } else {
      var n := |b| - 1;
      WorkConcat(a, b[..n], lits);
      assert (a + b)[..|a| + n] == a + b[..n];
    }
  }

  lemma {:induction false} WorkEvolved(clauses: seq<Clause>, before: seq<Lit>, after: seq<Lit>, negated: map<nat, Term>)
    requires Evolved(before, after, negated)
    requires forall i :: 0 <= i < |clauses| ==> InRange(clauses[i], before)
    ensures forall i :: 0 <= i < |clauses| ==> InRange(clauses[i], after)
    ensures Work(clauses, after) <= Work(clauses, before)
  {
    hide SameMeaning;
    if clauses != [] {
      var n := |clauses| - 1;
      WorkEvolved(clauses[..n], before, after, negated);
      PendingEvolved(clauses[n].literals, before, after, negated);
      Pow3Monotone(Pending(clauses[n].literals, after), Pending(clauses[n].literals, before));
    }
  }
}
