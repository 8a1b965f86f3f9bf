// The transformation of a formula to clauses.
module CnfTransform {

  import opened Options
  import opened AutodiffTerms
  import opened AutodiffDag
  import opened AutodiffValues
  import opened CnfTypes
  import opened CnfUniverse
  import opened CnfStep

  // Variable atoms[a] of the SAT problem stands for the comparison with id a.
  ghost predicate AtomsOk(atoms: map<nat, nat>, terms: seq<Term>) {
    forall a :: a in atoms ==> atoms[a] < |terms| && terms[atoms[a]].id == a
  }

  // Formulas whose leaves are comparisons.
  predicate OverComparisons(t: Term)
    decreases t
  {
    match t
    case LTConstraint(_, _, _, _) => true
    case LTEConstraint(_, _, _, _) => true
    case And(_, l, r) => OverComparisons(l) && OverComparisons(r)
    case Or(_, l, r) => OverComparisons(l) && OverComparisons(r)
    case Max(_, l, r) => OverComparisons(l) && OverComparisons(r)
    case Min(_, l, r) => OverComparisons(l) && OverComparisons(r)
    case _ => false
  }

  lemma OperandsInPlay(u: set<Term>, negated: map<nat, Term>, nextId: nat, t: Term)
    requires UniverseOk(u, negated, nextId) && t in u && |Children(t)| == 2
    ensures Children(t)[0] in u && Children(t)[1] in u
  {
  }

  lemma CachedNegation(u: set<Term>, negated: map<nat, Term>, nextId: nat, e: Term)
    requires UniverseOk(u, negated, nextId) && e in u && e.id in negated
    ensures negated[e.id] in u && IsNegation(e, negated[e.id])
    ensures negated[e.id].id in negated && negated[negated[e.id].id] == e
  {
    hide Closed;
    var t :| t in u && t.id == e.id && IsNegation(t, negated[e.id]);
    assert t == e;
    var f := negated[e.id].id;
    assert f in negated && negated[f].id == e.id && negated[f] in u;
  }

  lemma ConnectiveKind(t: Term)
    requires OverComparisons(t) && !t.LTConstraint? && !t.LTEConstraint?
    ensures t.And? || t.Or? || t.Max? || t.Min?
    ensures IsConstraint(t) ==> IsConstraint(t.left) && IsConstraint(t.right)
  {
  }

  lemma ConnectiveIsConstraint(t: Term, n: Term)
    requires IsConstraint(t) && OverComparisons(t) && !t.LTConstraint? && !t.LTEConstraint?
    ensures t.And? || t.Or? || t.Max? || t.Min?
    ensures IsConstraint(t.left) && IsConstraint(t.right)
    ensures (n.And? || n.Or? || n.Max? || n.Min?) && IsConstraint(n.left) && IsConstraint(n.right) ==> IsConstraint(n)
  {
  }

  // By De Morgan, from the operands to a connective.
  lemma NegatedValues(t: Term, n: Term, l: Term, r: Term)
    requires IsConstraint(t) && OverComparisons(t) && !t.LTConstraint? && !t.LTEConstraint?
    requires IsConstraint(l) && IsConstraint(r)
    requires if t.And? || t.Min? then n.Or? || n.Max? else n.And? || n.Min?
    requires n.left == l && n.right == r
    requires forall p: Point :: Value(Forward, l, p) > 0.0 <==> !(Value(Forward, t.left, p) > 0.0)
    requires forall p: Point :: Value(Forward, r, p) > 0.0 <==> !(Value(Forward, t.right, p) > 0.0)
    ensures IsConstraint(n)
    ensures forall p: Point :: Value(Forward, n, p) > 0.0 <==> !(Value(Forward, t, p) > 0.0)
  {
    hide Value, IsConstraint, OverComparisons;
    ConnectiveIsConstraint(t, n);
    forall p: Point ensures Value(Forward, n, p) > 0.0 <==> !(Value(Forward, t, p) > 0.0) {
      ConnectivePositive(Forward, t, p);
      ConnectivePositive(Forward, n, p);
    }
  }

  lemma NewIds(u: set<Term>, negated: map<nat, Term>, nextId: nat, e: Term)
    requires UniverseOk(u, negated, nextId) && e in u
    ensures nextId !in negated && e.id != nextId
  {
  }

  lemma LitsOkGrows(lits: seq<Lit>, atoms: map<nat, nat>, u: set<Term>, v: set<Term>)
    requires LitsOk(lits, atoms, u) && u <= v
    ensures LitsOk(lits, atoms, v)
  {
  }

  lemma CheckedInRange(c: Clause, l: nat, r: Clause, lits: seq<Lit>)
    requires InRange(c, lits) && l < |lits| && Checked(c, l, r, lits)
    ensures InRange(r, lits)
  {
  }

  lemma FinishedMeaning(before: Lit, after: Lit, negated: map<nat, Term>)
    requires before.isTemporary && !after.isTemporary && after.sign != Unassigned
    requires if after.sign == True then before.atom == after.atom && after.atom.LTConstraint?
      else before.atom.LTEConstraint? && before.atom.id in negated && negated[before.atom.id] == after.atom
    ensures SameMeaning(before, after, negated)
  {
  }

  // The clauses hold under exactly the consistent valuations under which the formula holds.
  ghost predicate Equivalent(clauses: seq<Clause>, lits: seq<Lit>, formula: Term, negated: map<nat, Term>)
    requires AllOk(clauses, lits)
  {
    forall val: Valuation :: Consistent(val, negated) ==> (CnfTrue(clauses, lits, val) <==> Truth(formula, val))
  }

  // Every literal still to be rewritten is of a known kind.
  ghost predicate Known(lits: seq<Lit>) {
    forall k :: 0 <= k < |lits| && lits[k].isTemporary ==> IsFormula(lits[k].atom)
  }

  ghost function TotalWork(clauses: seq<Clause>, lits: seq<Lit>): nat {
    if AllOk(clauses, lits) then Work(clauses, lits) else 0
  }

  lemma FinishedNoTemporary(c: Clause, lits: seq<Lit>)
    requires ClauseOk(c, lits) && c.isFinished
    ensures NoTemporary(c, lits)
  {
  }

  lemma ReplacedEquivalent(clauses: seq<Clause>, i: nat, j: nat, added: seq<Clause>, before: seq<Lit>, after: seq<Lit>,
                           knew: map<nat, Term>, negated: map<nat, Term>, formula: Term)
    requires AllOk(clauses, before) && i < |clauses| && j < |clauses[i].literals|
    requires Evolved(before, after, negated)
    requires InRange(Taken(clauses[i], j), before) && before[clauses[i].literals[j]].isTemporary
    requires StepOk(Taken(clauses[i], j), before[clauses[i].literals[j]].atom, added, before, after, negated)
    requires forall e :: e in knew ==> e in negated && negated[e] == knew[e]
    requires Equivalent(clauses, before, formula, knew)
    ensures AllOk(Replaced(clauses, i, added), after)
    ensures Equivalent(Replaced(clauses, i, added), after, formula, negated)
  {
    hide StepOk, Evolved, NoTemporary, Apart, CnfTrue, Truth;
    ReplacedOk(clauses, i, j, added, before, after, negated);
    forall val: Valuation | Consistent(val, negated)
      ensures CnfTrue(Replaced(clauses, i, added), after, val) <==> Truth(formula, val)
    {
      ReplacedTrue(clauses, i, j, added, before, after, negated, val);
      assert Consistent(val, knew);
    }
  }

  // Marking a clause without temporary literals as finished.
  lemma FlagFinished(clauses: seq<Clause>, i: nat, lits: seq<Lit>, formula: Term, negated: map<nat, Term>)
    requires AllOk(clauses, lits) && i < |clauses| && NoTemporary(clauses[i], lits)
    requires Equivalent(clauses, lits, formula, negated)
    ensures var after := clauses[i := clauses[i].(isFinished := true)];
      && AllOk(after, lits) && Equivalent(after, lits, formula, negated)
      && Work(after, lits) == Work(clauses, lits)
      && NoTemporary(after[i], lits)
  {
    hide Apart, Truth, LitTrue;
    var after := clauses[i := clauses[i].(isFinished := true)];
    forall val: Valuation ensures CnfTrue(after, lits, val) == CnfTrue(clauses, lits, val) {
      FlagTrue(clauses, i, lits, val);
    }
    FlagWork(clauses, i, lits);
  }

  lemma FlagTrue(clauses: seq<Clause>, i: nat, lits: seq<Lit>, val: Valuation)
    requires AllOk(clauses, lits) && i < |clauses| && NoTemporary(clauses[i], lits)
    ensures var after := clauses[i := clauses[i].(isFinished := true)];
      AllOk(after, lits) && CnfTrue(after, lits, val) == CnfTrue(clauses, lits, val)
  {
    hide Apart, LitTrue;
    var after := clauses[i := clauses[i].(isFinished := true)];
    assert forall k :: 0 <= k < |clauses| ==> after[k].literals == clauses[k].literals && after[k].isTautologic == clauses[k].isTautologic;
    assert forall k :: 0 <= k < |clauses| ==> ClauseTrue(after[k], lits, val) == ClauseTrue(clauses[k], lits, val);
  }

  lemma {:induction false} FlagWork(clauses: seq<Clause>, i: nat, lits: seq<Lit>)
    requires forall k :: 0 <= k < |clauses| ==> InRange(clauses[k], lits)
    requires i < |clauses|
    ensures var after := clauses[i := clauses[i].(isFinished := true)];
      && (forall k :: 0 <= k < |after| ==> InRange(after[k], lits))
      && Work(after, lits) == Work(clauses, lits)
  {
    hide Pow3;
    var after := clauses[i := clauses[i].(isFinished := true)];
    var n := |clauses| - 1;
    assert forall k :: 0 <= k < |after| ==> InRange(after[k], lits);
    if i < n {
      FlagWork(clauses[..n], i, lits);
      assert after[..n] == clauses[..n][i := clauses[i].(isFinished := true)];
    } else {
      assert after[..n] == clauses[..n];
    }
  }

  class FormulaTransform {
    var lits: seq<Lit>
    var atoms: map<nat, nat>
    var atomOccurrence: nat
    // The terms of the solver's variables.
    var terms: seq<Term>
    // The cached negations of comparisons, by id, and the id of the next term to be created.
    var negated: map<nat, Term>
    var nextId: nat
    ghost var universe: set<Term>

    constructor (terms: seq<Term>, negated: map<nat, Term>, nextId: nat, ghost universe: set<Term>)
      requires UniverseOk(universe, negated, nextId)
      ensures Valid() && this.terms == terms && this.negated == negated && this.universe == universe
    {
      this.lits := [];
      this.atoms := map[];
      this.atomOccurrence := 0;
      this.terms := terms;
      this.negated := negated;
      this.nextId := nextId;
      this.universe := universe;
    }

    ghost predicate Valid()
      reads this
    {
      LitsOk(lits, atoms, universe) && AtomsOk(atoms, terms) && UniverseOk(universe, negated, nextId)
    }

    // Adds literal l to c, unless c holds it or becomes a tautology with it.
    method AddChecked(c: Clause, l: nat) returns (r: Clause)
      requires InRange(c, lits) && l < |lits|
      ensures Checked(c, l, r, lits)
    {
      if lits[l].isTemporary {
        for i := 0 to |c.literals|
          invariant forall k :: 0 <= k < i ==> !Repeats(c, k, l, lits)
        {
          if lits[c.literals[i]].isTemporary && lits[l].atom.id == lits[c.literals[i]].atom.id {
            assert Repeats(c, i, l, lits);
            return c;
          }
        }
        return Pushed(c, l);
      }
      for i := 0 to |c.literals|
        invariant forall k :: 0 <= k < i ==> lits[l].atom.id != lits[c.literals[k]].atom.id
      {
        if lits[l].atom.id == lits[c.literals[i]].atom.id {
          if lits[l].sign != lits[c.literals[i]].sign {
            assert Opposes(c, i, l, lits);
            return Cleared(c);
          }
          assert Repeats(c, i, l, lits);
          return c;
        }
      }
      return Pushed(c, l);
    }

    // A new literal for t.
    method NewLit(t: Term) returns (l: nat)
      requires Valid() && t in universe
      modifies this`lits
      ensures Valid() && lits == old(lits) + [Lit(t, Unassigned, 0, true)] && l == |old(lits)|
    {
      l := |lits|;
      lits := lits + [Lit(t, Unassigned, 0, true)];
    }

    // The solver's variable for a strict comparison; equal ids get the same variable.
    method VariableOf(a: Term) returns (v: nat)
      requires Valid()
      modifies this`atoms, this`terms
      ensures Valid() && (forall b :: b in old(atoms) ==> b in atoms && atoms[b] == old(atoms)[b])
      ensures a.id in atoms && v == atoms[a.id] && old(terms) <= terms
    {
      if a.id in atoms {
        v := atoms[a.id];
      } else {
        v := |terms|;
        terms := terms + [a];
        atoms := atoms[a.id := v];
      }
    }

    // The negation of a comparison: the one cached, or a new term.
    method Negate(e: Term) returns (p: Term)
      requires Valid() && e in universe && (e.LTConstraint? || e.LTEConstraint?)
      modifies this`negated, this`nextId, this`universe
      ensures Valid() && old(universe) <= universe && p in universe && IsNegation(e, p)
      ensures e.id in negated && negated[e.id] == p && p.id in negated && negated[p.id] == e
      ensures forall i :: i in old(negated) ==> i in negated && negated[i] == old(negated)[i]
      ensures e.id in old(negated) ==> negated == old(negated) && universe == old(universe)
      ensures IsConstraint(e) ==> IsConstraint(p)
      ensures IsConstraint(e) ==> forall q: Point :: Value(Forward, p, q) > 0.0 <==> !(Value(Forward, e, q) > 0.0)
    {
      hide LitsOk, AtomsOk, UniverseOk, Value, IsConstraint;
      if e.id in negated {
        p := negated[e.id];
        CachedNegation(universe, negated, nextId, e);
      } else {
        p := Opposite(e, nextId);
        NewNegation(universe, negated, nextId, e, p);
        NewIds(universe, negated, nextId, e);
        LitsOkGrows(lits, atoms, universe, universe + {p});
        negated := negated[e.id := p][p.id := e];
        nextId := nextId + 1;
        universe := universe + {p};
      }
      if IsConstraint(e) {
        NegationIsConstraint(e, p);
        forall q: Point ensures (Value(Forward, p, q) > 0.0 <==> !(Value(Forward, e, q) > 0.0)) {
          NegationDenies(e, p, q);
        }
      }
    }

    // The negation of a formula over comparisons, pushed down to them. The operators & and |
    // build And or Min, and Or or Max, as their modes say.
    method NegateFormula(t: Term, andMode: bool, orMode: bool) returns (n: Term)
      requires Valid() && t in universe && OverComparisons(t)
      modifies this`negated, this`nextId, this`universe
      ensures Valid() && old(universe) <= universe && n in universe && OverComparisons(n)
      ensures forall i :: i in old(negated) ==> i in negated && negated[i] == old(negated)[i]
      ensures forall val: Valuation :: Consistent(val, negated) ==> Truth(n, val) == !Truth(t, val)
      ensures IsConstraint(t) ==> IsConstraint(n)
      ensures IsConstraint(t) ==> forall p: Point :: Value(Forward, n, p) > 0.0 <==> !(Value(Forward, t, p) > 0.0)
      ensures t.And? || t.Min? ==> if orMode then n.Or? else n.Max?
      ensures t.Or? || t.Max? ==> if andMode then n.And? else n.Min?
      decreases t
    {
      hide LitsOk, AtomsOk, UniverseOk, Value, IsConstraint;
      if t.LTConstraint? || t.LTEConstraint? {
        n := Negate(t);
      } else {
        OperandsInPlay(universe, negated, nextId, t);
        ConnectiveKind(t);
        var l := NegateFormula(t.left, andMode, orMode);
        ghost var knew := negated;
        var r := NegateFormula(t.right, andMode, orMode);
        assert forall val: Valuation :: Consistent(val, negated) ==> Consistent(val, knew);
        n := Connect(t.And? || t.Min?, l, r, andMode, orMode);
        if IsConstraint(t) {
          NegatedValues(t, n, l, r);
        }
      }
    }

    // The operators | and & on terms in play.
    method Connect(either: bool, l: Term, r: Term, andMode: bool, orMode: bool) returns (n: Term)
      requires Valid() && l in universe && r in universe
      modifies this`nextId, this`universe
      ensures Valid() && old(universe) <= universe && n in universe && (OverComparisons(l) && OverComparisons(r) ==> OverComparisons(n))
      ensures if either then (if orMode then n.Or? else n.Max?) else (if andMode then n.And? else n.Min?)
      ensures n.left == l && n.right == r
    {
      hide LitsOk, AtomsOk, UniverseOk;
      if either {
        n := if orMode then Or(nextId, l, r) else Max(nextId, l, r);
      } else {
        n := if andMode then And(nextId, l, r) else Min(nextId, l, r);
      }
      assert Children(n)[0] == l && Children(n)[1] == r;
      NewConnective(universe, negated, nextId, n);
      LitsOkGrows(lits, atoms, universe, universe + {n});
      nextId := nextId + 1;
      universe := universe + {n};
    }

    // Max and Or: c with both operands.
    method AddEither(c: Clause, l: nat) returns (r: Clause)
      requires Valid() && Rewritable(c, l, lits)
      requires lits[l].atom.Max? || lits[l].atom.Or?
      modifies this`lits
      ensures Valid() && Evolved(old(lits), lits, negated)
      ensures StepOk(c, old(lits)[l].atom, [r], old(lits), lits, negated)
      ensures Known(old(lits)) ==> Known(lits)
    {
      hide Checked, StepOk, Evolved, NoTemporary, Apart;
      ghost var before, t := lits, lits[l].atom;
      assert Children(t)[0] in universe && Children(t)[1] in universe;
      var left := NewLit(lits[l].atom.left);
      var right := NewLit(lits[l].atom.right);
      SameLits(before, lits[|before|..], negated);
      assert lits == before + lits[|before|..];
      r := AddChecked(c, left);
      ghost var c1 := r;
      CheckedInRange(c, left, r, lits);
      r := AddChecked(r, right);
      Disjoined(c, t, left, right, c1, r, before, lits, atoms, universe, negated);
    }

    // Min and And: c with one operand each.
    method AddBoth(c: Clause, l: nat) returns (c1: Clause, c2: Clause)
      requires Valid() && Rewritable(c, l, lits)
      requires lits[l].atom.Min? || lits[l].atom.And?
      modifies this`lits
      ensures Valid() && Evolved(old(lits), lits, negated)
      ensures StepOk(c, old(lits)[l].atom, [c1, c2], old(lits), lits, negated)
      ensures Known(old(lits)) ==> Known(lits)
    {
      hide Checked, StepOk, Evolved, NoTemporary, Apart;
      ghost var before, t := lits, lits[l].atom;
      assert Children(t)[0] in universe && Children(t)[1] in universe;
      var left := NewLit(lits[l].atom.left);
      var right := NewLit(lits[l].atom.right);
      SameLits(before, lits[|before|..], negated);
      assert lits == before + lits[|before|..];
      c2 := c;
      c1 := AddChecked(c, left);
      c2 := AddChecked(c2, right);
      Conjoined(c, t, left, right, c1, c2, before, lits, atoms, universe, negated);
    }

    // Comparisons: the literal becomes final in place, in every clause that shares it.
    method Finish(c: Clause, l: nat, atom: Term, sign: Assignment) returns (r: Clause)
      requires Valid() && Rewritable(c, l, lits)
      requires atom in universe && atom.LTConstraint? && sign != Unassigned
      requires if sign == True then atom == lits[l].atom
        else lits[l].atom.LTEConstraint? && lits[l].atom.id in negated && negated[lits[l].atom.id] == atom
      modifies this`lits, this`atoms, this`terms, this`atomOccurrence
      ensures Valid() && Evolved(old(lits), lits, negated)
      ensures StepOk(c, old(lits)[l].atom, [r], old(lits), lits, negated)
      ensures Known(old(lits)) ==> Known(lits)
    {
      hide Checked, StepOk, Evolved, NoTemporary, Apart, SameMeaning, UniverseOk;
      ghost var before := lits;
      atomOccurrence := atomOccurrence + 1;
      var v := VariableOf(atom);
      lits := lits[l := Lit(atom, sign, v, false)];
      FinishedMeaning(before[l], lits[l], negated);
      UniqueIds(universe, negated, nextId);
      r := AddChecked(c, l);
      Finished(c, l, r, before, lits, atoms, universe, negated);
    }

    // Rewrites the literal l, taken out of c, into the clauses to add; None when its formula is
    // of no known kind.
    method PerformStep(c: Clause, l: nat) returns (added: Option<seq<Clause>>)
      requires Valid() && Rewritable(c, l, lits)
      modifies this
      ensures Valid() && old(universe) <= universe && Evolved(old(lits), lits, negated)
      ensures forall i :: i in old(negated) ==> i in negated && negated[i] == old(negated)[i]
      ensures added.Some? ==> StepOk(c, old(lits)[l].atom, added.value, old(lits), lits, negated)
      ensures IsFormula(old(lits)[l].atom) ==> added.Some?
      ensures Known(old(lits)) ==> Known(lits)
    {
      hide StepOk, Checked, Evolved, LitOk, AtomsOk, UniverseOk, NoTemporary, Apart;
      var formula := lits[l].atom;
      if formula.Max? || formula.Or? {
        var r := AddEither(c, l);
        added := Some([r]);
      } else if formula.And? || formula.Min? {
        var c1, c2 := AddBoth(c, l);
        added := Some([c1, c2]);
      } else if formula.LTConstraint? {
        var r := Finish(c, l, formula, True);
        added := Some([r]);
      } else if formula.LTEConstraint? {
        var p := Negate(formula);
        var r := Finish(c, l, p, False);
        added := Some([r]);
      } else if formula.Constant? {
        added := Some(if formula.value <= 0.0 then [c] else []);
        ConstantStep(c, formula, lits, negated);
        SameLits(lits, [], negated);
        assert lits + [] == lits;
      } else {
        added := None;
        SameLits(lits, [], negated);
        assert lits + [] == lits;
      }
    }

    // The position of the first temporary literal of c, or the length.
    method FirstTemporary(c: Clause) returns (j: nat)
      requires InRange(c, lits)
      ensures j <= |c.literals| && (j < |c.literals| ==> lits[c.literals[j]].isTemporary)
      ensures j == |c.literals| ==> NoTemporary(c, lits)
    {
      j := 0;
      while j < |c.literals|
        invariant j <= |c.literals| && forall k :: 0 <= k < j ==> !lits[c.literals[k]].isTemporary
      {
        if lits[c.literals[j]].isTemporary {
          return;
        }
        j := j + 1;
      }
    }

    // Rewrites clauses until no temporary literal is left. New clauses go to the end of the list.
    method DoTransform(clauses: seq<Clause>, ghost formula: Term) returns (result: Option<seq<Clause>>)
      requires Valid() && AllOk(clauses, lits) && Equivalent(clauses, lits, formula, negated)
      requires IsFormula(formula) ==> Known(lits)
      modifies this
      ensures Valid() && old(universe) <= universe
      ensures forall i :: i in old(negated) ==> i in negated && negated[i] == old(negated)[i]
      ensures result.Some? ==> AllOk(result.value, lits) && Equivalent(result.value, lits, formula, negated)
      ensures result.Some? ==> forall i :: 0 <= i < |result.value| ==> NoTemporary(result.value[i], lits)
      ensures IsFormula(formula) ==> result.Some?
    {
      hide Apart, StepOk, Evolved, LitsOk, AtomsOk, UniverseOk, NoTemporary, Equivalent;
      var list, pos := clauses, 0;
      while pos < |list|
        invariant Valid() && old(universe) <= universe && pos <= |list|
        invariant forall i :: i in old(negated) ==> i in negated && negated[i] == old(negated)[i]
        invariant AllOk(list, lits) && Equivalent(list, lits, formula, negated)
        invariant forall i :: 0 <= i < pos ==> NoTemporary(list[i], lits)
        invariant IsFormula(formula) ==> Known(lits)
        decreases TotalWork(list, lits), |list| - pos
      {
        var clause := list[pos];
        ClauseInRange(clause, lits);
        if clause.isFinished {
          FinishedNoTemporary(clause, lits);
          pos := pos + 1;
        } else {
          var j := FirstTemporary(clause);
          if j < |clause.literals| {
            ghost var before, knew := lits, negated;
            TakenApart(clause, j, lits);
            var added := PerformStep(Taken(clause, j), clause.literals[j]);
            if added.None? {
              return None;
            }
            ReplacedOk(list, pos, j, added.value, before, lits, negated);
            ReplacedWork(list, pos, j, added.value, before, lits, negated);
            ReplacedEquivalent(list, pos, j, added.value, before, lits, knew, negated, formula);
            list := Replaced(list, pos, added.value);
          } else {
            FlagFinished(list, pos, lits, formula, negated);
            list := list[pos := clause.(isFinished := true)];
            pos := pos + 1;
          }
        }
      }
      result := Some(list);
    }

    // The clauses of a formula: satisfied by exactly the assignments under which it holds. None
    // when a subformula of unknown kind turned up.
    method TransformToCNF(formula: Term) returns (clauses: Option<seq<Clause>>)
      requires Valid() && formula in universe
      modifies this
      ensures Valid() && old(universe) <= universe
      ensures forall i :: i in old(negated) ==> i in negated && negated[i] == old(negated)[i]
      ensures IsFormula(formula) ==> clauses.Some?
      ensures clauses.Some? ==> forall c :: c in clauses.value ==> Final(c, lits)
      ensures clauses.Some? ==> SatisfiedIfTrue(clauses.value, lits, terms, negated, formula)
      ensures clauses.Some? ==> SatisfiedIfTrueStrictly(clauses.value, lits, terms, negated, formula)
      ensures clauses.Some? ==> TrueIfSolved(clauses.value, lits, atoms, negated, formula)
      ensures clauses.Some? ==>
        ((exists u :: Satisfied(clauses.value, lits, u)) <==> exists val :: Consistent(val, negated) && Truth(formula, val))
      ensures clauses.Some? && IsConstraint(formula) ==> forall p: Point ::
        Satisfied(clauses.value, lits, Induced(AtPoint(universe, p), terms)) <==> Value(Forward, formula, p) > 0.0
    {
      hide Truth, LitTrue, UniverseOk, Value, AtPoint, Satisfied, Induced, IsConstraint, Consistent, Extended, ReadBack,
        SatisfiedIfTrue, SatisfiedIfTrueStrictly, TrueIfSolved;
      lits := [];
      atoms := map[];
      atomOccurrence := 0;
      var l := NewLit(formula);
      var initial := Clause([l], false, false);
      InitialEquivalent(initial, lits, formula, negated);
      clauses := DoTransform([initial], formula);
      if clauses.Some? {
        AllFinal(clauses.value, lits);
        ConsistentSatisfied(clauses.value, formula);
        StrictlySatisfied(clauses.value, formula);
        Solved(clauses.value, formula);
        SatisfiableTogether(clauses.value, lits, terms, atoms, negated, formula);
        forall p: Point | IsConstraint(formula)
          ensures Satisfied(clauses.value, lits, Induced(AtPoint(universe, p), terms)) <==> Value(Forward, formula, p) > 0.0
        {
          TruthAtPoint(universe, negated, nextId, formula, p);
          TrueSatisfied(clauses.value, lits, terms, negated, formula, AtPoint(universe, p));
        }
      }
    }

    lemma ConsistentSatisfied(clauses: seq<Clause>, formula: Term)
      requires Valid() && AllOk(clauses, lits) && forall c :: c in clauses ==> Final(c, lits)
      requires Equivalent(clauses, lits, formula, negated)
      ensures SatisfiedIfTrue(clauses, lits, terms, negated, formula)
    {
      hide Truth, UniverseOk, Satisfied, Final, Induced, Consistent, CnfTrue;
      forall val: Valuation | Consistent(val, negated)
        ensures Satisfied(clauses, lits, Induced(val, terms)) <==> Truth(formula, val)
      {
        SatisfiedTrue(clauses, lits, atoms, terms, universe, val);
      }
    }

    lemma StrictlySatisfied(clauses: seq<Clause>, formula: Term)
      requires Valid() && forall c :: c in clauses ==> Final(c, lits)
      requires SatisfiedIfTrue(clauses, lits, terms, negated, formula)
      ensures SatisfiedIfTrueStrictly(clauses, lits, terms, negated, formula)
      ensures forall strict: Valuation :: Consistent(Extended(strict, negated), negated)
    {
      hide Truth, UniverseOk, LitsOk, AtomsOk, Satisfied, Final, Induced, Consistent, Extended;
      forall strict: Valuation
        ensures Consistent(Extended(strict, negated), negated)
        ensures Satisfied(clauses, lits, Induced(strict, terms)) <==> Truth(formula, Extended(strict, negated))
      {
        ExtendedIsConsistent(universe, negated, nextId, strict);
        StrictSatisfied(clauses, lits, atoms, terms, universe, strict, Extended(strict, negated));
      }
    }

    lemma Solved(clauses: seq<Clause>, formula: Term)
      requires Valid() && forall c :: c in clauses ==> Final(c, lits)
      requires SatisfiedIfTrueStrictly(clauses, lits, terms, negated, formula)
      ensures TrueIfSolved(clauses, lits, atoms, negated, formula)
    {
      hide Truth, UniverseOk, LitsOk, AtomsOk, Satisfied, Final, Induced, Consistent, Extended, ReadBack;
      forall u: Valuation ensures Satisfied(clauses, lits, u) <==> Truth(formula, Extended(ReadBack(u, atoms), negated)) {
        ReadBackSatisfied(clauses, lits, atoms, terms, universe, u);
      }
    }
  }

  lemma TrueSatisfied(clauses: seq<Clause>, lits: seq<Lit>, terms: seq<Term>, negated: map<nat, Term>, formula: Term, val: Valuation)
    requires forall c :: c in clauses ==> Final(c, lits)
    requires SatisfiedIfTrue(clauses, lits, terms, negated, formula) && Consistent(val, negated)
    ensures Satisfied(clauses, lits, Induced(val, terms)) <==> Truth(formula, val)
  {
  }

  lemma TrueSolved(clauses: seq<Clause>, lits: seq<Lit>, atoms: map<nat, nat>, negated: map<nat, Term>, formula: Term, u: Valuation)
    requires forall c :: c in clauses ==> Final(c, lits)
    requires TrueIfSolved(clauses, lits, atoms, negated, formula)
    ensures Satisfied(clauses, lits, u) <==> Truth(formula, Extended(ReadBack(u, atoms), negated))
  {
  }

  lemma SatisfiableTogether(clauses: seq<Clause>, lits: seq<Lit>, terms: seq<Term>, atoms: map<nat, nat>,
                            negated: map<nat, Term>, formula: Term)
    requires forall c :: c in clauses ==> Final(c, lits)
    requires SatisfiedIfTrue(clauses, lits, terms, negated, formula) && TrueIfSolved(clauses, lits, atoms, negated, formula)
    requires forall strict: Valuation :: Consistent(Extended(strict, negated), negated)
    ensures (exists u :: Satisfied(clauses, lits, u)) <==> exists val :: Consistent(val, negated) && Truth(formula, val)
  {
    hide Truth, Final, Satisfied, Induced, Consistent, Extended, ReadBack, SatisfiedIfTrue, TrueIfSolved;
    if val :| Consistent(val, negated) && Truth(formula, val) {
      TrueSatisfied(clauses, lits, terms, negated, formula, val);
    }
    if u :| Satisfied(clauses, lits, u) {
      var val := Extended(ReadBack(u, atoms), negated);
      TrueSolved(clauses, lits, atoms, negated, formula, u);
      assert Consistent(val, negated);
    }
  }

  lemma InitialEquivalent(c: Clause, lits: seq<Lit>, formula: Term, negated: map<nat, Term>)
    requires lits == [Lit(formula, Unassigned, 0, true)] && c == Clause([0], false, false)
    ensures AllOk([c], lits) && Equivalent([c], lits, formula, negated)
    ensures IsFormula(formula) ==> Known(lits)
  {
    assert forall val: Valuation :: LitTrue(lits[c.literals[0]], val) == Truth(formula, val);
    assert [c][0] == c;
  }

  // The values of the solver's variables that a valuation of their terms gives.
  function Induced(val: Valuation, terms: seq<Term>): Valuation {
    (v: nat) => v < |terms| && val(terms[v].id)
  }

  // The values of the strict comparisons that an assignment to the solver's variables gives.
  function ReadBack(u: Valuation, atoms: map<nat, nat>): Valuation {
    (a: nat) => a in atoms && u(atoms[a])
  }

  // A clause ready for the solver: all its literals have variables and signs.
  predicate Final(c: Clause, lits: seq<Lit>) {
    InRange(c, lits) && NoTemporary(c, lits)
  }

  // An assignment to the solver's variables satisfies every clause that is no tautology.
  predicate Satisfied(clauses: seq<Clause>, lits: seq<Lit>, u: Valuation)
    requires forall c :: c in clauses ==> Final(c, lits)
  {
    forall c :: c in clauses && !c.isTautologic ==> SatisfiedClause(c, lits, u)
  }

  predicate SatisfiedClause(c: Clause, lits: seq<Lit>, u: Valuation)
    requires Final(c, lits)
  {
    exists k :: 0 <= k < |c.literals| && u(lits[c.literals[k]].variable) == lits[c.literals[k]].sign.True?
  }

  // An assignment that a consistent valuation induces satisfies the clauses iff the valuation
  // makes the formula true.
  ghost predicate SatisfiedIfTrue(clauses: seq<Clause>, lits: seq<Lit>, terms: seq<Term>, negated: map<nat, Term>, formula: Term)
    requires forall c :: c in clauses ==> Final(c, lits)
  {
    forall val: Valuation :: Consistent(val, negated) ==>
      (Satisfied(clauses, lits, Induced(val, terms)) <==> Truth(formula, val))
  }

  // So does one that any valuation of the strict comparisons induces, extended to all comparisons.
  ghost predicate SatisfiedIfTrueStrictly(clauses: seq<Clause>, lits: seq<Lit>, terms: seq<Term>, negated: map<nat, Term>, formula: Term)
    requires forall c :: c in clauses ==> Final(c, lits)
  {
    forall strict: Valuation ::
      Satisfied(clauses, lits, Induced(strict, terms)) <==> Truth(formula, Extended(strict, negated))
  }

  // Any assignment to the solver's variables satisfies the clauses iff the formula is true in the
  // valuation read back from it.
  ghost predicate TrueIfSolved(clauses: seq<Clause>, lits: seq<Lit>, atoms: map<nat, nat>, negated: map<nat, Term>, formula: Term)
    requires forall c :: c in clauses ==> Final(c, lits)
  {
    forall u: Valuation :: Satisfied(clauses, lits, u) <==> Truth(formula, Extended(ReadBack(u, atoms), negated))
  }

  lemma AllFinal(clauses: seq<Clause>, lits: seq<Lit>)
    requires AllOk(clauses, lits) && forall i :: 0 <= i < |clauses| ==> NoTemporary(clauses[i], lits)
    ensures forall c :: c in clauses ==> Final(c, lits)
  {
    forall c | c in clauses ensures Final(c, lits) {
      var i :| 0 <= i < |clauses| && clauses[i] == c;
      ClauseInRange(clauses[i], lits);
    }
  }

  // Clauses see an assignment only at the variables of their literals.
  lemma SameAssignment(clauses: seq<Clause>, lits: seq<Lit>, u: Valuation, v: Valuation)
    requires forall c :: c in clauses ==> Final(c, lits)
    requires forall k :: 0 <= k < |lits| && !lits[k].isTemporary ==> u(lits[k].variable) == v(lits[k].variable)
    ensures Satisfied(clauses, lits, u) <==> Satisfied(clauses, lits, v)
  {
    forall c | c in clauses ensures SatisfiedClause(c, lits, u) == SatisfiedClause(c, lits, v) {
      assert Final(c, lits);
    }
  }

  // Only the strict comparisons of a valuation matter for what it induces.
  lemma StrictSatisfied(clauses: seq<Clause>, lits: seq<Lit>, atoms: map<nat, nat>, terms: seq<Term>, universe: set<Term>,
                        strict: Valuation, val: Valuation)
    requires forall c :: c in clauses ==> Final(c, lits)
    requires LitsOk(lits, atoms, universe) && AtomsOk(atoms, terms)
    requires forall t :: t in universe && t.LTConstraint? ==> val(t.id) == strict(t.id)
    ensures Satisfied(clauses, lits, Induced(strict, terms)) <==> Satisfied(clauses, lits, Induced(val, terms))
  {
    hide Satisfied, Final;
    forall k | 0 <= k < |lits| && !lits[k].isTemporary
      ensures Induced(strict, terms)(lits[k].variable) == Induced(val, terms)(lits[k].variable)
    {
      assert LitOk(lits[k], atoms) && lits[k].atom in universe;
    }
    SameAssignment(clauses, lits, Induced(strict, terms), Induced(val, terms));
  }

  lemma ReadBackSatisfied(clauses: seq<Clause>, lits: seq<Lit>, atoms: map<nat, nat>, terms: seq<Term>, universe: set<Term>, u: Valuation)
    requires forall c :: c in clauses ==> Final(c, lits)
    requires LitsOk(lits, atoms, universe) && AtomsOk(atoms, terms)
    ensures Satisfied(clauses, lits, u) <==> Satisfied(clauses, lits, Induced(ReadBack(u, atoms), terms))
  {
    hide Satisfied, Final;
    forall k | 0 <= k < |lits| && !lits[k].isTemporary
      ensures u(lits[k].variable) == Induced(ReadBack(u, atoms), terms)(lits[k].variable)
    {
      assert LitOk(lits[k], atoms) && lits[k].atom in universe;
    }
    SameAssignment(clauses, lits, u, Induced(ReadBack(u, atoms), terms));
  }

  lemma SatisfiedTrue(clauses: seq<Clause>, lits: seq<Lit>, atoms: map<nat, nat>, terms: seq<Term>, universe: set<Term>, val: Valuation)
    requires AllOk(clauses, lits) && forall c :: c in clauses ==> Final(c, lits)
    requires LitsOk(lits, atoms, universe) && AtomsOk(atoms, terms)
    ensures Satisfied(clauses, lits, Induced(val, terms)) <==> CnfTrue(clauses, lits, val)
  {
    hide ClauseOk, Truth;
    var u := Induced(val, terms);
    forall i | 0 <= i < |clauses|
      ensures Final(clauses[i], lits)
      ensures !clauses[i].isTautologic ==> SatisfiedClause(clauses[i], lits, u) == ClauseTrue(clauses[i], lits, val)
    {
      assert clauses[i] in clauses;
      forall k | 0 <= k < |clauses[i].literals|
        ensures var l := lits[clauses[i].literals[k]]; LitTrue(l, val) == (u(l.variable) == l.sign.True?)
      {
        assert LitOk(lits[clauses[i].literals[k]], atoms);
      }
    }
  }
}
