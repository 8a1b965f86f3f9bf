// What one rewriting step does to the meaning of a clause and to the work that is left.
module CnfStep {

  import opened AutodiffTerms
  import opened AutodiffDag
  import opened CnfTypes

  function Cleared(c: Clause): Clause {
    c.(isTautologic := true, literals := [])
  }

  function Pushed(c: Clause, l: nat): Clause {
    c.(literals := c.literals + [l])
  }

  // Literal k of c makes adding l superfluous.
  predicate Repeats(c: Clause, k: nat, l: nat, lits: seq<Lit>)
    requires InRange(c, lits) && l < |lits| && k < |c.literals|
  {
    var other := lits[c.literals[k]];
    && other.atom.id == lits[l].atom.id
    && (if lits[l].isTemporary then other.isTemporary else other.sign == lits[l].sign)
  }

  predicate Opposes(c: Clause, k: nat, l: nat, lits: seq<Lit>)
    requires InRange(c, lits) && l < |lits| && k < |c.literals|
  {
    var other := lits[c.literals[k]];
    other.atom.id == lits[l].atom.id && !lits[l].isTemporary && other.sign != lits[l].sign
  }

  // r is c with l added, unless a literal of c repeats or opposes l.
  predicate Checked(c: Clause, l: nat, r: Clause, lits: seq<Lit>)
    requires InRange(c, lits) && l < |lits|
  {
    || (r == c && exists k :: 0 <= k < |c.literals| && Repeats(c, k, l, lits))
    || (r == Cleared(c) && exists k :: 0 <= k < |c.literals| && Opposes(c, k, l, lits))
    || (r == Pushed(c, l)
        && forall k :: 0 <= k < |c.literals| ==> !Repeats(c, k, l, lits) && !Opposes(c, k, l, lits))
  }

  // l can be added to c: c is still open, and a temporary literal of c with the atom of l can
  // only be there when l is the negation of it.
  predicate Addable(c: Clause, l: nat, lits: seq<Lit>) {
    && ClauseOk(c, lits) && l < |lits| && !c.isFinished && !c.isTautologic
    && forall k :: 0 <= k < |c.literals| ==> lits[l].sign == True ==> Apart(lits[l].(isTemporary := true), lits[c.literals[k]])
  }

  ghost predicate LitsOk(lits: seq<Lit>, atoms: map<nat, nat>, universe: set<Term>) {
    forall k :: 0 <= k < |lits| ==> LitOk(lits[k], atoms) && lits[k].atom in universe
  }

  lemma CheckedTrue(c: Clause, l: nat, r: Clause, lits: seq<Lit>, atoms: map<nat, nat>, universe: set<Term>, val: Valuation)
    requires Addable(c, l, lits) && Checked(c, l, r, lits)
    requires LitsOk(lits, atoms, universe) && OneTermPerId(universe)
    ensures InRange(r, lits)
    ensures ClauseTrue(r, lits, val) <==> ClauseTrue(c, lits, val) || LitTrue(lits[l], val)
  {
    if r == c {
      var k :| 0 <= k < |c.literals| && Repeats(c, k, l, lits);
      var other := lits[c.literals[k]];
      assert other.atom == lits[l].atom;
      assert LitTrue(other, val) == LitTrue(lits[l], val);
    } else if r == Pushed(c, l) {
      PushedTrue(c, l, lits, val);
    } else {
      var k :| 0 <= k < |c.literals| && Opposes(c, k, l, lits);
      var other := lits[c.literals[k]];
      assert other.atom == lits[l].atom;
      assert Apart(lits[l].(isTemporary := true), other) || lits[l].sign != True;
      assert LitTrue(other, val) || LitTrue(lits[l], val);
    }
  }

  lemma PushedTrue(c: Clause, l: nat, lits: seq<Lit>, val: Valuation)
    requires InRange(c, lits) && l < |lits|
    ensures InRange(Pushed(c, l), lits)
    ensures ClauseTrue(Pushed(c, l), lits, val) <==> ClauseTrue(c, lits, val) || LitTrue(lits[l], val)
  {
    var r := Pushed(c, l);
    assert r.literals[|c.literals|] == l;
    if k :| 0 <= k < |c.literals| && LitTrue(lits[c.literals[k]], val) {
      assert r.literals[k] == c.literals[k];
    }
  }

  lemma PushedOk(c: Clause, l: nat, lits: seq<Lit>)
    requires ClauseOk(c, lits) && l < |lits| && !c.isFinished && !c.isTautologic
    requires forall k :: 0 <= k < |c.literals| ==> Apart(lits[c.literals[k]], lits[l])
    ensures ClauseOk(Pushed(c, l), lits)
    ensures Pending(Pushed(c, l).literals, lits) == Pending(c.literals, lits) + LitSize(lits[l])
  {
    hide Apart;
    var r := Pushed(c, l);
    assert r.literals[..|c.literals|] == c.literals;
    forall i, j | 0 <= i < j < |r.literals| ensures Apart(lits[r.literals[i]], lits[r.literals[j]]) {
      assert r.literals[i] == c.literals[i];
      if j < |c.literals| {
        assert Apart(lits[c.literals[i]], lits[c.literals[j]]);
      }
    }
  }

  lemma CheckedOk(c: Clause, l: nat, r: Clause, lits: seq<Lit>)
    requires Addable(c, l, lits) && Checked(c, l, r, lits)
    ensures ClauseOk(r, lits) && !r.isFinished
    ensures Pending(r.literals, lits) <= Pending(c.literals, lits) + LitSize(lits[l])
  {
    hide Pending, NoTemporary;
    if r == Pushed(c, l) && r != c {
      forall k | 0 <= k < |c.literals| ensures Apart(lits[c.literals[k]], lits[l]) {
        assert !Repeats(c, k, l, lits);
      }
      PushedOk(c, l, lits);
    } else if r == Cleared(c) {
      ClearedOk(c, lits);
    }
  }

  lemma ClearedOk(c: Clause, lits: seq<Lit>)
    requires !c.isFinished
    ensures ClauseOk(Cleared(c), lits) && Pending(Cleared(c).literals, lits) == 0
  {
  }

  // Literal l, about to be rewritten, was taken from the open clause c.
  predicate Rewritable(c: Clause, l: nat, lits: seq<Lit>) {
    && ClauseOk(c, lits) && !c.isFinished && !c.isTautologic
    && l < |lits| && lits[l].isTemporary
    && forall k :: 0 <= k < |c.literals| ==> Apart(lits[c.literals[k]], lits[l])
  }

  // The added clauses say what c with the literal said, and leave less work.
  ghost predicate StepOk(c: Clause, t: Term, added: seq<Clause>, before: seq<Lit>, after: seq<Lit>, negated: map<nat, Term>)
    requires InRange(c, before)
  {
    && (forall i :: 0 <= i < |added| ==> ClauseOk(added[i], after) && !added[i].isFinished)
    && (forall val: Valuation :: Consistent(val, negated) ==>
          (CnfTrue(added, after, val) <==> ClauseTrue(c, before, val) || Truth(t, val)))
    && Work(added, after) < Pow3(Pending(c.literals, before) + Size(t))
  }

  lemma WorkOfOne(c: Clause, lits: seq<Lit>)
    requires InRange(c, lits)
    ensures Work([c], lits) == Pow3(Pending(c.literals, lits))
  {
    assert [c][..0] == [];
    assert Work([c][..0], lits) == 0;
  }

  lemma WorkOfTwo(a: Clause, b: Clause, lits: seq<Lit>)
    requires InRange(a, lits) && InRange(b, lits)
    ensures Work([a, b], lits) == Pow3(Pending(a.literals, lits)) + Pow3(Pending(b.literals, lits))
  {
    assert [a, b][..1] == [a];
    WorkOfOne(a, lits);
  }

  lemma SameLits(lits: seq<Lit>, more: seq<Lit>, negated: map<nat, Term>)
    ensures Evolved(lits, lits + more, negated)
  {
  }

  // c with l, then with r.
  lemma Disjoined(c: Clause, t: Term, l: nat, r: nat, c1: Clause, c2: Clause,
                  before: seq<Lit>, after: seq<Lit>, atoms: map<nat, nat>, universe: set<Term>, negated: map<nat, Term>)
    requires ClauseOk(c, before) && !c.isFinished && !c.isTautologic && before <= after
    requires |before| <= l < |after| && |before| <= r < |after| && after[l].isTemporary && after[r].isTemporary
    requires t.Max? || t.Or?
    requires after[l].atom == t.left && after[r].atom == t.right
    requires LitsOk(after, atoms, universe) && OneTermPerId(universe)
    requires Checked(c, l, c1, after) && InRange(c1, after) && Checked(c1, r, c2, after)
    ensures StepOk(c, t, [c2], before, after, negated)
  {
    hide NoTemporary, Apart, ClauseTrue, Checked, Pending, Work, Truth;
    Grown(c, before, after, negated);
    TemporaryAddable(c, l, after, atoms, universe);
    CheckedOk(c, l, c1, after);
    TemporaryOpen(c, l, c1, after, atoms, universe);
    TemporaryAddable(c1, r, after, atoms, universe);
    CheckedOk(c1, r, c2, after);
    WorkOfOne(c2, after);
    Strictly(Pending(c2.literals, after), Pending(c.literals, before), Size(t));
    forall val: Valuation | Consistent(val, negated)
      ensures CnfTrue([c2], after, val) <==> ClauseTrue(c, before, val) || Truth(t, val)
    {
      CheckedTrue(c, l, c1, after, atoms, universe, val);
      CheckedTrue(c1, r, c2, after, atoms, universe, val);
      TruthOfPair(t, val);
      assert [c2][0] == c2;
    }
  }

  // c with l and, separately, c with r.
  lemma Conjoined(c: Clause, t: Term, l: nat, r: nat, c1: Clause, c2: Clause,
                  before: seq<Lit>, after: seq<Lit>, atoms: map<nat, nat>, universe: set<Term>, negated: map<nat, Term>)
    requires ClauseOk(c, before) && !c.isFinished && !c.isTautologic && before <= after
    requires |before| <= l < |after| && |before| <= r < |after| && after[l].isTemporary && after[r].isTemporary
    requires t.Min? || t.And?
    requires after[l].atom == t.left && after[r].atom == t.right
    requires LitsOk(after, atoms, universe) && OneTermPerId(universe)
    requires InRange(c, after) && Checked(c, l, c1, after) && Checked(c, r, c2, after)
    ensures StepOk(c, t, [c1, c2], before, after, negated)
  {
    hide NoTemporary, Apart, ClauseTrue, Checked, Pending, Work, Truth;
    Grown(c, before, after, negated);
    TemporaryAddable(c, l, after, atoms, universe);
    TemporaryAddable(c, r, after, atoms, universe);
    CheckedOk(c, l, c1, after);
    CheckedOk(c, r, c2, after);
    WorkOfTwo(c1, c2, after);
    Twice(Pending(c1.literals, after), Pending(c2.literals, after), Pending(c.literals, before), Size(t));
    forall val: Valuation | Consistent(val, negated)
      ensures CnfTrue([c1, c2], after, val) <==> ClauseTrue(c, before, val) || Truth(t, val)
    {
      CheckedTrue(c, l, c1, after, atoms, universe, val);
      CheckedTrue(c, r, c2, after, atoms, universe, val);
      TruthOfPair(t, val);
      assert [c1, c2][0] == c1 && [c1, c2][1] == c2;
    }
  }

  lemma TruthOfPair(t: Term, val: Valuation)
    requires t.Max? || t.Or? || t.Min? || t.And?
    ensures t.Max? || t.Or? ==> (Truth(t, val) <==> Truth(t.left, val) || Truth(t.right, val))
    ensures t.Min? || t.And? ==> (Truth(t, val) <==> Truth(t.left, val) && Truth(t.right, val))
  {
  }

  // New literals change nothing for a clause.
  lemma Grown(c: Clause, before: seq<Lit>, after: seq<Lit>, negated: map<nat, Term>)
    requires ClauseOk(c, before) && before <= after
    ensures ClauseOk(c, after) && Pending(c.literals, after) <= Pending(c.literals, before)
    ensures forall val: Valuation :: Consistent(val, negated) ==> ClauseTrue(c, after, val) == ClauseTrue(c, before, val)
  {
    assert after == before + after[|before|..];
    SameLits(before, after[|before|..], negated);
    EvolvedClause(c, before, after, negated);
    PendingEvolved(c.literals, before, after, negated);
  }

  lemma TemporaryAddable(c: Clause, l: nat, lits: seq<Lit>, atoms: map<nat, nat>, universe: set<Term>)
    requires ClauseOk(c, lits) && !c.isFinished && !c.isTautologic
    requires LitsOk(lits, atoms, universe) && l < |lits| && lits[l].isTemporary
    ensures Addable(c, l, lits)
  {
  }

  // A temporary literal opposes no other.
  lemma TemporaryOpen(c: Clause, l: nat, r: Clause, lits: seq<Lit>, atoms: map<nat, nat>, universe: set<Term>)
    requires ClauseOk(c, lits) && l < |lits| && Checked(c, l, r, lits) && !c.isTautologic
    requires lits[l].isTemporary
    ensures !r.isTautologic
  {
  }

  lemma Strictly(m: nat, n: nat, k: nat)
    requires m < n + k
    ensures Pow3(m) < Pow3(n + k)
  {
    Pow3Monotone(m, n + k - 1);
  }

  lemma Twice(a: nat, b: nat, n: nat, k: nat)
    requires a < n + k && b < n + k
    ensures Pow3(a) + Pow3(b) < Pow3(n + k)
  {
    Pow3Monotone(a, n + k - 1);
    Pow3Monotone(b, n + k - 1);
  }

  // Literal l is finished, with the meaning it had, and added back to its clause.
  lemma Finished(c: Clause, l: nat, r: Clause, before: seq<Lit>, after: seq<Lit>,
                 atoms: map<nat, nat>, universe: set<Term>, negated: map<nat, Term>)
    requires Rewritable(c, l, before) && |after| == |before| && after == before[l := after[l]]
    requires !after[l].isTemporary && SameMeaning(before[l], after[l], negated)
    requires after[l].sign == True ==> after[l].atom.id == before[l].atom.id
    requires LitsOk(after, atoms, universe) && OneTermPerId(universe)
    requires InRange(c, after) && Checked(c, l, r, after)
    ensures Evolved(before, after, negated)
    ensures StepOk(c, before[l].atom, [r], before, after, negated)
  {
    hide NoTemporary, Apart, ClauseTrue, Checked, Pending, Work, Truth;
    var t := before[l].atom;
    OneEvolved(before, after, l, negated);
    FinishedAddable(c, l, before, after, negated);
    PendingEvolved(c.literals, before, after, negated);
    CheckedOk(c, l, r, after);
    WorkOfOne(r, after);
    Strictly(Pending(r.literals, after), Pending(c.literals, before), Size(t));
    EvolvedClause(c, before, after, negated);
    forall val: Valuation | Consistent(val, negated)
      ensures CnfTrue([r], after, val) <==> ClauseTrue(c, before, val) || Truth(t, val)
    {
      CheckedTrue(c, l, r, after, atoms, universe, val);
      assert [r][0] == r;
    }
  }

  lemma OneEvolved(before: seq<Lit>, after: seq<Lit>, l: nat, negated: map<nat, Term>)
    requires l < |before| && |after| == |before| && after == before[l := after[l]]
    requires SameMeaning(before[l], after[l], negated)
    ensures Evolved(before, after, negated)
  {
  }

  lemma FinishedAddable(c: Clause, l: nat, before: seq<Lit>, after: seq<Lit>, negated: map<nat, Term>)
    requires Rewritable(c, l, before) && |after| == |before| && after == before[l := after[l]]
    requires !after[l].isTemporary && Evolved(before, after, negated)
    requires after[l].sign == True ==> after[l].atom.id == before[l].atom.id
    ensures Addable(c, l, after)
  {
    EvolvedClause(c, before, after, negated);
    forall k | 0 <= k < |c.literals| && after[l].sign == True
      ensures Apart(after[l].(isTemporary := true), after[c.literals[k]])
    {
      assert Apart(before[c.literals[k]], before[l]);
    }
  }

  // A constant literal decides its clause.
  lemma ConstantStep(c: Clause, t: Term, lits: seq<Lit>, negated: map<nat, Term>)
    requires ClauseOk(c, lits) && !c.isFinished && t.Constant?
    ensures StepOk(c, t, if t.value <= 0.0 then [c] else [], lits, lits, negated)
  {
    hide NoTemporary, Apart, Pending;
    if t.value <= 0.0 {
      WorkOfOne(c, lits);
      Strictly(Pending(c.literals, lits), Pending(c.literals, lits), Size(t));
    }
  }

  // c without its literal at position j.
  function Taken(c: Clause, j: nat): Clause
    requires j < |c.literals|
  {
    c.(literals := c.literals[..j] + c.literals[j + 1..])
  }

  lemma TakenApart(c: Clause, j: nat, lits: seq<Lit>)
    requires ClauseOk(c, lits) && !c.isFinished && j < |c.literals| && lits[c.literals[j]].isTemporary
    ensures Rewritable(Taken(c, j), c.literals[j], lits)
  {
    hide Apart;
    ghost var d := Taken(c, j);
    forall a, b | 0 <= a < b < |d.literals| ensures Apart(lits[d.literals[a]], lits[d.literals[b]]) {
      var a', b' := if a < j then a else a + 1, if b < j then b else b + 1;
      assert Apart(lits[c.literals[a']], lits[c.literals[b']]);
    }
    forall k | 0 <= k < |d.literals| ensures Apart(lits[d.literals[k]], lits[c.literals[j]]) {
      var k' := if k < j then k else k + 1;
      ApartSymmetric(lits[c.literals[j]], lits[c.literals[k']]);
    }
  }

  lemma ApartSymmetric(a: Lit, b: Lit)
    ensures Apart(a, b) == Apart(b, a)
  {
  }

  lemma TakenTrue(c: Clause, j: nat, lits: seq<Lit>, val: Valuation)
    requires InRange(c, lits) && j < |c.literals|
    ensures InRange(Taken(c, j), lits)
    ensures ClauseTrue(c, lits, val) <==> ClauseTrue(Taken(c, j), lits, val) || LitTrue(lits[c.literals[j]], val)
  {
    hide LitTrue;
    ghost var d := Taken(c, j);
    if k :| 0 <= k < |c.literals| && LitTrue(lits[c.literals[k]], val) {
      if k != j {
        assert d.literals[if k < j then k else k - 1] == c.literals[k];
      }
    }
    if k :| 0 <= k < |d.literals| && LitTrue(lits[d.literals[k]], val) {
      assert c.literals[if k < j then k else k + 1] == d.literals[k];
    }
  }

  lemma TakenPending(c: Clause, j: nat, lits: seq<Lit>)
    requires InRange(c, lits) && j < |c.literals|
    ensures InRange(Taken(c, j), lits)
    ensures Pending(c.literals, lits) == Pending(Taken(c, j).literals, lits) + LitSize(lits[c.literals[j]])
  {
    var a, b, l := c.literals[..j], c.literals[j + 1..], c.literals[j];
    assert c.literals == (a + [l]) + b;
    PendingConcat(a + [l], b, lits);
    PendingConcat(a, [l], lits);
    PendingConcat(a, b, lits);
    assert [l][..0] == [];
    assert Pending([l], lits) == Pending([l][..0], lits) + LitSize(lits[l]);
  }

  predicate AllOk(clauses: seq<Clause>, lits: seq<Lit>) {
    forall i :: 0 <= i < |clauses| ==> ClauseOk(clauses[i], lits)
  }

  // The clause list after the clause at position i gave way to the added ones.
  function Replaced(clauses: seq<Clause>, i: nat, added: seq<Clause>): seq<Clause>
    requires i < |clauses|
  {
    clauses[..i] + clauses[i + 1..] + added
  }

  lemma ReplacedOk(clauses: seq<Clause>, i: nat, j: nat, added: seq<Clause>, before: seq<Lit>, after: seq<Lit>, negated: map<nat, Term>)
    requires AllOk(clauses, before) && i < |clauses| && j < |clauses[i].literals|
    requires Evolved(before, after, negated)
    requires InRange(Taken(clauses[i], j), before) && before[clauses[i].literals[j]].isTemporary
    requires StepOk(Taken(clauses[i], j), before[clauses[i].literals[j]].atom, added, before, after, negated)
    ensures AllOk(Replaced(clauses, i, added), after)
    ensures forall k :: 0 <= k < i && NoTemporary(clauses[k], before) ==> NoTemporary(clauses[k], after)
  {
    hide StepOk, Evolved, ClauseTrue, Apart, CnfTrue, Work, Pending, NoTemporary, ClauseOk;
    var c := clauses[i];
    ClauseInRange(c, before);
    StepFacts(Taken(c, j), before[c.literals[j]].atom, added, before, after, negated);
    forall k | 0 <= k < |clauses|
      ensures ClauseOk(clauses[k], after)
      ensures InRange(clauses[k], before) && InRange(clauses[k], after)
      ensures NoTemporary(clauses[k], before) ==> NoTemporary(clauses[k], after)
    {
      ClauseInRange(clauses[k], before);
      EvolvedClause(clauses[k], before, after, negated);
      ClauseInRange(clauses[k], after);
    }
  }

  lemma ClauseInRange(c: Clause, lits: seq<Lit>)
    requires ClauseOk(c, lits)
    ensures InRange(c, lits)
  {
  }

  lemma ReplacedWork(clauses: seq<Clause>, i: nat, j: nat, added: seq<Clause>, before: seq<Lit>, after: seq<Lit>, negated: map<nat, Term>)
    requires AllOk(clauses, before) && i < |clauses| && j < |clauses[i].literals|
    requires Evolved(before, after, negated)
    requires InRange(Taken(clauses[i], j), before) && before[clauses[i].literals[j]].isTemporary
    requires StepOk(Taken(clauses[i], j), before[clauses[i].literals[j]].atom, added, before, after, negated)
    ensures forall k :: 0 <= k < |Replaced(clauses, i, added)| ==> InRange(Replaced(clauses, i, added)[k], after)
    ensures Work(Replaced(clauses, i, added), after) < Work(clauses, before)
  {
    hide StepOk, Evolved, ClauseTrue, Apart, CnfTrue, Work, Pending, NoTemporary, ClauseOk, Pow3;
    var a, b, c := clauses[..i], clauses[i + 1..], clauses[i];
    forall k | 0 <= k < |clauses| ensures InRange(clauses[k], before) { ClauseInRange(clauses[k], before); }
    StepFacts(Taken(c, j), before[c.literals[j]].atom, added, before, after, negated);
    forall k | 0 <= k < |added| ensures InRange(added[k], after) { ClauseInRange(added[k], after); }
    assert clauses == (a + [c]) + b;
    WorkConcat(a + [c], b, before);
    WorkConcat(a, [c], before);
    WorkOfOne(c, before);
    TakenPending(c, j, before);
    WorkEvolved(a, before, after, negated);
    WorkEvolved(b, before, after, negated);
    WorkConcat(a, b, after);
    WorkConcat(a + b, added, after);
  }

  lemma StepFacts(c: Clause, t: Term, added: seq<Clause>, before: seq<Lit>, after: seq<Lit>, negated: map<nat, Term>)
    requires InRange(c, before) && StepOk(c, t, added, before, after, negated)
    ensures AllOk(added, after)
    ensures Work(added, after) < Pow3(Pending(c.literals, before) + Size(t))
  {
  }

  lemma ReplacedTrue(clauses: seq<Clause>, i: nat, j: nat, added: seq<Clause>, before: seq<Lit>, after: seq<Lit>, negated: map<nat, Term>, val: Valuation)
    requires AllOk(clauses, before) && i < |clauses| && j < |clauses[i].literals|
    requires Evolved(before, after, negated)
    requires InRange(Taken(clauses[i], j), before) && before[clauses[i].literals[j]].isTemporary
    requires StepOk(Taken(clauses[i], j), before[clauses[i].literals[j]].atom, added, before, after, negated)
    requires Consistent(val, negated)
    ensures AllOk(Replaced(clauses, i, added), after)
    ensures CnfTrue(Replaced(clauses, i, added), after, val) <==> CnfTrue(clauses, before, val)
  {
    hide Evolved, ClauseTrue, Apart, Work, Pending, NoTemporary, Consistent;
    ReplacedOk(clauses, i, j, added, before, after, negated);
    var next := Replaced(clauses, i, added);
    forall k | 0 <= k < |clauses| ensures ClauseOk(clauses[k], after) && ClauseTrue(clauses[k], after, val) == ClauseTrue(clauses[k], before, val) {
      EvolvedClause(clauses[k], before, after, negated);
    }
    TakenTrue(clauses[i], j, before, val);
    var n := |clauses| - 1;
    assert forall k :: 0 <= k < |clauses| && k != i ==> next[if k < i then k else k - 1] == clauses[k];
    assert forall k :: 0 <= k < |added| ==> next[n + k] == added[k];
    assert forall k :: 0 <= k < |next| ==> next[k] == if k < i then clauses[k] else if k < n then clauses[k + 1] else added[k - n];
  }
}
