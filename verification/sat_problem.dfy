// Problems given as lists of signed variable numbers, read into a solver and solved.
module SatProblem {

  import opened SatTypes
  import opened SatState
  import opened SatWatch
  import opened SatBooks
  import opened SatSetup
  import opened SatSolver

  function LitOf(val: int): Lit
    requires val != 0
  {
    Lit((if val < 0 then -val else val) - 1, val > 0)
  }

  // Zeros end a line and are no literals.
  function ClauseOf(vals: seq<int>): seq<Lit> {
    if vals == [] then []
    else
      var k := |vals| - 1;
      ClauseOf(vals[..k]) + if vals[k] == 0 then [] else [LitOf(vals[k])]
  }

  function ClausesOf(lines: seq<seq<int>>): seq<seq<Lit>> {
    seq(|lines|, i requires 0 <= i < |lines| => ClauseOf(lines[i]))
  }

  predicate NoComplements(lines: seq<seq<int>>) {
    forall i :: 0 <= i < |lines| ==> forall v :: v in lines[i] && v != 0 ==> -v !in lines[i]
  }

  // A line is read number by number, in order.

  lemma ClauseOfOne(v: int)
    ensures ClauseOf([v]) == if v == 0 then [] else [LitOf(v)]
  {
    assert [v][..0] == [];
  }

  lemma ClauseOfNext(vals: seq<int>, v: int)
    ensures ClauseOf(vals + [v]) == ClauseOf(vals) + if v == 0 then [] else [LitOf(v)]
  {
    assert (vals + [v])[..|vals|] == vals;
  }

  lemma {:induction false} ClauseOfParts(a: seq<int>, b: seq<int>)
    ensures ClauseOf(a + b) == ClauseOf(a) + ClauseOf(b)
  {
    if b == [] {
      assert a + b == a;
    } else {
      var front, v := b[..|b| - 1], b[|b| - 1];
      ClauseOfParts(a, front);
      ClauseOfNext(a + front, v);
      ClauseOfNext(front, v);
      assert b == front + [v] && a + b == (a + front) + [v];
    }
  }

  // What a line says, on its numbers: a number is true in m when its variable has its sign.
  predicate NumberHolds(m: set<nat>, v: int)
    requires v != 0
  {
    if v > 0 then v - 1 in m else -v - 1 !in m
  }

  ghost predicate LineHolds(m: set<nat>, vals: seq<int>) {
    exists v :: v in vals && v != 0 && NumberHolds(m, v)
  }

  ghost predicate LinesHold(m: set<nat>, lines: seq<seq<int>>) {
    forall i :: 0 <= i < |lines| ==> LineHolds(m, lines[i])
  }

  lemma {:induction false} ClauseSays(m: set<nat>, vals: seq<int>)
    ensures HoldsSome(m, ClauseOf(vals)) <==> LineHolds(m, vals)
  {
    if vals != [] {
      var k := |vals| - 1;
      var front := vals[..k];
      ClauseSays(m, front);
      assert vals == front + [vals[k]];
      assert vals[k] != 0 ==> (Holds(m, LitOf(vals[k])) <==> NumberHolds(m, vals[k]));
      if HoldsSome(m, ClauseOf(vals)) {
        var l :| l in ClauseOf(vals) && Holds(m, l);
        if l in ClauseOf(front) {
          assert HoldsSome(m, ClauseOf(front));
          var v :| v in front && v != 0 && NumberHolds(m, v);
          assert v in vals;
        } else {
          assert vals[k] in vals && NumberHolds(m, vals[k]);
        }
      }
      if LineHolds(m, vals) {
        var v :| v in vals && v != 0 && NumberHolds(m, v);
        if v in front {
          assert LineHolds(m, front);
          var l :| l in ClauseOf(front) && Holds(m, l);
          assert l in ClauseOf(vals);
        } else {
          assert LitOf(v) in ClauseOf(vals);
        }
      }
    }
  }

  lemma ClausesSay(lines: seq<seq<int>>)
    ensures Satisfiable(ClausesOf(lines)) <==> exists m :: LinesHold(m, lines)
  {
    var all := ClausesOf(lines);
    forall m ensures Models(m, all) <==> LinesHold(m, lines) {
      ModelsByIndex(m, all);
      forall i | 0 <= i < |lines| ensures HoldsSome(m, all[i]) <==> LineHolds(m, lines[i]) {
        ClauseSays(m, lines[i]);
      }
    }
  }

  lemma ModelsByIndex(m: set<nat>, all: seq<seq<Lit>>)
    ensures Models(m, all) <==> forall i :: 0 <= i < |all| ==> HoldsSome(m, all[i])
  {
    if Models(m, all) {
      forall i | 0 <= i < |all| ensures HoldsSome(m, all[i]) { assert all[i] in all; }
    }
  }

  // The lines that the solver refuses, on their numbers.

  predicate OnlyZeros(vals: seq<int>) {
    forall v :: v in vals ==> v == 0
  }

  // All numbers of the line but one, which is v, are zeros.
  ghost predicate OnlyNumber(vals: seq<int>, v: int) {
    v != 0 && exists i :: 0 <= i < |vals| && vals[i] == v && OnlyZeros(vals[..i]) && OnlyZeros(vals[i + 1..])
  }

  ghost predicate LinesClash(lines: seq<seq<int>>) {
    || (exists i :: 0 <= i < |lines| && OnlyZeros(lines[i]))
    || (exists i, j, v :: 0 <= i < |lines| && 0 <= j < |lines| && OnlyNumber(lines[i], v) && OnlyNumber(lines[j], -v))
  }

  lemma {:induction false} EmptyClauseOf(vals: seq<int>)
    ensures ClauseOf(vals) == [] <==> OnlyZeros(vals)
  {
    if vals != [] {
      var k := |vals| - 1;
      EmptyClauseOf(vals[..k]);
      assert vals == vals[..k] + [vals[k]];
      assert vals[k] in vals && forall v :: v in vals[..k] ==> v in vals;
    }
  }

  lemma SameNumber(a: int, b: int)
    requires a != 0 && b != 0
    ensures LitOf(a) == LitOf(b) <==> a == b
    ensures LitOf(-a) == Negated(LitOf(a))
  {
  }

  lemma UnitFromNumber(vals: seq<int>, v: int)
    requires OnlyNumber(vals, v)
    ensures ClauseOf(vals) == [LitOf(v)]
  {
    hide ClauseOf;
    var i :| 0 <= i < |vals| && vals[i] == v && OnlyZeros(vals[..i]) && OnlyZeros(vals[i + 1..]);
    EmptyClauseOf(vals[..i]);
    EmptyClauseOf(vals[i + 1..]);
    ClauseOfOne(v);
    ClauseOfParts(vals[..i], [v]);
    ClauseOfParts(vals[..i] + [v], vals[i + 1..]);
    assert vals == vals[..i] + [v] + vals[i + 1..];
  }

  lemma {:induction false} NumberFromUnit(vals: seq<int>, v: int)
    requires v != 0 && ClauseOf(vals) == [LitOf(v)]
    ensures OnlyNumber(vals, v)
  {
    var k := |vals| - 1;
    var front := vals[..k];
    if vals[k] == 0 {
      NumberFromUnit(front, v);
      var i :| 0 <= i < k && front[i] == v && OnlyZeros(front[..i]) && OnlyZeros(front[i + 1..]);
      assert vals[..i] == front[..i] && vals[i + 1..] == front[i + 1..] + [0];
    } else {
      var c := ClauseOf(front);
      assert c + [LitOf(vals[k])] == [LitOf(v)];
      assert |c| == 0 && (c + [LitOf(vals[k])])[0] == LitOf(vals[k]);
      EmptyClauseOf(front);
      SameNumber(vals[k], v);
      assert vals[k + 1..] == [] && vals[..k] == front;
    }
  }

  lemma LinesClashExactly(lines: seq<seq<int>>)
    ensures Clash(ClausesOf(lines)) <==> LinesClash(lines)
  {
    hide ClauseOf, OnlyZeros, OnlyNumber;
    var all := ClausesOf(lines);
    assert forall i :: 0 <= i < |lines| ==> all[i] == ClauseOf(lines[i]);
    if [] in all {
      var i :| 0 <= i < |lines| && all[i] == [];
      EmptyClauseOf(lines[i]);
    }
    if l: Lit :| [l] in all && [Negated(l)] in all {
      var i :| 0 <= i < |lines| && all[i] == [l];
      var j :| 0 <= j < |lines| && all[j] == [Negated(l)];
      OppositeNumbers(lines[i], lines[j], l);
    }
    if i :| 0 <= i < |lines| && OnlyZeros(lines[i]) {
      EmptyClauseOf(lines[i]);
      assert all[i] in all;
    }
    if i, j, v :| 0 <= i < |lines| && 0 <= j < |lines| && OnlyNumber(lines[i], v) && OnlyNumber(lines[j], -v) {
      OppositeUnits(lines[i], lines[j], v);
      assert all[i] in all && all[j] in all;
    }
  }

  lemma OppositeNumbers(a: seq<int>, b: seq<int>, l: Lit)
    requires ClauseOf(a) == [l] && ClauseOf(b) == [Negated(l)]
    ensures exists v :: OnlyNumber(a, v) && OnlyNumber(b, -v)
  {
    var v := if l.sign then l.v + 1 else -(l.v + 1);
    assert LitOf(v) == l;
    SameNumber(v, v);
    NumberFromUnit(a, v);
    NumberFromUnit(b, -v);
  }

  lemma OppositeUnits(a: seq<int>, b: seq<int>, v: int)
    requires OnlyNumber(a, v) && OnlyNumber(b, -v)
    ensures v != 0 && ClauseOf(a) == [LitOf(v)] && ClauseOf(b) == [Negated(LitOf(v))]
  {
    UnitFromNumber(a, v);
    UnitFromNumber(b, -v);
    SameNumber(v, v);
  }

  lemma {:induction false} LiteralsOf(vals: seq<int>)
    ensures forall l :: l in ClauseOf(vals) <==> (if l.sign then l.v + 1 else -(l.v + 1)) in vals
  {
    if vals != [] {
      var k := |vals| - 1;
      LiteralsOf(vals[..k]);
      assert vals == vals[..k] + [vals[k]];
      forall l ensures l in ClauseOf(vals) <==> (if l.sign then l.v + 1 else -(l.v + 1)) in vals {
        assert vals[k] != 0 ==> (l == LitOf(vals[k]) <==> (if l.sign then l.v + 1 else -(l.v + 1)) == vals[k]);
      }
    }
  }

  lemma LineHasNoComplement(vals: seq<int>)
    requires forall v :: v in vals && v != 0 ==> -v !in vals
    ensures NoComplement(ClauseOf(vals))
  {
    LiteralsOf(vals);
  }

  predicate Mentions(vals: seq<int>, v: int) {
    v in vals || -v in vals
  }

  // Reads the literals of a line, with new variables as they turn up.
  method ReadClause(solver: CNSat, vals: seq<int>) returns (c: seq<Lit>)
    requires solver.Building()
    modifies solver
    ensures solver.Building() && solver.clauses == old(solver.clauses)
    ensures c == ClauseOf(vals) && InRange(c, solver.variables)
    ensures solver.variables == old(solver.variables)
      || (solver.variables > old(solver.variables) && Mentions(vals, solver.variables))
  {
    hide SearchOk, WatchOk, BooksOk;
    c := [];
    for i := 0 to |vals|
      invariant solver.Building() && solver.clauses == old(solver.clauses)
      invariant c == ClauseOf(vals[..i]) && InRange(c, solver.variables)
      invariant solver.variables == old(solver.variables)
        || (solver.variables > old(solver.variables) && Mentions(vals, solver.variables))
    {
      assert vals[..i + 1][..i] == vals[..i];
      if vals[i] != 0 {
        var valn := if vals[i] < 0 then -vals[i] else vals[i];
        ghost var before := solver.variables;
        while solver.variables < valn
          invariant solver.variables == before || before < solver.variables <= valn
          invariant solver.Building() && solver.clauses == old(solver.clauses) && InRange(c, solver.variables)
          decreases valn - solver.variables
        {
          var v := solver.NewVar();
        }
        c := c + [LitOf(vals[i])];
      }
    }
    assert vals[..|vals|] == vals;
  }

  // The clauses that are accepted when all are added in order.
  function Accepted(all: seq<seq<Lit>>): seq<seq<Lit>> {
    if all == [] then []
    else
      var k := |all| - 1;
      Accepted(all[..k]) + if Refusable(Accepted(all[..k]), all[k]) then [] else [all[k]]
  }

  // An empty clause, or two opposite unit clauses.
  ghost predicate Clash(all: seq<seq<Lit>>) {
    [] in all || exists l: Lit :: [l] in all && [Negated(l)] in all
  }

  // Every clause is accepted unless the clauses clash, whatever their order.
  lemma {:induction false} AcceptedExactly(all: seq<seq<Lit>>)
    ensures Accepted(all) == all <==> !Clash(all)
    ensures Clash(all) ==> !Satisfiable(all)
  {
    if all != [] {
      var k := |all| - 1;
      var front, c := all[..k], all[k];
      assert all == front + [c];
      AcceptedExactly(front);
      AcceptedLength(front);
      if Clash(front) {
        assert Clash(all);
        if m: set<nat> :| Models(m, all) {
          assert Models(m, front);
        }
      } else if Refusable(front, c) {
        RefusedClashes(front, c);
      } else {
        NoNewClash(front, c);
      }
    }
  }

  lemma {:induction false} AcceptedLength(all: seq<seq<Lit>>)
    ensures |Accepted(all)| <= |all|
  {
    if all != [] { AcceptedLength(all[..|all| - 1]); }
  }

  lemma UnitHolds(m: set<nat>, l: Lit)
    ensures HoldsSome(m, [l]) <==> Holds(m, l)
  {
    assert l in [l];
  }

  lemma RefusedClashes(front: seq<seq<Lit>>, c: seq<Lit>)
    requires Refusable(front, c)
    ensures Clash(front + [c]) && !Satisfiable(front + [c])
  {
    var all := front + [c];
    assert c in all;
    if c != [] {
      assert c == [c[0]] && [Negated(c[0])] in all;
    }
    forall m: set<nat> ensures !Models(m, all) {
      assert c == [] ==> !HoldsSome(m, c);
      if c != [] {
        UnitHolds(m, c[0]);
        UnitHolds(m, Negated(c[0]));
      }
    }
  }

  lemma NoNewClash(front: seq<seq<Lit>>, c: seq<Lit>)
    requires !Clash(front) && !Refusable(front, c)
    ensures !Clash(front + [c])
  {
    forall l: Lit ensures !([l] in front + [c] && [Negated(l)] in front + [c]) {
      assert Negated(Negated(l)) == l && l != Negated(l) && [l][0] == l && [Negated(l)][0] == Negated(l);
      assert c == [l] ==> [Negated(l)] !in front;
      assert c == [Negated(l)] ==> [l] !in front;
    }
  }

  // Reads all clauses; a clause that the solver refuses is left out.
  method ReadClauses(solver: CNSat, lines: seq<seq<int>>) returns (added: bool)
    requires solver.Building() && solver.clauses == [] && NoComplements(lines)
    modifies solver
    ensures solver.Building() && solver.clauses == Accepted(ClausesOf(lines))
    ensures added <==> !Clash(ClausesOf(lines))
    ensures added ==> solver.clauses == ClausesOf(lines)
    ensures !added ==> !Satisfiable(ClausesOf(lines))
  {
    hide SearchOk, WatchOk, BooksOk, Satisfiable, NoComplement, ClauseOf, Clash, Refusable;
    added := true;
    ghost var all := ClausesOf(lines);
    for i := 0 to |lines|
      invariant solver.Building() && solver.clauses == Accepted(all[..i])
      invariant added <==> solver.clauses == all[..i]
    {
      LineHasNoComplement(lines[i]);
      AcceptedLength(all[..i]);
      var c := ReadClause(solver, lines[i]);
      var ok := solver.AddBasicClause(c);
      assert c == all[i] && all[..i + 1] == all[..i] + [c];
      assert all[..i + 1][..i] == all[..i];
      if !ok {
        added := false;
      }
    }
    assert all[..|lines|] == all;
    AcceptedExactly(all);
  }

  // Reads a problem and solves it. The answer of the solver is about the clauses it accepted;
  // together with the answers of addBasicClause it decides the problem.
  method SolveClauses(lines: seq<seq<int>>) returns (sat: bool, added: bool)
    requires NoComplements(lines)
    ensures sat && added <==> exists m :: LinesHold(m, lines)
    ensures added <==> !LinesClash(lines)
    ensures sat <==> Satisfiable(Accepted(ClausesOf(lines)))
    ensures (sat <==> exists m :: LinesHold(m, lines)) <==> !LinesClash(lines) || !Satisfiable(Accepted(ClausesOf(lines)))
  {
    hide SearchOk, WatchOk, BooksOk, Satisfiable, NoComplement, ClauseOf, Clash, LinesHold, LinesClash;
    ClausesSay(lines);
    LinesClashExactly(lines);
    var solver := new CNSat();
    added := ReadClauses(solver, lines);
    solver.Init();
    sat := solver.Solve();
  }

  // The answer alone is wrong on x and not x: the second clause is refused.
  lemma AnswerAloneIsWrong(lines: seq<seq<int>>)
    requires lines == [[1], [-1]]
    ensures NoComplements(lines) && LinesClash(lines)
    ensures Satisfiable(Accepted(ClausesOf(lines))) && !exists m :: LinesHold(m, lines)
  {
    hide Satisfiable, Accepted;
    var x := Lit(0, true);
    ClauseOfOne(1);
    ClauseOfOne(-1);
    assert ClausesOf(lines) == [[x]] + [[Negated(x)]];
    assert Negated(Negated(x)) == x && [x] in [[x]];
    RefusedClashes([[x]], [Negated(x)]);
    FirstAccepted(x);
    ClausesSay(lines);
    LinesClashExactly(lines);
  }

  lemma FirstAccepted(x: Lit)
    ensures Accepted([[x]] + [[Negated(x)]]) == [[x]] && Satisfiable([[x]])
  {
    var all := [[x]] + [[Negated(x)]];
    assert [[x]][..0] == [] && all[..1] == [[x]];
    assert Accepted([[x]]) == [[x]];
    assert Negated(Negated(x)) == x && [x] in [[x]];
    var m := if x.sign then {x.v} else {};
    UnitHolds(m, x);
    assert Models(m, [[x]]);
  }
}
