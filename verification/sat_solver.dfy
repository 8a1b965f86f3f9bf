// The solver object (constraintsolver/src/CNSat.cpp) in pure SAT mode.
module SatSolver {
  import opened Options
  import opened SatTypes
  import opened SatState
  import opened SatWatch
  import opened SatLearn
  import opened SatBacktrack
  import opened SatInsert
  import opened SatBooks
  import opened SatReduce
  import opened SatRank
  import opened SatSetup

  class CNSat {
    var clauses: seq<seq<Lit>>            // the basic clauses
    var satClauses: seq<nat>              // the learnt clauses, by number
    var db: Db                            // all watched clauses
    var variables: nat                    // the variables are 0, ..., variables - 1
    var decisions: seq<nat>               // the trail
    var decisionLevel: seq<nat>           // the start of each decision level
    var at: map<nat, Entry>               // the assigned variables, with value and decision level
    var reason: map<nat, seq<Lit>>
    var watchList: Lists
    var satisfiedUnits: set<nat>          // the unit clauses flagged as satisfied, by their index in clauses
    var unitDecissions: nat
    var activity: seq<nat>                // the activity of each variable
    var conflictCount: nat
    var decisionCount: nat
    var learntNum: nat
    var nextClause: nat                   // the number of the next clause
    var locked: set<nat>                  // the variables fixed by unit clauses
    ghost var ids: seq<nat>               // the numbers of the basic clauses
    var seen: set<nat>                    // the variables marked by the conflict analysis

    constructor ()
      ensures Building() && clauses == [] && variables == 0
    {
      clauses, satClauses, db, variables := [], [], map[], 0;
      decisions, decisionLevel, at, reason, watchList := [], [], map[], map[], map[];
      unitDecissions, seen, locked, nextClause, ids, satisfiedUnits := 0, {}, {}, 0, [], {};
      activity, conflictCount, decisionCount, learntNum := [], 0, 0, 0;
    }

    function S(): State
      reads this`decisions, this`decisionLevel, this`at, this`reason
    {
      State(decisions, decisionLevel, at, reason)
    }

    ghost predicate Valid()
      reads this`decisions, this`decisionLevel, this`at, this`reason, this`clauses, this`variables
      reads this`unitDecissions, this`watchList, this`db
    {
      && SearchOk(S(), clauses, variables, unitDecissions)
      && WatchOk(S(), watchList, db, clauses, variables)
    }

    // ------------------------------------------------------------ propagation

    // The guard of Var::setReason: a new reason may not mention an unassigned variable.
    method SetReason(v: nat, r: seq<Lit>) returns (thrown: bool)
      modifies this`reason
      ensures thrown <==> !(v in old(reason) && old(reason)[v] == r) && exists l :: l in r && l.v !in at
      ensures reason == if thrown then old(reason) else old(reason)[v := r]
    {
      if !(v in reason && reason[v] == r) {
        for i := 0 to |r|
          invariant forall j :: 0 <= j < i ==> r[j].v in at
        {
          if r[i].v !in at {
            return true;
          }
        }
      }
      reason := reason[v := r];
      return false;
    }

    // The first literal on a variable other than v that is unassigned or satisfied.
    method FindWatch(ls: seq<Lit>, v: nat) returns (k: nat)
      ensures k <= |ls|
      ensures k < |ls| ==> ls[k].v != v && !False(S(), ls[k])
      ensures forall j :: 0 <= j < k ==> ls[j].v == v || False(S(), ls[j])
    {
      k := 0;
      while k < |ls|
        invariant k <= |ls|
        invariant forall j :: 0 <= j < k ==> ls[j].v == v || False(S(), ls[j])
      {
        if v != ls[k].v && (ls[k].v !in at || True(S(), ls[k])) {
          return;
        }
        k := k + 1;
      }
    }

    // What the scan of trail entry i has established so far.
    ghost predicate Scanning(i: nat, pend: set<Watcher>)
      reads this
    {
      && Valid() && i < |decisions|
      && PropagatedBelow(S(), db, Current(S()))
      && Scanned(S(), db, i, pend)
    }

    method MarkSatisfied(c: nat, ghost i: nat, ghost pend: set<Watcher>)
      requires Scanning(i, pend) && c in db && (True(S(), db[c].watch0) || True(S(), db[c].watch1))
      modifies this`db
      ensures Scanning(i, pend) && db == Relabel(old(db), c, true, old(db)[c].activity)
    {
      hide WatchOk, SearchOk, PropagatedBelow, Scanned;
      RelabelKeeps(S(), watchList, db, clauses, variables, c, true, db[c].activity);
      RelabelKeepsPropagated(S(), db, c, true, db[c].activity, Current(S()), i, pend);
      db := db[c := db[c].(satisfied := true)];
    }

    // The clause c makes its watched literal l true.
    method Imply(l: Lit, c: nat, ghost i: nat, ghost pend: set<Watcher>)
      requires Scanning(i, pend) && c in db && (db[c].watch0 == l || db[c].watch1 == l) && Unit(S(), l, db[c].literals)
      modifies this`at, this`decisions, this`reason, this`db
      ensures Scanning(i, pend)
      ensures Extends(old(S()), S()) && True(S(), l)
      ensures db == Relabel(old(db), c, true, old(db)[c].activity)
    {
      hide WatchOk, SearchOk, PropagatedBelow, Scanned, Extends;
      ImplyKeeps(S(), watchList, db, clauses, variables, unitDecissions, l, c, i, pend);
      AssignExtends(S(), l, db[c].literals);
      ghost var s := S();
      at := at[l.v := Entry(l.sign, |decisionLevel| - 1, |decisions|)];
      db := db[c := db[c].(satisfied := true)];
      decisions := decisions + [l.v];
      var thrown := SetReason(l.v, db[c].literals);
      assert !thrown;
      assert S() == Assign(s, l, db[c].literals);
    }

    method Remove(s: seq<Watcher>, w: Watcher) returns (r: seq<Watcher>)
      ensures r == Without(s, w)
    {
      r := [];
      for i := 0 to |s|
        invariant r == Without(s[..i], w)
      {
        assert s[..i + 1][..i] == s[..i];
        if s[i] != w {
          r := r + [s[i]];
        }
      }
      assert s[..|s|] == s;
    }

    // Watcher w moves to the literal l, and flags its clause if l is already true.
    method MoveTo(w: Watcher, l: Lit, ghost i: nat, ghost pend: set<Watcher>)
      requires Scanning(i, pend) && Movable(S(), db, w, l)
      requires at[Watched(db[w.clause], w.first).v].lev >= Current(S())
      modifies this`watchList, this`db
      ensures Scanning(i, pend - {w})
      ensures SameBut(old(db), db, w) && Watched(db[w.clause], w.first) == l
      ensures db[w.clause].activity == old(db)[w.clause].activity
    {
      hide WatchOk, SearchOk, PropagatedBelow, Scanned, SameBut, Without;
      MoveSettles(S(), watchList, db, clauses, variables, w, l, i, pend);
      MoveSame(db, w, l);
      ghost var d := db;
      var c := w.clause;
      var v := Watched(db[c], w.first).v;
      var newWatchList := Remove(watchList[v], w);
      watchList := watchList[v := newWatchList];
      db := db[c := Moved(db[c], w.first, l)];
      watchList := watchList[l.v := watchList[l.v] + [w]];
      if True(S(), l) {
        RelabelSame(db, c, true, db[c].activity, w);
        SameButTransitive(d, db, Relabel(db, c, true, db[c].activity), w);
        MarkSatisfied(c, i, pend - {w});
      }
    }

    // No literal of the clause can replace the false one: the partner is implied, or it is a conflict.
    method PropagateOrConflict(w: Watcher, l: Lit, ghost i: nat, ghost pend: set<Watcher>) returns (conflict: bool)
      requires Scanning(i, pend) && w.clause in db && l == Partner(db[w.clause], w.first) && !True(S(), l)
      requires forall k :: k in db[w.clause].literals && k.v != l.v ==> False(S(), k)
      requires False(S(), Watched(db[w.clause], w.first)) && Visitable(S(), db, w)
      modifies this`at, this`decisions, this`reason, this`db
      ensures SameBut(old(db), db, w) && Extends(old(S()), S())
      ensures Scanning(i, if conflict then pend else pend - {w})
      ensures conflict ==> S() == old(S()) && Conflict(S(), db[w.clause].literals)
      ensures db[w.clause].activity == old(db)[w.clause].activity + 1
    {
      hide WatchOk, SearchOk, PropagatedBelow, Scanned, SameBut, Conflict, Extends;
      var c := w.clause;
      UnitOrFalse(S(), watchList, db, clauses, variables, w);
      Bump(c, i, pend);
      RelabelSame(old(db), c, db[c].satisfied, db[c].activity, w);
      if l.v !in at {
        Imply(l, c, i, pend);
        RelabelSame(old(db), c, true, db[c].activity, w);
        assert db == Relabel(old(db), c, true, db[c].activity);
        Settle(i, pend, w);
        return false;
      }
      ExtendsSelf(S());
      return true;
    }

    method Bump(c: nat, ghost i: nat, ghost pend: set<Watcher>)
      requires Scanning(i, pend) && c in db
      modifies this`db
      ensures Scanning(i, pend) && db == Relabel(old(db), c, old(db)[c].satisfied, old(db)[c].activity + 1)
    {
      hide WatchOk, SearchOk, PropagatedBelow, Scanned;
      RelabelKeeps(S(), watchList, db, clauses, variables, c, db[c].satisfied, db[c].activity + 1);
      RelabelKeepsPropagated(S(), db, c, db[c].satisfied, db[c].activity + 1, Current(S()), i, pend);
      db := db[c := db[c].(activity := db[c].activity + 1)];
    }

    // Watcher w needs no more work.
    lemma Settle(i: nat, pend: set<Watcher>, w: Watcher)
      requires Scanning(i, pend) && Settled(S(), db, w)
      ensures Scanning(i, pend - {w})
    {
      hide ListsOk, DbOk, SearchOk, PropagatedBelow, Scanned, FlagOk;
      ScanSettled(S(), db, i, pend, w);
    }

    // The clause needs another watched literal, and has none.
    ghost predicate Stuck(s: State, c: Clause, first: bool) {
      && !c.satisfied && False(s, Watched(c, first)) && !True(s, Partner(c, first))
      && forall k :: k in c.literals && k.v != Partner(c, first).v ==> False(s, k)
    }

    // One turn of the loop over a watch list.
    method VisitWatcher(w: Watcher, ghost i: nat, ghost pend: set<Watcher>) returns (conflict: bool, moved: bool)
      requires Scanning(i, pend) && Visitable(S(), db, w)
      modifies this`at, this`decisions, this`reason, this`db, this`watchList
      ensures SameBut(old(db), db, w) && Extends(old(S()), S())
      ensures Scanning(i, if conflict then pend else pend - {w})
      ensures conflict ==> w.clause in db && S() == old(S()) && Conflict(S(), db[w.clause].literals)
      ensures moved ==> FalseWatcher(old(S()), old(db), w) && !FalseWatcher(S(), db, w)
      ensures w.clause in old(db) && w.clause in db
      ensures db[w.clause].activity == old(db)[w.clause].activity + if Stuck(old(S()), old(db)[w.clause], w.first) then 1 else 0
    {
      hide WatchOk, SearchOk, PropagatedBelow, Scanned, NoComplement, Entails, Conflict;
      conflict, moved := false, false;
      var c := w.clause;
      if db[c].satisfied {
        Settle(i, pend, w);
        return;
      }
      if True(S(), Watched(db[c], w.first)) {
        MarkSatisfied(c, i, pend);
        Settle(i, pend, w);
        return;
      }
      if Watched(db[c], w.first).v !in at {
        Settle(i, pend, w);
        return;
      }
      var other := Partner(db[c], w.first);
      if True(S(), other) {
        MarkSatisfied(c, i, pend);
        Settle(i, pend, w);
        return;
      }
      var k := FindWatch(db[c].literals, other.v);
      if k < |db[c].literals| {
        NewWatch(S(), watchList, db, clauses, variables, w, db[c].literals[k]);
        assert db[c].literals[k] in db[c].literals;
        MoveTo(w, db[c].literals[k], i, pend);
        moved := true;
      } else {
        conflict := PropagateOrConflict(w, other, i, pend);
      }
    }

    lemma ScanStarts(i: nat, v: nat)
      requires Valid() && i < |decisions| && v == decisions[i]
      requires ScannedTo(S(), db, i) && PropagatedBelow(S(), db, Current(S()))
      ensures v in watchList && ListOk(watchList[v], v, db)
      ensures Scanning(i, set w | w in watchList[v])
    {
      hide ListOk, DbOk, FlagOk, LevelOk, ForcedOk, ReasonOk, SemOk, StartOk, Registered, ScannedTo, Scanned, PropagatedBelow;
      assert S().trail[i] == v && v in at && v in watchList;
      ScanEntry(S(), watchList, db, variables, unitDecissions, i, set w | w in watchList[v]);
    }

    // Scans the watch list of trail entry i.
    method ScanWatchList(i: nat) returns (conflict: Option<nat>)
      requires Valid() && i < |decisions| && ScannedTo(S(), db, i) && PropagatedBelow(S(), db, Current(S()))
      requires decisions[i] in at && at[decisions[i]].lev >= Current(S())
      modifies this`at, this`decisions, this`reason, this`db, this`watchList
      ensures Valid() && PropagatedBelow(S(), db, Current(S()))
      ensures Extends(old(S()), S()) && SameClauses(old(db), db)
      ensures conflict.None? ==> ScannedTo(S(), db, i + 1)
      ensures conflict.Some? ==> conflict.value in db && Conflict(S(), db[conflict.value].literals)
    {
      hide WatchOk, SearchOk, PropagatedBelow, Scanned, ScannedTo, Conflict, SameBut, Extends, SameClauses, ListOk, Visitable, Rest;
      var v := decisions[i];
      ScanStarts(i, v);
      var list := watchList[v];
      ghost var pend := set w | w in list;
      var j := 0;
      SameSelf(S(), db);
      RestStarts(S(), db, list, v);
      while j < |list|
        invariant 0 <= j <= |list|
        invariant Scanning(i, pend) && Rest(S(), db, list, j, v, pend)
        invariant Extends(old(S()), S()) && SameClauses(old(db), db)
        decreases |list| - j, if j < |list| && FalseWatcher(S(), db, list[j]) then 1 else 0
      {
        ghost var s, d := S(), db;
        RestVisitable(s, d, list, j, v, pend);
        var hit, moved := VisitWatcher(list[j], i, pend);
        SameVisited(old(S()), old(db), s, d, S(), db, list[j]);
        if hit {
          return Some(list[j].clause);
        }
        RestVisited(s, d, S(), db, list, j, v, pend);
        pend := pend - {list[j]};
        if moved {
          j := j - 1;
        }
        j := j + 1;
      }
      RestEnds(S(), db, list, v, pend);
      ScanDone(S(), db, i);
      return None;
    }

    lemma SearchFacts()
      requires Valid()
      ensures |decisionLevel| >= 1 && decisionLevel[0] <= |decisions|
      ensures forall k :: 1 <= k < |decisionLevel| ==> decisionLevel[k] < |decisions|
      ensures |decisions| <= unitDecissions + variables
    {
      hide WatchOk, LevelOk, ReasonOk, ForcedOk, SemOk;
      TrailBound(S(), variables, unitDecissions);
    }

    lemma EntryFacts(i: nat)
      requires Valid() && i < |decisions| && |decisionLevel| >= 1
      requires |decisionLevel| > 1 ==> i >= decisionLevel[|decisionLevel| - 1]
      ensures decisions[i] in at && at[decisions[i]].lev >= Current(S())
    {
      hide WatchOk, ReasonOk, ForcedOk, SemOk;
      EntryLevel(S(), variables, unitDecissions, i);
    }

    lemma ScanBeginning()
      requires Valid() && PropagatedBelow(S(), db, Current(S()))
      ensures |decisionLevel| >= 1
      ensures ScannedTo(S(), db, if |decisionLevel| == 1 then 0 else decisionLevel[|decisionLevel| - 1])
    {
      hide WatchOk, ReasonOk, ForcedOk, SemOk, TrailOk;
      ScanBegins(S(), db);
    }

    lemma ScanEnding()
      requires Valid() && PropagatedBelow(S(), db, Current(S())) && ScannedTo(S(), db, |decisions|)
      ensures PropagatedBelow(S(), db, |decisionLevel|)
    {
      hide WatchOk, ReasonOk, ForcedOk, SemOk;
      ScanEnds(S(), db, variables, unitDecissions);
    }

    // Propagates the current level; the result is a clause that became false, if any.
    method Propagate() returns (conflict: Option<nat>)
      requires Valid() && PropagatedBelow(S(), db, Current(S()))
      modifies this`at, this`decisions, this`reason, this`db, this`watchList
      ensures Valid() && Extends(old(S()), S()) && SameClauses(old(db), db)
      ensures PropagatedBelow(S(), db, Current(S()))
      ensures conflict.None? ==> PropagatedBelow(S(), db, |decisionLevel|)
      ensures conflict.Some? ==> conflict.value in db && Conflict(S(), db[conflict.value].literals)
    {
      hide WatchOk, SearchOk, PropagatedBelow, ScannedTo, Conflict, Extends, SameClauses;
      ScanBeginning();
      SearchFacts();
      var lLevel := 0;
      if |decisionLevel| > 1 {
        lLevel := decisionLevel[|decisionLevel| - 1];
      }
      var i := lLevel;
      SameSelf(S(), db);
      while i < |decisions|
        invariant lLevel <= i <= |decisions| <= unitDecissions + variables
        invariant Valid() && PropagatedBelow(S(), db, Current(S())) && ScannedTo(S(), db, i)
        invariant Extends(old(S()), S()) && SameClauses(old(db), db)
        decreases unitDecissions + variables - i
      {
        ghost var s, d := S(), db;
        EntryFacts(i);
        conflict := ScanWatchList(i);
        SameTransitive(old(S()), old(db), s, d, S(), db);
        if conflict.Some? {
          return;
        }
        ExtendsLength(s, S());
        SearchFacts();
        i := i + 1;
      }
      ScanEnding();
      return None;
    }

    // ------------------------------------------------------------ conflict analysis

    ghost predicate Marking(learnt: seq<Lit>, pathC: nat, index: int)
      reads this
    {
      && Marks(S(), seen, learnt)
      && pathC == |Front(S(), seen)|
      && FrontBelow(S(), seen, index)
    }

    lemma MarkLiteral(learnt: seq<Lit>, pathC: nat, index: int, l: Lit)
      requires Valid() && Marking(learnt, pathC, index) && |decisionLevel| >= 2
      requires False(S(), l) && at[l.v].pos <= index && l.v !in seen && at[l.v].lev != 0
      ensures at[l.v].lev < |decisionLevel|
      ensures if decisionLevel[at[l.v].lev] >= decisionLevel[|decisionLevel| - 1]
        then Marks(S(), seen + {l.v}, learnt) && pathC + 1 == |Front(S(), seen + {l.v})| && FrontBelow(S(), seen + {l.v}, index)
        else Marks(S(), seen + {l.v}, learnt + [l]) && pathC == |Front(S(), seen + {l.v})| && FrontBelow(S(), seen + {l.v}, index)
    {
      hide WatchOk, ReasonOk, SemOk, ForcedOk, LevelOk, StartOk, Marks;
      LevelByStart(S(), unitDecissions, at[l.v].lev);
      if at[l.v].lev >= Current(S()) {
        MarkFront(S(), seen, learnt, l);
      } else {
        MarkOlder(S(), seen, learnt, l);
      }
    }

    // Marks the literals of a clause, except the one on p.
    method ScanReason(r: seq<Lit>, p: Option<nat>, learnt0: seq<Lit>, pathC0: nat, ghost index: int) returns (learnt: seq<Lit>, pathC: nat)
      requires Valid() && Marking(learnt0, pathC0, index) && |decisionLevel| >= 2 && Resolvable(S(), r, p, index)
      modifies this`seen
      ensures Valid() && Marking(learnt, pathC, index)
      ensures Marked(S(), seen, r, p) && old(seen) <= seen && learnt0 <= learnt
      ensures seen == old(seen) + NewMarks(S(), r, p)
    {
      hide SearchOk, WatchOk, Marks, FrontBelow, Front;
      learnt, pathC := learnt0, pathC0;
      for j := 0 to |r|
        invariant Marking(learnt, pathC, index) && old(seen) <= seen && learnt0 <= learnt
        invariant Marked(S(), seen, r[..j], p) && seen == old(seen) + NewMarks(S(), r[..j], p)
      {
        var q := r[j];
        assert r[..j + 1] == r[..j] + [q];
        if p != Some(q.v) && q.v !in seen && at[q.v].lev != 0 {
          MarkLiteral(learnt, pathC, index, q);
          seen := seen + {q.v};
          if decisionLevel[at[q.v].lev] >= decisionLevel[|decisionLevel| - 1] {
            pathC := pathC + 1;
          } else {
            learnt := learnt + [q];
          }
        }
      }
      assert r[..|r|] == r;
    }

    lemma Walk(index: int)
      requires Valid() && FrontBelow(S(), seen, index) && Front(S(), seen) != {} && index < |decisions| && |decisionLevel| >= 2
      ensures 0 <= index
      ensures decisions[index] !in seen ==> FrontBelow(S(), seen, index - 1)
      ensures decisions[index] in seen ==> decisions[index] in Front(S(), seen) && at[decisions[index]].pos == index
    {
      hide WatchOk, ReasonOk, SemOk, ForcedOk, LevelOk, StartOk, TrailOk, Front, FrontBelow;
      WalkDown(S(), variables, unitDecissions, seen, index);
    }

    // The latest marked entry at or before index0.
    method LatestMarked(index0: int) returns (index: int)
      requires Valid() && FrontBelow(S(), seen, index0) && Front(S(), seen) != {} && index0 < |decisions| && |decisionLevel| >= 2
      ensures 0 <= index <= index0 && decisions[index] in Front(S(), seen) && at[decisions[index]].pos == index
      ensures FrontBelow(S(), seen, index) && forall j :: index < j <= index0 ==> decisions[j] !in seen
    {
      hide Valid, Front, FrontBelow;
      index := index0;
      Walk(index);
      while decisions[index] !in seen
        invariant 0 <= index <= index0 && FrontBelow(S(), seen, index)
        invariant forall j :: index < j <= index0 ==> decisions[j] !in seen
        decreases index
      {
        Walk(index);
        index := index - 1;
        Walk(index);
      }
      Walk(index);
    }

    // What the resolution loop knows before it marks the clause confl, the reason of p if there is
    // one and the conflict clause otherwise.
    ghost predicate Resolving(learnt: seq<Lit>, pathC: nat, index: int, p: Option<nat>, confl: seq<Lit>)
      reads this
    {
      && Marking(learnt, pathC, index) && -1 <= index < |decisions|
      && Entails(clauses, confl) && Resolvable(S(), confl, p, index)
      && match p {
           case None => Conflict(S(), confl)
           case Some(v) =>
             && v in at && at[v].lev >= Current(S()) && v !in seen
             && Forces(S(), v, confl) && CoveredBut(S(), clauses, seen, learnt, v) && pathC > 0
         }
    }

    lemma MarkingCovers(seen0: set<nat>, learnt0: seq<Lit>, learnt: seq<Lit>, p: Option<nat>, confl: seq<Lit>)
      requires Valid() && |decisionLevel| >= 2 && Marks(S(), seen, learnt) && Marked(S(), seen, confl, p)
      requires seen0 <= seen && learnt0 <= learnt && Entails(clauses, confl)
      requires match p {
        case None => Conflict(S(), confl)
        case Some(v) => v in at && Forces(S(), v, confl) && CoveredBut(S(), clauses, seen0, learnt0, v) && Front(S(), seen0) != {}
      }
      ensures Covered(S(), clauses, seen, learnt) && Front(S(), seen) != {}
    {
      hide WatchOk, StartOk, TrailOk, LevelOk, ReasonOk, ForcedOk, SemOk, Marks, Covered, CoveredBut, Forces, Marked;
      match p {
        case None =>
          ConflictCovered(S(), clauses, seen, learnt, confl);
          FrontMarked(S(), seen, confl);
        case Some(v) =>
          CoverGrows(S(), clauses, seen0, learnt0, seen, learnt, v);
          ReasonCovered(S(), clauses, seen, learnt, v, confl);
          var x :| x in Front(S(), seen0);
          assert x in Front(S(), seen);
      }
    }

    // Resolves the conflict clause c up to the first unique implication point, at position uip of
    // the trail.
    method Analyze(c: nat) returns (learnt: seq<Lit>, ghost uip: nat)
      requires Valid() && |decisionLevel| >= 2 && c in db && Conflict(S(), db[c].literals) && seen == {}
      modifies this`seen
      ensures Valid() && Learnable(S(), clauses, learnt) && MarkedBy(seen, learnt[..|learnt| - 1])
      ensures FirstUip(S(), db[c].literals, uip) && learnt[|learnt| - 1].v == decisions[uip]
      ensures seen == Cut(S(), db[c].literals, uip + 1) - {decisions[uip]}
    {
      hide WatchOk, SearchOk, Marks, FrontBelow, Front, Covered, CoveredBut, Forces, Entails, Resolvable, Conflict, Learnable, MarkedBy, Marked,
        FirstUip, Cut, Cutting, NewMarks, NoneAlone;
      var confl := Some(db[c].literals);
      var index, pathC, p, going := |decisions| - 1, 0, None, true;
      learnt := [];
      ResolvingStarts(c);
      CuttingStarts(S(), db[c].literals);
      uip := 0;
      while going
        invariant Valid() && -1 <= index < |decisions|
        invariant going ==> confl.Some? && Resolving(learnt, pathC, index, p, confl.value)
        invariant !going ==> p.Some? && p.value in at && Learnable(S(), clauses, learnt + [Lit(p.value, !at[p.value].sign)])
        invariant !going ==> MarkedBy(seen, learnt)
        invariant going ==> Cutting(S(), db[c].literals, seen, index, p, confl.value)
        invariant !going ==> FirstUip(S(), db[c].literals, uip) && uip < |decisions| && p == Some(decisions[uip])
        invariant !going ==> seen == Cut(S(), db[c].literals, uip + 1) - {decisions[uip]}
        decreases index + 1
      {
        ghost var seen0, learnt0 := seen, learnt;
        learnt, pathC := ScanReason(confl.value, p, learnt, pathC, index);
        MarkingCovers(seen0, learnt0, learnt, p, confl.value);
        CutMarked(S(), db[c].literals, seen0, index, p, confl.value);
        ghost var index0 := index;
        CuttingDense(S(), db[c].literals, seen0, index, p, confl.value);
        index := LatestMarked(index);
        var v := decisions[index];
        TakingLatest(learnt, pathC, index, v);
        CutTaken(S(), db[c].literals, seen, index0, index);
        uip := index;
        index := index - 1;
        p := Some(v);
        confl := if v in reason then Some(reason[v]) else None;
        seen := seen - {v};
        pathC := pathC - 1;
        going := pathC > 0;
      }
      learnt := learnt + [Lit(p.value, !at[p.value].sign)];
    }

    lemma ResolvingStarts(c: nat)
      requires Valid() && c in db && Conflict(S(), db[c].literals) && seen == {}
      ensures Resolving([], 0, |decisions| - 1, None, db[c].literals)
    {
      hide Entails, ReasonOk, ForcedOk, SemOk, LevelOk, StartOk, ListsOk, FlagOk;
      ClauseFacts(db, clauses, variables, c);
      assert Front(S(), seen) == {};
    }

    lemma TakingLatest(learnt: seq<Lit>, pathC: nat, index: int, v: nat)
      requires Valid() && Marking(learnt, pathC, index) && |decisionLevel| >= 2 && Covered(S(), clauses, seen, learnt)
      requires v in Front(S(), seen) && at[v].pos == index
      ensures pathC > 0
      ensures Marks(S(), seen - {v}, learnt) && pathC - 1 == |Front(S(), seen - {v})| && FrontBelow(S(), seen - {v}, index - 1)
      ensures v in at && at[v].lev >= Current(S()) && CoveredBut(S(), clauses, seen - {v}, learnt, v)
      ensures pathC - 1 > 0 ==> v in reason && Forces(S(), v, reason[v]) && Entails(clauses, reason[v]) && Resolvable(S(), reason[v], Some(v), index - 1)
      ensures pathC - 1 == 0 ==> Learnable(S(), clauses, learnt + [Lit(v, !at[v].sign)]) && MarkedBy(seen - {v}, learnt)
    {
      hide WatchOk, ReasonOk, SemOk, ForcedOk, LevelOk, StartOk, Marks, FrontBelow, Covered, CoveredBut, Forces, Entails, Resolvable, Learnable, MarkedBy;
      TakeLatest(S(), clauses, variables, unitDecissions, seen, learnt, v);
      if pathC == 1 {
        assert Front(S(), seen - {v}) == {};
        LearntIsLearnable(S(), clauses, variables, unitDecissions, seen - {v}, learnt, v);
      }
    }

    // Whether some literal of ls is neither marked nor assigned at level 0.
    method HasUnmarked(ls: seq<Lit>) returns (found: bool)
      requires forall l :: l in ls ==> l.v in at
      ensures !found <==> forall l :: l in ls ==> l.v in seen || at[l.v].lev == 0
    {
      for i := 0 to |ls|
        invariant forall j :: 0 <= j < i ==> ls[j].v in seen || at[ls[j].v].lev == 0
      {
        if ls[i].v !in seen && at[ls[i].v].lev != 0 {
          assert ls[i] in ls;
          return true;
        }
      }
      return false;
    }

    lemma ReasonFacts(l: Lit)
      requires Valid() && l.v in reason
      ensures forall k :: k in reason[l.v] ==> k.v in at
    {
      hide WatchOk, SemOk, ForcedOk, LevelOk, StartOk, TrailOk;
      assert Forces(S(), l.v, S().reason[l.v]);
    }

    lemma ShrunkFacts(full: seq<Lit>, ls: seq<Lit>)
      requires Valid() && Learnable(S(), clauses, full) && MarkedBy(seen, full[..|full| - 1]) && Shrunk(S(), seen, full, ls)
      ensures Learnable(S(), clauses, ls) && ls[|ls| - 1] == full[|full| - 1]
    {
      hide WatchOk, ForcedOk, LevelOk, StartOk, TrailOk, ReasonOk, SemOk, Learnable, MarkedBy;
      ShrunkIsLearnable(S(), clauses, seen, full, ls);
    }

    lemma RedundantFacts(l: Lit)
      ensures Redundant(S(), seen, l) <==>
        l.v in reason && forall k :: k in reason[l.v] ==> k.v in at && (k.v in seen || at[k.v].lev == 0)
    {
    }

    // Removes exactly the literals whose reasons are covered by marks, and clears the marks.
    method Minimise(learnt0: seq<Lit>) returns (learnt: seq<Lit>)
      requires Valid() && Learnable(S(), clauses, learnt0) && MarkedBy(seen, learnt0[..|learnt0| - 1])
      modifies this`seen
      ensures Valid() && Learnable(S(), clauses, learnt) && seen == {}
      ensures Minimised(S(), learnt0, learnt)
    {
      hide Valid, MarkedBy, Shrunk, Redundant;
      MarkedVars(seen, learnt0);
      learnt := learnt0;
      ShrunkSelf(S(), seen, learnt0);
      var m := 0;
      while m < |learnt| - 1
        invariant 0 <= m && |learnt| >= 1 && Shrunk(S(), seen, learnt0, learnt)
        invariant forall i :: 0 <= i < m && i < |learnt| - 1 ==> !Redundant(S(), seen, learnt[i])
        modifies {}
        decreases |learnt| - m
      {
        var l := learnt[m];
        RedundantFacts(l);
        if l.v in reason {
          ReasonFacts(l);
          var found := HasUnmarked(reason[l.v]);
          if !found {
            ShrunkDrop(S(), seen, learnt0, learnt, m);
            learnt := learnt[..m] + learnt[m + 1..];
            m := m - 1;
          }
        }
        m := m + 1;
      }
      ShrunkFacts(learnt0, learnt);
      ClearMarks(learnt0);
    }

    method ClearMarks(seenList: seq<Lit>)
      requires |seenList| >= 1 && MarkedBy(seen, seenList[..|seenList| - 1])
      modifies this`seen
      ensures seen == {}
    {
      for i := 0 to |seenList|
        invariant forall v :: v in seen ==> exists j :: i <= j < |seenList| && seenList[j].v == v
      {
        seen := seen - {seenList[i].v};
      }
    }

    // ------------------------------------------------------------ backtracking

    // The flag of c tells whether a watched literal is true.
    ghost predicate RightFlag(c: nat)
      reads this`decisions, this`decisionLevel, this`at, this`reason, this`db
    {
      c in db && db[c].satisfied == (True(S(), db[c].watch0) || True(S(), db[c].watch1))
    }

    // Recomputes the flags of the clauses in the watch list of v.
    method Reflags(v: nat)
      requires v in watchList && (forall w :: w in watchList[v] ==> w.clause in db) && FlagOkBut(S(), db, watchList[v])
      modifies this`db
      ensures EqualButFlags(old(db), db) && FlagOk(S(), db)
      ensures forall w :: w in watchList[v] ==> RightFlag(w.clause)
    {
      hide FlagOkBut, EqualButFlags;
      var list := watchList[v];
      NothingReflagged(db);
      for i := 0 to |list|
        invariant EqualButFlags(old(db), db) && db.Keys == old(db).Keys && FlagOkBut(S(), db, list[i..])
        invariant forall j :: 0 <= j < i ==> RightFlag(list[j].clause)
      {
        var c := list[i].clause;
        var flag := True(S(), db[c].watch0) || True(S(), db[c].watch1);
        assert list[i..][0] == list[i] && list[i..][1..] == list[i + 1..];
        Reflag(S(), db, list[i..], flag);
        EqualButFlagsTransitive(old(db), db, db[c := db[c].(satisfied := flag)]);
        db := db[c := db[c].(satisfied := flag)];
      }
      AllReflagged(S(), db, list[|list|..]);
    }

    ghost predicate Undone(s: State, d: Db, lo: nat, hi: nat)
      reads this
    {
      && S() == Undo(s, lo, hi)
      && WatchOk(S(), watchList, db, clauses, variables)
      && EqualButFlags(d, db)
    }

    // Trail entry j loses its value and its reason.
    method Unassign(j: nat, ghost s: State, ghost d: Db, ghost lo: nat)
      requires SearchOk(s, clauses, variables, unitDecissions) && unitDecissions <= lo <= j < |s.trail|
      requires Undone(s, d, lo, j)
      modifies this`at, this`reason, this`db
      ensures Undone(s, d, lo, j + 1)
    {
      hide SearchOk, ListsOk, DbOk, FlagOk, FlagOkBut, EqualButFlags, Undo;
      ghost var t, d1 := S(), db;
      UndoingEntry(s, lo, j);
      var v := decisions[j];
      at := at - {v};
      reason := reason - {v};
      assert S() == Undo(s, lo, j + 1);
      UnassignedFlags(t, v);
      Reflags(v);
      EqualButFlagsTransitive(d, d1, db);
      EqualButFlagsLists(d1, db, watchList, variables);
      EqualButFlagsDb(S(), d1, db, clauses, variables, 0);
    }

    lemma UndoingEntry(s: State, lo: nat, j: nat)
      requires SearchOk(s, clauses, variables, unitDecissions) && unitDecissions <= lo <= j < |s.trail|
      ensures var v := s.trail[j]; Undo(s, lo, j + 1) == Undo(s, lo, j).(at := Undo(s, lo, j).at - {v}, reason := Undo(s, lo, j).reason - {v})
      ensures Undo(s, lo, j).trail == s.trail && s.trail[j] < variables
    {
      hide StartOk, LevelOk, ReasonOk, ForcedOk, SemOk;
      UndoStep(s, variables, unitDecissions, lo, j);
    }

    lemma UnassignedFlags(t: State, v: nat)
      requires WatchOk(t, watchList, db, clauses, variables) && v < variables
      requires at == t.at - {v}
      ensures v in watchList && (forall w :: w in watchList[v] ==> w.clause in db) && FlagOkBut(S(), db, watchList[v])
    {
      hide DbOk, Registered, FlagOk, FlagOkBut, NoRepeat;
      assert v in watchList;
      assert ListOk(watchList[v], v, db);
      UnassignBreaksFlags(t, S(), watchList, db, v);
    }

    method RemoveRangeOfDecisions(index: nat, count: nat)
      requires index + count <= |decisions|
      modifies this`decisions
      ensures decisions == old(decisions)[..index] + old(decisions)[index + count..]
    {
      var newDecisions := [];
      for i := 0 to index
        invariant newDecisions == decisions[..i]
        modifies {}
      {
        newDecisions := newDecisions + [decisions[i]];
      }
      for i := index + count to |decisions|
        invariant newDecisions == decisions[..index] + decisions[index + count..i]
        modifies {}
      {
        newDecisions := newDecisions + [decisions[i]];
      }
      assert decisions[index + count..|decisions|] == decisions[index + count..];
      decisions := newDecisions;
    }

    lemma BackTrackFacts(k: nat)
      requires Valid() && 1 <= k < |decisionLevel|
      ensures unitDecissions <= decisionLevel[k] < |decisions|
      ensures Undo(S(), decisionLevel[k], decisionLevel[k]) == S()
      ensures var t := Undo(S(), decisionLevel[k], |decisions|);
        Truncate(S(), k) == t.(trail := decisions[..decisionLevel[k]], start := decisionLevel[..k])
      ensures SearchOk(Truncate(S(), k), clauses, variables, unitDecissions)
    {
      hide WatchOk, ReasonOk, ForcedOk, SemOk, Undo, Truncate, TrailOk, LevelOk;
      TruncateKeeps(S(), k, clauses, variables, unitDecissions);
      UndoNothing(S(), decisionLevel[k]);
      UndoIsTruncate(S(), variables, unitDecissions, k);
    }

    // All levels above k are undone.
    method BackTrack(k: nat)
      requires Valid() && k < |decisionLevel|
      modifies this`at, this`reason, this`db, this`decisions, this`decisionLevel
      ensures Valid() && EqualButFlags(old(db), db)
      ensures S() == if k + 1 < |old(decisionLevel)| then Truncate(old(S()), k + 1) else old(S())
    {
      hide WatchOk, SearchOk, EqualButFlags, Undo, Truncate;
      NothingReflagged(db);
      var ndbidx := k + 1;
      if ndbidx >= |decisionLevel| {
        return;
      }
      ghost var s, d := S(), db;
      var lo := decisionLevel[ndbidx];
      BackTrackFacts(ndbidx);
      for j := lo to |decisions|
        invariant Undone(s, d, lo, j) && decisions == s.trail && decisionLevel == s.start
      {
        Unassign(j, s, d, lo);
      }
      assert decisions[..lo] + decisions[lo + (|decisions| - lo)..] == decisions[..lo];
      RemoveRangeOfDecisions(lo, |decisions| - lo);
      decisionLevel := decisionLevel[..ndbidx];
      assert S() == Truncate(s, ndbidx);
      SameAtFlags(s, ndbidx);
    }

    lemma SameAtFlags(s: State, k: nat)
      requires 1 <= k < |s.start| && s.start[k] <= |s.trail| && S() == Truncate(s, k)
      requires WatchOk(Undo(s, s.start[k], |s.trail|), watchList, db, clauses, variables)
      requires Truncate(s, k).at == Undo(s, s.start[k], |s.trail|).at
      ensures WatchOk(S(), watchList, db, clauses, variables)
    {
      hide ListsOk, DbOk, Undo, Truncate;
    }

    // ------------------------------------------------------------ learnt clauses

    ghost function B(): Books
      reads this`satClauses, this`locked, this`nextClause, this`ids
    {
      Books(satClauses, locked, nextClause, ids)
    }

    // Registers the two watchers of a clause.
    method Watch(id: nat, c: Clause)
      requires id !in db && WatchOk(S(), watchList, db, clauses, variables) && ClauseOk(c, clauses, variables) && !c.satisfied
      modifies this`watchList, this`db
      ensures db == old(db)[id := c] && WatchOk(S(), watchList, db, clauses, variables)
    {
      hide WatchOk, ClauseOk;
      AddKeeps(S(), watchList, db, clauses, variables, id, c);
      watchList := watchList[c.watch0.v := watchList[c.watch0.v] + [Watcher(id, true)]];
      watchList := watchList[c.watch1.v := watchList[c.watch1.v] + [Watcher(id, false)]];
      db := db[id := c];
    }

    lemma FreshClause()
      requires BooksOk(S(), db, B(), clauses)
      ensures nextClause !in db
    {
    }

    // A learnt clause with at least two literals, unit on its last one.
    method AddSatClause(c: seq<Lit>) returns (id: nat)
      requires Valid() && BooksOk(S(), db, B(), clauses) && PropagatedBelow(S(), db, Current(S()))
      requires |c| >= 2 && ClauseOk(LearntClause(c), clauses, variables) && Unit(S(), c[|c| - 1], c)
      requires c[0].v in at && at[c[0].v].lev >= Current(S())
      modifies this`watchList, this`db, this`satClauses, this`nextClause
      ensures Valid() && BooksOk(S(), db, B(), clauses) && PropagatedBelow(S(), db, Current(S()))
      ensures id !in old(db) && db == old(db)[id := LearntClause(c)] && satClauses == old(satClauses) + [id]
    {
      hide WatchOk, SearchOk, ClauseOk, BooksOk, PropagatedBelow;
      FreshClause();
      BooksLearn(S(), db, B(), clauses, LearntClause(c));
      AddKeepsPropagated(S(), db, nextClause, LearntClause(c), Current(S()));
      id := nextClause;
      nextClause := nextClause + 1;
      Watch(id, LearntClause(c));
      satClauses := satClauses + [id];
    }

    // A learnt unit clause, at the end of those known so far, whatever the current level; the
    // result is false if the variable is locked otherwise.
    method AddUnitClause(l: Lit) returns (ok: bool)
      requires Valid() && BooksOk(S(), db, B(), clauses)
      requires l.v < variables && l.v !in at && Entails(clauses, [l])
      modifies this`decisions, this`at, this`locked, this`decisionLevel
      ensures |old(decisionLevel)| >= 1 && old(decisionLevel)[0] <= |old(decisions)|
      ensures ok && S() == InsertUnit(old(S()), l) && locked == old(locked) + {l.v}
      ensures Valid() && BooksOk(S(), db, B(), clauses)
    {
      hide WatchOk, SearchOk, BooksOk, Entails, InsertUnit;
      Unlocked(l.v);
      if l.v in locked && !True(S(), l) {
        return false;
      }
      ghost var s := S();
      InsertFacts(l);
      var z := decisionLevel[0];
      decisions := decisions[..z] + [l.v] + decisions[z..];
      at := (map v | v in at :: Shifted(at[v], z))[l.v := Entry(l.sign, 0, z)];
      for k := 0 to |decisionLevel|
        invariant |decisionLevel| == |s.start|
        invariant forall j :: 0 <= j < |s.start| ==> decisionLevel[j] == if j < k then s.start[j] + 1 else s.start[j]
        invariant decisions == s.trail[..z] + [l.v] + s.trail[z..]
        invariant at == (map v | v in s.at :: Shifted(s.at[v], z))[l.v := Entry(l.sign, 0, z)] && locked == old(locked)
      {
        decisionLevel := decisionLevel[k := decisionLevel[k] + 1];
      }
      InsertedState(s, l);
      BooksLock(S(), db, B(), clauses, l.v);
      locked := locked + {l.v};
      return true;
    }

    lemma Unlocked(v: nat)
      requires BooksOk(S(), db, B(), clauses) && v !in at
      ensures v !in locked
    {
    }

    lemma InsertFacts(l: Lit)
      requires Valid() && l.v < variables && l.v !in at && Entails(clauses, [l])
      ensures |decisionLevel| >= 1 && decisionLevel[0] <= |decisions|
      ensures SearchOk(InsertUnit(S(), l), clauses, variables, unitDecissions)
      ensures WatchOk(InsertUnit(S(), l), watchList, db, clauses, variables)
    {
      hide WatchOk, TrailOk, ReasonOk, ForcedOk, SemOk, LevelOk, Entails, InsertUnit;
      InsertKeeps(S(), l, clauses, variables, unitDecissions);
      InsertKeepsWatch(S(), l, watchList, db, clauses, variables);
    }

    lemma InsertedState(s: State, l: Lit)
      requires |s.start| >= 1 && s.start[0] <= |s.trail| && l.v !in s.at && BooksOk(s, db, B(), clauses)
      requires decisions == s.trail[..s.start[0]] + [l.v] + s.trail[s.start[0]..] && reason == s.reason
      requires at == (map v | v in s.at :: Shifted(s.at[v], s.start[0]))[l.v := Entry(l.sign, 0, s.start[0])]
      requires |decisionLevel| == |s.start| && forall j :: 0 <= j < |s.start| ==> decisionLevel[j] == s.start[j] + 1
      ensures S() == InsertUnit(s, l) && BooksOk(S(), db, B(), clauses) && l.v in at && at[l.v].lev == 0
    {
      hide BooksOk;
      assert decisionLevel == InsertUnit(s, l).start;
      assert ZeroKept(s, S());
      SameSelf(s, db);
      BooksKept(s, db, B(), clauses, S(), db);
    }

    // Moves a literal of the highest level, the implication point aside, to the front.
    method BackLevel(learnt0: seq<Lit>, ghost full: seq<Lit>) returns (learnt: seq<Lit>, k: nat)
      requires Valid() && |decisionLevel| >= 2 && Learnable(S(), clauses, learnt0) && |learnt0| >= 2
      requires Minimised(S(), full, learnt0)
      ensures |learnt| == |learnt0| && learnt[|learnt| - 1] == learnt0[|learnt0| - 1]
      ensures Learnable(S(), clauses, learnt) && UpTo(S(), learnt, k) && Minimised(S(), full, learnt)
      ensures 1 <= k < Current(S()) && learnt[0].v in at && at[learnt[0].v].lev == k
    {
      hide Valid, Entails, Minimised;
      assert Older(S(), learnt0[0]);
      k := at[learnt0[0].v].lev;
      var maxLitIndex := 0;
      StartsIncrease();
      for i := 1 to |learnt0| - 1
        invariant maxLitIndex < |learnt0| - 1 && Older(S(), learnt0[maxLitIndex]) && at[learnt0[maxLitIndex].v].lev == k
        invariant forall j :: 0 <= j < i ==> at[learnt0[j].v].lev <= k
      {
        assert Older(S(), learnt0[i]);
        var lev := at[learnt0[i].v].lev;
        if decisionLevel[k] < decisionLevel[lev] {
          k := lev;
          maxLitIndex := i;
        }
      }
      SwapKeepsLearnable(S(), clauses, learnt0, maxLitIndex);
      SwapKeepsMinimised(S(), full, learnt0, maxLitIndex);
      learnt := learnt0[0 := learnt0[maxLitIndex]][maxLitIndex := learnt0[0]];
      forall i | 0 <= i < |learnt| - 1
        ensures learnt[i].v in at && at[learnt[i].v].lev <= k
      {
        assert Older(S(), learnt[i]);
        assert learnt[i] == learnt0[if i == 0 then maxLitIndex else if i == maxLitIndex then 0 else i];
      }
    }

    lemma StartsIncrease()
      requires Valid()
      ensures forall j, k :: 1 <= j < k < |decisionLevel| ==> decisionLevel[j] < decisionLevel[k]
    {
      hide WatchOk, TrailOk, LevelOk, ReasonOk, ForcedOk, SemOk;
    }

    // The learnt clause id makes its last literal true.
    method Enforce(l: Lit, id: nat)
      requires Valid() && BooksOk(S(), db, B(), clauses) && PropagatedBelow(S(), db, Current(S()))
      requires id in db && db[id].watch1 == l && Unit(S(), l, db[id].literals)
      modifies this`at, this`db, this`reason, this`decisions
      ensures Valid() && BooksOk(S(), db, B(), clauses) && PropagatedBelow(S(), db, Current(S()))
      ensures |old(decisionLevel)| >= 1 && S() == Assign(old(S()), l, old(db)[id].literals)
      ensures db == Relabel(old(db), id, true, old(db)[id].activity)
    {
      hide WatchOk, SearchOk, BooksOk, PropagatedBelow;
      ghost var s, d := S(), db;
      EnforceKeeps(s, watchList, db, clauses, variables, unitDecissions, l, id);
      EnforceKeepsBooks(s, db, B(), clauses, l, id);
      at := at[l.v := Entry(l.sign, |decisionLevel| - 1, |decisions|)];
      db := db[id := db[id].(satisfied := true)];
      var thrown := SetReason(l.v, db[id].literals);
      assert !thrown;
      decisions := decisions + [l.v];
      assert S() == Assign(s, l, d[id].literals);
    }

    lemma LearntReady(learnt: seq<Lit>, k: nat)
      requires Valid() && Learnable(S(), clauses, learnt) && |learnt| >= 2 && UpTo(S(), learnt, k) && k < Current(S())
      requires learnt[0].v in at && at[learnt[0].v].lev == k
      ensures decisionLevel[k + 1] <= |decisions|
      ensures ClauseOk(LearntClause(learnt), clauses, variables)
      ensures var t := Truncate(S(), k + 1);
        Unit(t, learnt[|learnt| - 1], learnt) && learnt[0].v in t.at && t.at[learnt[0].v].lev >= Current(t)
      ensures Progress(S(), Assign(Truncate(S(), k + 1), learnt[|learnt| - 1], learnt))
    {
      hide WatchOk, TrailOk, LevelOk, ReasonOk, ForcedOk, SemOk, Learnable, UpTo, ClauseOk, Unit, Truncate, Progress;
      BackjumpReady(S(), clauses, variables, unitDecissions, learnt, k);
      ProgressLearnt(S(), unitDecissions, k, learnt[|learnt| - 1], learnt);
    }

    lemma UnitLearntReady(learnt: seq<Lit>)
      requires Valid() && Learnable(S(), clauses, learnt) && |learnt| == 1 && |decisionLevel| >= 2
      ensures decisionLevel[1] <= |decisions| && decisionLevel[0] <= |Truncate(S(), 1).trail| && |Truncate(S(), 1).start| == 1
      ensures Truncate(S(), 1).start[0] <= |Truncate(S(), 1).trail|
      ensures |InsertUnit(Truncate(S(), 1), learnt[0]).start| == 1
      ensures learnt[0].v < variables && Entails(clauses, [learnt[0]]) && learnt[0].v !in Truncate(S(), 1).at
      ensures Progress(S(), InsertUnit(Truncate(S(), 1), learnt[0]))
    {
      hide WatchOk, TrailOk, LevelOk, ReasonOk, ForcedOk, SemOk, Learnable, Entails, Progress;
      UnitReady(S(), clauses, variables, unitDecissions, learnt);
      ProgressUnit(S(), unitDecissions, learnt[0]);
    }

    // Backtracks to level k, keeping the books and the propagation.
    method BackJump(k: nat)
      requires Valid() && BooksOk(S(), db, B(), clauses) && PropagatedBelow(S(), db, Current(S())) && k < Current(S())
      modifies this`at, this`reason, this`db, this`decisions, this`decisionLevel
      ensures Valid() && BooksOk(S(), db, B(), clauses) && PropagatedBelow(S(), db, Current(S()))
      ensures old(decisionLevel)[k + 1] <= |old(decisions)| && S() == Truncate(old(S()), k + 1)
    {
      hide SearchOk, ListsOk, DbOk, FlagOk, BooksOk, PropagatedBelow, EqualButFlags, Truncate;
      ghost var s, d := S(), db;
      SearchFacts();
      BackTrack(k);
      BackjumpKeeps(s, d, db, B(), clauses, variables, k);
    }

    // From t, the learnt clause was recorded, and made its last literal true.
    ghost predicate Learnt(t: State, now: State, before: seq<nat>, learnt: seq<Lit>)
      requires |learnt| >= 2
      reads this`satClauses, this`db
    {
      && |t.start| >= 1 && now == Assign(t, learnt[|learnt| - 1], learnt)
      && |satClauses| == |before| + 1 && before <= satClauses
      && var id := satClauses[|before|]; id in db && db[id] == LearntClause(learnt).(satisfied := true)
    }

    // Adds a learnt clause with at least two literals after a backjump to level k.
    method LearnClause(learnt: seq<Lit>, k: nat)
      requires Valid() && BooksOk(S(), db, B(), clauses) && PropagatedBelow(S(), db, Current(S()))
      requires |learnt| >= 2 && Learnable(S(), clauses, learnt) && UpTo(S(), learnt, k) && k < Current(S())
      requires learnt[0].v in at && at[learnt[0].v].lev == k
      modifies this`at, this`reason, this`db, this`decisions, this`decisionLevel
      modifies this`watchList, this`satClauses, this`nextClause
      ensures Progress(old(S()), S())
      ensures Valid() && BooksOk(S(), db, B(), clauses) && PropagatedBelow(S(), db, Current(S()))
      ensures old(decisionLevel)[k + 1] <= |old(decisions)|
      ensures Learnt(Truncate(old(S()), k + 1), S(), old(satClauses), learnt)
    {
      hide SearchOk, WatchOk, BooksOk, PropagatedBelow, Truncate, Learnable, UpTo, Unit, ClauseOk, Progress;
      LearntReady(learnt, k);
      BackJump(k);
      var id := AddSatClause(learnt);
      Enforce(learnt[|learnt| - 1], id);
    }

    ghost predicate UnitLearnt(t: State, now: State, l: Lit) {
      |t.start| == 1 && t.start[0] <= |t.trail| && now == InsertUnit(t, l)
    }

    // Adds a learnt unit clause after a backjump to level 0.
    method LearnUnit(learnt: seq<Lit>) returns (ok: bool)
      requires Valid() && BooksOk(S(), db, B(), clauses) && PropagatedBelow(S(), db, Current(S()))
      requires |learnt| == 1 && Learnable(S(), clauses, learnt) && |decisionLevel| >= 2
      modifies this`at, this`reason, this`db, this`decisions, this`decisionLevel, this`locked
      ensures ok && Progress(old(S()), S())
      ensures Valid() && BooksOk(S(), db, B(), clauses) && PropagatedBelow(S(), db, Current(S()))
      ensures old(decisionLevel)[1] <= |old(decisions)| && UnitLearnt(Truncate(old(S()), 1), S(), learnt[0])
    {
      hide SearchOk, WatchOk, BooksOk, PropagatedBelow, Truncate, InsertUnit, Learnable, Entails, Progress;
      UnitLearntReady(learnt);
      BackJump(0);
      ok := AddUnitClause(learnt[0]);
      NothingBelowZero(S(), db);
    }

    // Learns from the false clause c, and backjumps to the level k of the other literals of the
    // learnt clause; the result is never false. The clause full of the first unique implication
    // point, at position uip of the trail, was minimised to the learnt clause.
    method ResolveConflict(c: nat) returns (ok: bool, ghost learnt: seq<Lit>, ghost k: nat, ghost full: seq<Lit>, ghost uip: nat)
      requires Valid() && BooksOk(S(), db, B(), clauses) && PropagatedBelow(S(), db, Current(S()))
      requires |decisionLevel| >= 2 && c in db && Conflict(S(), db[c].literals) && seen == {}
      modifies this`at, this`reason, this`db, this`decisions, this`decisionLevel, this`seen, this`locked
      modifies this`watchList, this`satClauses, this`nextClause
      ensures ok && seen == {} && Progress(old(S()), S())
      ensures Valid() && BooksOk(S(), db, B(), clauses) && PropagatedBelow(S(), db, Current(S()))
      ensures FirstUip(old(S()), old(db)[c].literals, uip) && Learnable(old(S()), clauses, full)
      ensures full[|full| - 1].v == old(decisions)[uip]
      ensures OtherVars(full) == Cut(old(S()), old(db)[c].literals, uip + 1) - {old(decisions)[uip]}
      ensures Minimised(old(S()), full, learnt)
      ensures forall i :: 0 <= i < |learnt| - 1 ==> !Redundant(old(S()), OtherVars(learnt), learnt[i])
      ensures |learnt| >= 1 && Learnable(old(S()), clauses, learnt) && k + 1 < |old(decisionLevel)|
      ensures old(decisionLevel)[k + 1] <= |old(decisions)|
      ensures |learnt| == 1 ==> k == 0 && UnitLearnt(Truncate(old(S()), 1), S(), learnt[0])
      ensures |learnt| > 1 ==> UpTo(old(S()), learnt, k) && learnt[0].v in old(at) && old(at)[learnt[0].v].lev == k
      ensures |learnt| > 1 ==> Learnt(Truncate(old(S()), k + 1), S(), old(satClauses), learnt)
    {
      hide Valid, BooksOk, PropagatedBelow, Learnable, UpTo, Conflict, Progress, MarkedBy, Learnt, UnitLearnt, Truncate,
        FirstUip, Cut, Minimised, Redundant, OtherVars;
      var clause;
      clause, uip := Analyze(c);
      full := clause;
      LearnableLength(clause);
      MarkedVars(seen, clause);
      UipInTrail(S(), db[c].literals, uip);
      clause := Minimise(clause);
      LearnableLength(clause);
      if |clause| == 1 {
        MinimisedIsMinimal(S(), full, clause);
        ok := LearnUnit(clause);
        k := 0;
      } else {
        var back;
        clause, back := BackLevel(clause, full);
        MinimisedIsMinimal(S(), full, clause);
        LearnClause(clause, back);
        ok := true;
        k := back;
      }
      learnt := clause;
    }

    lemma LearnableLength(learnt: seq<Lit>)
      requires Learnable(S(), clauses, learnt)
      ensures |learnt| >= 1
    {
      hide Entails;
    }

    // ------------------------------------------------------------ forgetting clauses

    method Erase(list: seq<Watcher>, w: Watcher) returns (r: seq<Watcher>)
      requires NoRepeat(list) && w in list
      ensures r == Without(list, w)
    {
      var k := 0;
      while list[k] != w
        invariant 0 <= k < |list| && w in list[k..]
        decreases |list| - k
      {
        k := k + 1;
      }
      EraseIsWithout(list, k);
      r := list[..k] + list[k + 1..];
    }

    lemma PullFacts(c: nat)
      requires WatchOk(S(), watchList, db, clauses, variables) && c in db
      ensures db[c].watch0.v in watchList && db[c].watch1.v in watchList
      ensures NoRepeat(watchList[db[c].watch0.v]) && Watcher(c, true) in watchList[db[c].watch0.v]
      ensures var l1 := watchList[db[c].watch0.v := Without(watchList[db[c].watch0.v], Watcher(c, true))];
        NoRepeat(l1[db[c].watch1.v]) && Watcher(c, false) in l1[db[c].watch1.v]
    {
      hide DbOk, FlagOk, NoRepeat;
      var a, b := db[c].watch0.v, db[c].watch1.v;
      assert ListOk(watchList[a], a, db) && ListOk(watchList[b], b, db);
      WithoutMembers(watchList[a], Watcher(c, true));
    }

    method Forget(c: nat)
      requires WatchOk(S(), watchList, db, clauses, variables) && c in db
      modifies this`watchList, this`db
      ensures WatchOk(S(), watchList, db, clauses, variables) && db == old(db) - {c}
    {
      hide WatchOk, NoRepeat, Without;
      RemoveKeeps(S(), watchList, db, clauses, variables, c);
      PullFacts(c);
      var l0 := Erase(watchList[db[c].watch0.v], Watcher(c, true));
      watchList := watchList[db[c].watch0.v := l0];
      var l1 := Erase(watchList[db[c].watch1.v], Watcher(c, false));
      watchList := watchList[db[c].watch1.v := l1];
      db := db - {c};
    }

    // Forgets all but the num most active learnt clauses.
    method ReduceDB(num: nat, ghost L: int)
      requires Valid() && BooksOk(S(), db, B(), clauses) && PropagatedBelow(S(), db, L)
      modifies this`watchList, this`db, this`satClauses
      ensures Valid() && BooksOk(S(), db, B(), clauses) && PropagatedBelow(S(), db, L)
      ensures satClauses == if |old(satClauses)| < num then old(satClauses) else StableSort(old(db), old(satClauses))[..num]
      ensures forall c :: c in db <==> c in old(db) && (|old(satClauses)| < num || c !in StableSort(old(db), old(satClauses))[num..])
      ensures forall c {:trigger c in db} :: c in db ==>
        db[c] == if |old(satClauses)| >= num && c in satClauses then Calmed(old(db)[c]) else old(db)[c]
    {
      hide WatchOk, SearchOk, BooksOk, PropagatedBelow, Forgotten, StableSort;
      if |satClauses| < num {
        return;
      }
      ghost var d := db;
      var sorted := StableSort(db, satClauses);
      SortFacts();
      ForgottenNothing(db);
      assert sorted[num..num] == [];
      for i := num to |sorted|
        invariant Valid() && PropagatedBelow(S(), db, L) && Forgotten(d, db, sorted[num..i]) && satClauses == old(satClauses)
      {
        StillThere(d, sorted, num, i);
        RemoveKeepsPropagated(S(), db, sorted[i], L);
        ForgottenStep(d, db, sorted[num..i], sorted[i]);
        assert sorted[num..i] + [sorted[i]] == sorted[num..i + 1];
        Forget(sorted[i]);
      }
      assert sorted[num..|sorted|] == sorted[num..];
      ForgettingKeepsBooks(S(), d, db, B(), clauses, sorted, num);
      ForgottenKeys(d, db, sorted[num..]);
      satClauses := sorted[..num];
      Calm(L);
    }

    lemma SortFacts()
      requires BooksOk(S(), db, B(), clauses)
      ensures var sorted := StableSort(db, satClauses); multiset(sorted) == multiset(satClauses) && |sorted| == |satClauses|
      ensures NoDuplicates(StableSort(db, satClauses)) && forall x :: x in StableSort(db, satClauses) ==> x in db
    {
      hide StableSort, BasicOk;
      var sorted := StableSort(db, satClauses);
      StableSortCorrect(db, satClauses, 0);
      assert |multiset(sorted)| == |sorted|;
      PermutationKeepsDistinct(satClauses, sorted);
      forall x | x in sorted
        ensures x in db
      {
        assert x in multiset(sorted);
      }
    }

    lemma StillThere(d: Db, sorted: seq<nat>, num: nat, i: nat)
      requires num <= i < |sorted| && NoDuplicates(sorted) && Forgotten(d, db, sorted[num..i]) && sorted[i] in d
      ensures sorted[i] in db
    {
      assert sorted[i] !in sorted[num..i];
    }

    // Quarters the activities of the learnt clauses.
    method Calm(ghost L: int)
      requires Valid() && BooksOk(S(), db, B(), clauses) && PropagatedBelow(S(), db, L)
      modifies this`db
      ensures Valid() && BooksOk(S(), db, B(), clauses) && PropagatedBelow(S(), db, L) && db.Keys == old(db).Keys
      ensures forall c {:trigger c in db} :: c in db ==> db[c] == if c in satClauses then Calmed(old(db)[c]) else old(db)[c]
    {
      hide WatchOk, SearchOk, BooksOk, PropagatedBelow, ZeroKept, SameClauses;
      for i := 0 to |satClauses|
        invariant db.Keys == old(db).Keys
        invariant Valid() && BooksOk(S(), db, B(), clauses) && PropagatedBelow(S(), db, L)
        invariant forall c {:trigger c in db} :: c in db ==>
          db[c] == if c in satClauses[..i] then Calmed(old(db)[c]) else old(db)[c]
      {
        var c := satClauses[i];
        LearntThere(c);
        LearntOnce(i);
        RelabelKeeps(S(), watchList, db, clauses, variables, c, db[c].satisfied, db[c].activity / 4);
        RelabelKeepsPropagated(S(), db, c, db[c].satisfied, db[c].activity / 4, L, 0, {});
        RelabelBooks(c, db[c].satisfied, db[c].activity / 4);
        db := db[c := db[c].(activity := db[c].activity / 4)];
        assert satClauses[..i + 1] == satClauses[..i] + [c];
      }
      assert satClauses[..|satClauses|] == satClauses;
    }

    lemma LearntOnce(i: nat)
      requires BooksOk(S(), db, B(), clauses) && i < |satClauses|
      ensures satClauses[i] !in satClauses[..i]
    {
      hide BasicOk;
    }

    lemma LearntThere(c: nat)
      requires BooksOk(S(), db, B(), clauses) && c in satClauses
      ensures c in db
    {
    }

    lemma RelabelBooks(c: nat, satisfied: bool, activity: nat)
      requires BooksOk(S(), db, B(), clauses) && c in db
      ensures BooksOk(S(), Relabel(db, c, satisfied, activity), B(), clauses)
    {
      hide BooksOk;
      BooksKept(S(), db, B(), clauses, S(), Relabel(db, c, satisfied, activity));
    }

    // ------------------------------------------------------------ decisions

    // The unassigned variable of highest activity met last when starting at init, if there is one.
    method MostActive(init: nat) returns (next: Option<nat>)
      requires init <= variables && |activity| == variables
      ensures next.None? ==> forall v :: 0 <= v < variables ==> v in at
      ensures next.Some? ==> next.value < variables && next.value !in at
      ensures next.Some? ==> forall v :: 0 <= v < variables && v !in at ==> activity[v] <= activity[next.value]
    {
      var maxActivity := 0;
      next := None;
      for i := 0 to variables
        invariant next.None? ==> maxActivity == 0
        invariant next.Some? ==> next.value < variables && next.value !in at && activity[next.value] == maxActivity
        invariant forall j {:trigger At(init, j, variables)} :: 0 <= j < i ==> At(init, j, variables) in at || (next.Some? && activity[At(init, j, variables)] <= maxActivity)
      {
        var v := At(init, i, variables);
        if v !in at {
          if maxActivity <= activity[v] {
            maxActivity := activity[v];
            next := Some(v);
          }
        }
      }
      forall v | 0 <= v < variables
        ensures v in at || (next.Some? && activity[v] <= maxActivity)
      {
        assert At(init, if v >= init then v - init else v + variables - init, variables) == v;
      }
    }

    // The i-th place of a round trip over n places that starts at init.
    static function At(init: nat, i: nat, n: nat): (p: nat)
      requires 0 < n && init <= n && i < n
      ensures p == if init + i < n then init + i else init + i - n
    {
      ModOnce(init + i, n);
      (init + i) % n
    }

    static lemma ModOnce(x: nat, n: nat)
      requires 0 < n && x < 2 * n
      ensures x % n == if x < n then x else x - n
    {
      var q, r := x / n, x % n;
      assert x == q * n + r;
      assert q >= 2 ==> q * n >= 2 * n;
    }

    // The variable of l is unassigned, and none that is unassigned is more active.
    ghost predicate Decidable(taken: map<nat, Entry>, l: Lit)
      reads this`variables, this`activity
    {
      && l.v < variables && l.v !in taken && |activity| == variables
      && forall v :: 0 <= v < variables && v !in taken ==> activity[v] <= activity[l.v]
    }

    // Opens a level with a decision on a most active variable; none is left if the result is false.
    method DecideActivityBased(ghost L: int) returns (decided: bool)
      requires Valid() && BooksOk(S(), db, B(), clauses) && |activity| == variables
      requires PropagatedBelow(S(), db, L) && L <= |decisionLevel|
      modifies this`decisionLevel, this`at, this`decisions, this`reason
      ensures Valid() && BooksOk(S(), db, B(), clauses) && PropagatedBelow(S(), db, L)
      ensures !decided ==> S() == old(S()) && forall v :: 0 <= v < variables ==> v in at
      ensures decided ==> exists l: Lit :: Decidable(old(at), l) && S() == Decide(old(S()), l)
      ensures decided ==> |decisionLevel| == |old(decisionLevel)| + 1
    {
      hide WatchOk, SearchOk, BooksOk, PropagatedBelow;
      var init: nat :| init <= variables;
      var next := MostActive(init);
      if next.None? {
        return false;
      }
      var sign: bool := *;
      ghost var s := S();
      ghost var l := Lit(next.value, sign);
      DecideFacts(l, L);
      decisionLevel := decisionLevel + [|decisions|];
      at := at[next.value := Entry(sign, |decisionLevel| - 1, |decisions|)];
      decisions := decisions + [next.value];
      reason := reason - {next.value};
      assert S() == Decide(s, l);
      return true;
    }

    lemma DecideFacts(l: Lit, L: int)
      requires Valid() && BooksOk(S(), db, B(), clauses) && l.v < variables && l.v !in at
      requires PropagatedBelow(S(), db, L) && L <= |decisionLevel|
      ensures l.v !in reason && reason - {l.v} == reason
      ensures SearchOk(Decide(S(), l), clauses, variables, unitDecissions)
      ensures WatchOk(Decide(S(), l), watchList, db, clauses, variables)
      ensures BooksOk(Decide(S(), l), db, B(), clauses) && PropagatedBelow(Decide(S(), l), db, L)
    {
      hide SemOk, ListsOk, DbOk, BooksOk, PropagatedBelow, FlagOk, LevelOk, TrailOk, StartOk, ForcedOk;
      DecideKeeps(S(), l, clauses, variables, unitDecissions);
      DecideKeepsWatches(S(), l, db, L);
      assert ZeroKept(S(), Decide(S(), l));
      SameSelf(S(), db);
      BooksKept(S(), db, B(), clauses, Decide(S(), l), db);
    }

    // ------------------------------------------------------------ the search

    ghost predicate Ready()
      reads this`decisions, this`decisionLevel, this`at, this`reason, this`clauses, this`variables
      reads this`unitDecissions, this`watchList, this`db, this`satClauses, this`locked, this`nextClause, this`ids
      reads this`activity, this`seen
    {
      && Valid() && BooksOk(S(), db, B(), clauses)
      && |activity| == variables && seen == {}
    }

    ghost function Bound(): nat
      reads this`unitDecissions, this`variables
    {
      unitDecissions + variables
    }

    lemma BoundedSearch()
      requires Valid()
      ensures Bounded(S(), Bound()) && |decisionLevel| >= 1
    {
      hide WatchOk, LevelOk, ReasonOk, ForcedOk, SemOk, End;
      EndsBounded(S(), variables, unitDecissions);
    }

    // A clause that is false at level 0 leaves the basic clauses without a model.
    lemma Unsatisfiable(c: nat)
      requires Ready() && |decisionLevel| == 1 && c in db && Conflict(S(), db[c].literals)
      ensures !Satisfiable(clauses)
    {
      hide ListsOk, FlagOk, NoComplement, LevelOk, ReasonOk, ForcedOk, StartOk, SemOk, BooksOk;
      ClauseFacts(db, clauses, variables, c);
      if m: set<nat> :| Models(m, clauses) {
        assert HoldsSome(m, db[c].literals);
        var l :| l in db[c].literals && Holds(m, l);
        RefutedAtZero(S(), l, clauses, m);
      }
    }

    ghost predicate AllSatisfied()
      reads this
    {
      forall c :: c in clauses ==> HasTrue(S(), c)
    }

    // With everything assigned and propagated, every basic clause is satisfied.
    lemma Complete()
      requires Valid() && BooksOk(S(), db, B(), clauses) && PropagatedBelow(S(), db, |decisionLevel|)
      requires forall v :: 0 <= v < variables ==> v in at
      ensures AllSatisfied()
    {
      hide ListsOk, FlagOk, NoComplement, ReasonOk, ForcedOk, StartOk, SemOk, LevelOk;
      forall e | e in clauses
        ensures HasTrue(S(), e)
      {
        var i :| 0 <= i < |clauses| && clauses[i] == e;
        assert BasicOk(S(), db, B(), clauses[i], ids[i]);
        if |clauses[i]| == 1 {
          assert clauses[i][0] in clauses[i];
        } else {
          var c := ids[i];
          ClauseFacts(db, clauses, variables, c);
          assert True(S(), db[c].watch0) || False(S(), db[c].watch0);
          assert True(S(), db[c].watch0) || True(S(), db[c].watch1);
        }
      }
    }

    lemma SatisfiedIsModel()
      requires AllSatisfied()
      ensures Satisfiable(clauses)
    {
      var m := set v | v in at && at[v].sign;
      forall c | c in clauses
        ensures HoldsSome(m, c)
      {
        var l :| l in c && True(S(), l);
        assert Holds(m, l);
      }
      assert Models(m, clauses);
    }

    // Propagates, and resolves conflicts until there are none; false if the clauses contradict
    // each other at level 0.
    method PropagateAll() returns (solvable: bool)
      requires Ready() && PropagatedBelow(S(), db, Current(S()))
      modifies this`at, this`reason, this`db, this`decisions, this`decisionLevel, this`seen, this`locked
      modifies this`watchList, this`satClauses, this`nextClause, this`conflictCount
      ensures Ready() && Bounded(old(S()), Bound()) && Bounded(S(), Bound())
      ensures solvable ==> PropagatedBelow(S(), db, |decisionLevel|)
      ensures solvable ==> Rank(S(), Bound(), 0) <= Rank(old(S()), Bound(), 0)
      ensures !solvable ==> !Satisfiable(clauses)
    {
      hide Ready, PropagatedBelow, Conflict, Satisfiable, Bounded, Rank;
      ReadyBounded();
      ghost var s0 := S();
      var c := PropagateOnce(s0);
      while c.Some?
        invariant Ready() && PropagatedBelow(S(), db, Current(S())) && Bounded(S(), Bound())
        invariant c.Some? ==> c.value in db && Conflict(S(), db[c.value].literals)
        invariant c.None? ==> PropagatedBelow(S(), db, |decisionLevel|)
        invariant Rank(S(), Bound(), 0) <= Rank(s0, Bound(), 0)
        decreases Rank(S(), Bound(), 0)
      {
        if |decisionLevel| == 1 {
          Unsatisfiable(c.value);
          return false;
        }
        var ok := ResolveOnce(c.value);
        if !ok {
          return false;
        }
        c := PropagateOnce(S());
      }
      return true;
    }

    method ResolveOnce(c: nat) returns (ok: bool)
      requires Ready() && PropagatedBelow(S(), db, Current(S()))
      requires c in db && Conflict(S(), db[c].literals) && |decisionLevel| != 1
      modifies this`at, this`reason, this`db, this`decisions, this`decisionLevel, this`seen, this`locked
      modifies this`watchList, this`satClauses, this`nextClause, this`conflictCount
      ensures ok && Ready() && PropagatedBelow(S(), db, Current(S()))
      ensures Bounded(old(S()), Bound()) && Bounded(S(), Bound())
      ensures Rank(S(), Bound(), 0) < Rank(old(S()), Bound(), 0) && conflictCount == old(conflictCount) + 1
    {
      hide WatchOk, SearchOk, BooksOk, PropagatedBelow, Conflict, Progress, Bounded, Rank, Learnt, UnitLearnt, Learnable, UpTo, Truncate;
      BoundedSearch();
      ghost var s := S();
      conflictCount := conflictCount + 1;
      ghost var learnt, k;
      ghost var full, uip;
      ok, learnt, k, full, uip := ResolveConflict(c);
      BoundedSearch();
      ProgressLowersRank(s, S(), Bound());
    }

    method PropagateOnce(ghost s: State) returns (c: Option<nat>)
      requires Ready() && PropagatedBelow(S(), db, Current(S())) && s == S()
      modifies this`at, this`decisions, this`reason, this`db, this`watchList
      ensures Ready() && PropagatedBelow(S(), db, Current(S())) && Bounded(s, Bound()) && Bounded(S(), Bound())
      ensures c.Some? ==> c.value in db && Conflict(S(), db[c.value].literals)
      ensures c.None? ==> PropagatedBelow(S(), db, |decisionLevel|)
      ensures Rank(S(), Bound(), 0) <= Rank(s, Bound(), 0)
    {
      hide WatchOk, SearchOk, BooksOk, PropagatedBelow, Conflict, Extends, SameClauses, Bounded, Rank;
      ghost var d := db;
      BoundedSearch();
      c := Propagate();
      BoundedSearch();
      ExtendingKeepsRank(s, S(), Bound());
      ExtendsZero(s, S());
      BooksKept(s, d, B(), clauses, S(), db);
    }

    // One decision; without one all variables are assigned, and the basic clauses satisfied.
    method DecideNext() returns (decided: bool)
      requires Ready() && PropagatedBelow(S(), db, |decisionLevel|)
      modifies this`decisionLevel, this`at, this`decisions, this`reason
      ensures Ready() && Bounded(old(S()), Bound()) && Bounded(S(), Bound())
      ensures decided ==> PropagatedBelow(S(), db, Current(S())) && Rank(S(), Bound(), 0) < Rank(old(S()), Bound(), 0)
      ensures !decided ==> AllSatisfied() && Satisfiable(clauses)
    {
      hide WatchOk, SearchOk, BooksOk, PropagatedBelow, Satisfiable, Bounded, AllSatisfied, Decide, Decidable, Rank;
      ghost var s := S();
      BoundedSearch();
      decided := DecideActivityBased(|decisionLevel|);
      BoundedSearch();
      if decided {
        Decided(s);
      } else {
        Complete();
        SatisfiedIsModel();
      }
    }

    // Every thousandth decision forgets clauses, and quarters the activities of the variables.
    method Tidy()
      requires Ready() && PropagatedBelow(S(), db, Current(S()))
      modifies this`watchList, this`db, this`satClauses, this`activity, this`decisionCount
      ensures Ready() && PropagatedBelow(S(), db, Current(S())) && decisionCount == old(decisionCount) + 1
      ensures decisionCount % 1000 != 0 ==> db == old(db) && satClauses == old(satClauses) && activity == old(activity)
      ensures decisionCount % 1000 == 0 ==> |activity| == |old(activity)|
      ensures decisionCount % 1000 == 0 ==> forall v :: 0 <= v < |old(activity)| ==> activity[v] == old(activity)[v] / 4
      ensures decisionCount % 1000 == 0 && |old(satClauses)| < learntNum ==> satClauses == old(satClauses)
      ensures decisionCount % 1000 == 0 && |old(satClauses)| >= learntNum ==>
        satClauses == StableSort(old(db), old(satClauses))[..learntNum]
    {
      hide WatchOk, SearchOk, BooksOk, PropagatedBelow, StableSort, Activity, True, False;
      decisionCount := decisionCount + 1;
      if decisionCount % 1000 == 0 {
        ReduceDB(learntNum, Current(S()));
        var a := activity;
        activity := seq(|a|, i requires 0 <= i < |a| => a[i] / 4);
      }
    }

    // The whole search terminates with the right answer.
    method Solve() returns (sat: bool)
      requires Ready() && PropagatedBelow(S(), db, Current(S()))
      modifies this`at, this`reason, this`db, this`decisions, this`decisionLevel, this`seen, this`locked, this`watchList
      modifies this`satClauses, this`nextClause, this`conflictCount, this`decisionCount, this`learntNum, this`activity
      ensures sat <==> Satisfiable(clauses)
      ensures sat ==> AllSatisfied()
    {
      hide Ready, PropagatedBelow, Satisfiable, Bounded, AllSatisfied, Rank;
      learntNum := 700;
      ReadyBounded();
      while true
        invariant Ready() && PropagatedBelow(S(), db, Current(S())) && Bounded(S(), Bound())
        decreases Rank(S(), Bound(), 0)
      {
        var solvable := PropagateAll();
        if !solvable {
          return false;
        }
        var decided := DecideNext();
        if !decided {
          return true;
        }
        Tidy();
      }
    }

    lemma ReadyBounded()
      requires Ready()
      ensures Bounded(S(), Bound())
    {
      hide Valid, Bounded;
      BoundedSearch();
    }

    lemma Decided(s: State)
      requires |s.start| >= 1 && exists l: Lit :: Decidable(s.at, l) && S() == Decide(s, l)
      requires Bounded(s, Bound()) && Bounded(S(), Bound())
      ensures Rank(S(), Bound(), 0) < Rank(s, Bound(), 0)
    {
      hide Bounded;
      var l: Lit :| Decidable(s.at, l) && S() == Decide(s, l);
      DecisionProgress(s, l);
      ProgressLowersRank(s, S(), Bound());
    }

    // ------------------------------------------------------------ setting up a problem

    // The state the search would start from.
    ghost function S0(): State
      reads this`decisions, this`at, this`reason
    {
      State(decisions, [|decisions|], at, reason)
    }

    ghost predicate Building()
      reads this
    {
      && decisionLevel == [] && reason == map[] && seen == {} && |activity| == variables
      && SearchOk(S0(), clauses, variables, |decisions|)
      && WatchOk(S0(), watchList, db, clauses, variables)
      && BooksOk(S0(), db, B(), clauses)
      && FromUnits(S0(), clauses)
    }

    method NewVar() returns (v: nat)
      requires Building()
      modifies this`variables, this`watchList, this`activity
      ensures Building() && v == old(variables) && variables == v + 1 && activity == old(activity) + [0]
    {
      hide SearchOk, WatchOk, BooksOk, FromUnits;
      MoreVariablesSearch(S0(), clauses, variables, |decisions|);
      MoreVariablesWatch(S0(), watchList, db, clauses, variables);
      v := variables;
      variables := variables + 1;
      watchList := watchList[v := []];
      activity := activity + [0];
    }

    // Adds a clause. An empty clause is refused, and so is a unit clause that contradicts an
    // earlier one.
    method AddBasicClause(c: seq<Lit>) returns (added: bool)
      requires Building() && NoComplement(c) && InRange(c, variables)
      modifies this`clauses, this`db, this`watchList, this`decisions, this`at, this`locked, this`nextClause, this`ids
      ensures Building()
      ensures added <==> !Refusable(old(clauses), c)
      ensures added ==> clauses == old(clauses) + [c]
      ensures !added ==> clauses == old(clauses) && !Satisfiable(old(clauses) + [c])
    {
      hide SearchOk, WatchOk, BooksOk, NoComplement, Satisfiable, FromUnits;
      if |c| == 0 {
        EmptyClause(clauses, c);
        return false;
      }
      if |c| > 1 {
        AddWatched(c);
      } else {
        added := AddUnitBasic(c[0]);
        assert c == [c[0]];
        return;
      }
      return true;
    }

    method AddWatched(c: seq<Lit>)
      requires Building() && NoComplement(c) && InRange(c, variables) && |c| > 1
      modifies this`clauses, this`db, this`watchList, this`nextClause, this`ids
      ensures Building() && clauses == old(clauses) + [c]
    {
      hide SearchOk, WatchOk, BooksOk, NoComplement, InRange, FromUnits;
      MoreUnits(S0(), clauses, c);
      AddBasicKeeps(S0(), watchList, db, B(), clauses, variables, |decisions|, c);
      watchList := watchList[c[0].v := watchList[c[0].v] + [Watcher(nextClause, true)]];
      watchList := watchList[c[1].v := watchList[c[1].v] + [Watcher(nextClause, false)]];
      db := db[nextClause := BasicClause(c)];
      clauses := clauses + [c];
      ids := ids + [nextClause];
      nextClause := nextClause + 1;
    }

    lemma LevelZero(l: Lit)
      requires Building()
      ensures l.v in at ==> at[l.v].lev == 0
    {
      hide LevelOk, ReasonOk, ForcedOk, SemOk, WatchOk, BooksOk, FromUnits;
    }

    lemma Refused(l: Lit)
      requires Building() && False(S0(), l)
      ensures !Satisfiable(clauses + [[l]])
    {
      hide LevelOk, ReasonOk, ForcedOk, StartOk, SemOk, WatchOk, BooksOk, Satisfiable, FromUnits;
      LevelZero(l);
      RefusedUnit(S0(), l, clauses);
    }

    lemma UnitAdded(l: Lit)
      requires Building() && l.v < variables && !False(S0(), l)
      ensures var t := AddUnit(S0(), l); var cs := clauses + [[l]];
        && SearchOk(t, cs, variables, |decisions| + 1) && WatchOk(t, watchList, db, cs, variables)
        && BooksOk(t, db, B().(locked := locked + {l.v}, ids := ids + [0]), cs) && FromUnits(t, cs)
        && t.reason == map[] && t.start == [|decisions| + 1]
    {
      hide SearchOk, WatchOk, BooksOk, FromUnits, False;
      AddUnitKeeps(S0(), l, clauses, variables);
      AddUnitKeepsFlags(S0(), l, watchList, db, clauses, variables);
      AddUnitKeepsBooks(S0(), l, db, B(), clauses);
      AddUnitFromUnits(S0(), l, clauses);
    }

    method AddUnitBasic(l: Lit) returns (added: bool)
      requires Building() && InRange([l], variables)
      modifies this`clauses, this`decisions, this`at, this`locked, this`ids
      ensures Building() && (added <==> [Negated(l)] !in old(clauses))
      ensures added ==> clauses == old(clauses) + [[l]]
      ensures !added ==> clauses == old(clauses) && !Satisfiable(clauses + [[l]])
    {
      hide SearchOk, WatchOk, BooksOk, Satisfiable, FromUnits;
      FalseByUnit(S0(), l, db, B(), clauses);
      if l.v in at && at[l.v].sign != l.sign {
        Refused(l);
        return false;
      }
      ghost var s := S0();
      assert l in [l];
      UnitAdded(l);
      at := at[l.v := Entry(l.sign, 0, if l.v in at then at[l.v].pos else |decisions|)];
      decisions := decisions + [l.v];
      locked := locked + {l.v};
      clauses := clauses + [[l]];
      ids := ids + [0];
      assert S0() == AddUnit(s, l);
      return true;
    }

    // Starts the search at level 0, with the unit clauses flagged as satisfied.
    method Init()
      requires Building()
      modifies this`unitDecissions, this`decisionLevel, this`satisfiedUnits
      ensures Ready() && PropagatedBelow(S(), db, Current(S()))
      ensures unitDecissions == |decisions| && decisionLevel == [|decisions|]
      ensures forall i :: i in satisfiedUnits && i !in old(satisfiedUnits) ==> i < |clauses| && |clauses[i]| == 1
      ensures forall i :: 0 <= i < |clauses| && |clauses[i]| == 1 ==> i in satisfiedUnits && True(S(), clauses[i][0])
    {
      hide SearchOk, WatchOk, BooksOk, FromUnits;
      unitDecissions := |decisions|;
      decisionLevel := [|decisions|];
      for i := 0 to |clauses|
        modifies this`satisfiedUnits
        invariant forall k :: k in satisfiedUnits && k !in old(satisfiedUnits) ==> k < i && |clauses[k]| == 1
        invariant forall k :: 0 <= k < i && |clauses[k]| == 1 ==> k in satisfiedUnits
      {
        if |clauses[i]| == 1 {
          satisfiedUnits := satisfiedUnits + {i};
        }
      }
      NothingBelowZero(S(), db);
      UnitsTrue();
    }

    lemma UnitsTrue()
      requires BooksOk(S(), db, B(), clauses)
      ensures forall i :: 0 <= i < |clauses| && |clauses[i]| == 1 ==> True(S(), clauses[i][0])
    {
      forall i | 0 <= i < |clauses| && |clauses[i]| == 1 ensures True(S(), clauses[i][0]) {
        assert BasicOk(S(), db, B(), clauses[i], ids[i]);
      }
    }
  }
}
