// What relates the basic clauses, the learnt clauses and the locked variables to the search.
module SatBooks {
  import opened SatTypes
  import opened SatState
  import opened SatWatch
  import opened SatLearn
  import opened SatBacktrack
  import opened SatInsert

  // satClauses  the learnt clauses
  // locked      the variables fixed by unit clauses
  // next        the number of the next clause
  // ids         the numbers of the basic clauses
  datatype Books = Books(satClauses: seq<nat>, locked: set<nat>, next: nat, ids: seq<nat>)

  // A unit clause holds at level 0, any other basic clause is in the database for good.
  ghost predicate BasicOk(s: State, db: Db, b: Books, c: seq<Lit>, id: nat) {
    && |c| >= 1
    && if |c| == 1 then True(s, c[0]) && s.at[c[0].v].lev == 0
       else id in db && id !in b.satClauses && db[id].literals == c
  }

  ghost predicate BooksOk(s: State, db: Db, b: Books, cs: seq<seq<Lit>>) {
    && (forall c :: c in db ==> c < b.next)
    && (forall v :: v in b.locked ==> v in s.at && s.at[v].lev == 0)
    && |b.ids| == |cs|
    && (forall i {:trigger cs[i]} :: 0 <= i < |cs| ==> BasicOk(s, db, b, cs[i], b.ids[i]))
    && (forall i :: 0 <= i < |b.satClauses| ==> b.satClauses[i] in db)
    && (forall i, j :: 0 <= i < j < |b.satClauses| ==> b.satClauses[i] != b.satClauses[j])
  }

  // Level 0 only grows.
  ghost predicate ZeroKept(s: State, t: State) {
    forall v :: v in s.at && s.at[v].lev == 0 ==> v in t.at && t.at[v].lev == 0 && t.at[v].sign == s.at[v].sign
  }

  lemma BooksKept(s: State, db: Db, b: Books, cs: seq<seq<Lit>>, t: State, d: Db)
    requires BooksOk(s, db, b, cs) && ZeroKept(s, t) && SameClauses(db, d)
    ensures BooksOk(t, d, b, cs)
  {
    forall i | 0 <= i < |cs|
      ensures BasicOk(t, d, b, cs[i], b.ids[i])
    {
      assert BasicOk(s, db, b, cs[i], b.ids[i]);
    }
  }

  lemma BooksLearn(s: State, db: Db, b: Books, cs: seq<seq<Lit>>, c: Clause)
    requires BooksOk(s, db, b, cs)
    ensures BooksOk(s, db[b.next := c], b.(satClauses := b.satClauses + [b.next], next := b.next + 1), cs)
  {
    var e := b.(satClauses := b.satClauses + [b.next], next := b.next + 1);
    forall i | 0 <= i < |cs|
      ensures BasicOk(s, db[b.next := c], e, cs[i], e.ids[i])
    {
      assert BasicOk(s, db, b, cs[i], b.ids[i]);
    }
  }

  lemma BooksLock(s: State, db: Db, b: Books, cs: seq<seq<Lit>>, v: nat)
    requires BooksOk(s, db, b, cs) && v in s.at && s.at[v].lev == 0
    ensures BooksOk(s, db, b.(locked := b.locked + {v}), cs)
  {
    var e := b.(locked := b.locked + {v});
    forall i | 0 <= i < |cs|
      ensures BasicOk(s, db, e, cs[i], e.ids[i])
    {
      assert BasicOk(s, db, b, cs[i], b.ids[i]);
    }
  }

  lemma TruncateKeepsZero(s: State, k: nat)
    requires 1 <= k < |s.start| && s.start[k] <= |s.trail|
    ensures ZeroKept(s, Truncate(s, k))
  {
  }

  // ---------------------------------------------------------------- progress

  // The end of level k in the trail; 0 for a level that does not exist.
  function End(s: State, k: nat): nat {
    if k + 1 < |s.start| then s.start[k + 1] else if k < |s.start| then |s.trail| else 0
  }

  // Some level ends later than before, and all levels below end where they did.
  ghost predicate Progress(s: State, t: State) {
    exists d: nat :: d < |t.start| && End(s, d) < End(t, d) && forall k: nat :: k < d ==> End(s, k) == End(t, k)
  }

  lemma EnforceKeepsBooks(s: State, db: Db, b: Books, cs: seq<seq<Lit>>, l: Lit, c: nat)
    requires BooksOk(s, db, b, cs) && |s.start| >= 1 && l.v !in s.at && c in db
    ensures BooksOk(Assign(s, l, db[c].literals), Relabel(db, c, true, db[c].activity), b, cs)
  {
    hide BooksOk;
    BooksKept(s, db, b, cs, Assign(s, l, db[c].literals), Relabel(db, c, true, db[c].activity));
  }

  lemma ProgressLearnt(s: State, u: nat, k: nat, l: Lit, r: seq<Lit>)
    requires StartOk(s, u) && k + 1 < |s.start|
    ensures Progress(s, Assign(Truncate(s, k + 1), l, r))
  {
    var t := Assign(Truncate(s, k + 1), l, r);
    assert End(s, k) < End(t, k) && forall j: nat :: j < k ==> End(s, j) == End(t, j);
  }

  lemma ProgressUnit(s: State, u: nat, l: Lit)
    requires StartOk(s, u) && 1 < |s.start|
    ensures Progress(s, InsertUnit(Truncate(s, 1), l))
  {
    var t := InsertUnit(Truncate(s, 1), l);
    assert End(s, 0) < End(t, 0);
  }

  lemma SameButFlags(a: Db, b: Db)
    requires EqualButFlags(a, b)
    ensures SameClauses(a, b)
  {
  }

  // Backtracking to level k keeps the books and the propagation of the levels up to k.
  lemma BackjumpKeeps(s: State, db: Db, d: Db, b: Books, cs: seq<seq<Lit>>, n: nat, k: nat)
    requires BooksOk(s, db, b, cs) && DbOk(db, cs, n) && PropagatedBelow(s, db, Current(s)) && EqualButFlags(db, d)
    requires k + 1 < |s.start| && s.start[k + 1] <= |s.trail|
    ensures BooksOk(Truncate(s, k + 1), d, b, cs)
    ensures PropagatedBelow(Truncate(s, k + 1), d, Current(Truncate(s, k + 1)))
  {
    hide BooksOk, PropagatedBelow, EqualButFlags, DbOk, ZeroKept, SameClauses;
    TruncateKeepsZero(s, k + 1);
    SameButFlags(db, d);
    BooksKept(s, db, b, cs, Truncate(s, k + 1), d);
    PropagatedLess(s, db, Current(s), k + 1);
    TruncateKeepsPropagated(s, db, k + 1);
    EqualButFlagsDb(Truncate(s, k + 1), db, d, cs, n, k + 1);
    PropagatedLess(Truncate(s, k + 1), d, k + 1, k);
  }

  // The learnt clause may be added and enforced after the backjump.
  lemma BackjumpReady(s: State, cs: seq<seq<Lit>>, n: nat, u: nat, ls: seq<Lit>, k: nat)
    requires StartOk(s, u) && TrailOk(s, n, u) && Learnable(s, cs, ls) && |ls| >= 2 && UpTo(s, ls, k) && k < Current(s)
    requires ls[0].v in s.at && s.at[ls[0].v].lev == k
    ensures ClauseOk(LearntClause(ls), cs, n)
    ensures var t := Truncate(s, k + 1); Unit(t, ls[|ls| - 1], ls) && ls[0].v in t.at && t.at[ls[0].v].lev >= Current(t)
  {
    hide TrailOk, NoComplement, Entails, Learnable;
    LearnableFacts(s, cs, ls, n, u);
    BackjumpUnit(s, cs, ls, k);
  }

  lemma UnitReady(s: State, cs: seq<seq<Lit>>, n: nat, u: nat, ls: seq<Lit>)
    requires StartOk(s, u) && TrailOk(s, n, u) && Learnable(s, cs, ls) && |ls| == 1 && 0 < Current(s)
    ensures ls[0].v < n && Entails(cs, [ls[0]]) && ls[0].v !in Truncate(s, 1).at
  {
    hide Entails;
    assert ls == [ls[0]];
  }

  lemma ExtendsZero(s: State, t: State)
    requires Extends(s, t)
    ensures ZeroKept(s, t)
  {
  }

  ghost predicate HasTrue(s: State, ls: seq<Lit>) {
    exists l :: l in ls && True(s, l)
  }
}
