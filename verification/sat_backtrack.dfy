// Backtracking: undoing trail entries one by one while keeping the `satisfied` flags honest.
module SatBacktrack {
  import opened SatTypes
  import opened SatState
  import opened SatWatch
  import opened SatLearn

  // The entries at positions lo, ..., hi - 1 are unassigned; trail and levels are still as before.
  ghost function Undo(s: State, lo: nat, hi: nat): State {
    s.(at := map v | v in s.at && !(lo <= s.at[v].pos < hi) :: s.at[v],
       reason := map v | v in s.reason && v in s.at && !(lo <= s.at[v].pos < hi) :: s.reason[v])
  }

  lemma UndoNothing(s: State, lo: nat)
    requires ReasonOk(s)
    ensures Undo(s, lo, lo) == s
  {
    assert Undo(s, lo, lo).at == s.at;
    assert Undo(s, lo, lo).reason == s.reason;
  }

  lemma UndoStep(s: State, n: nat, u: nat, lo: nat, hi: nat)
    requires TrailOk(s, n, u) && u <= lo <= hi < |s.trail|
    ensures var v := s.trail[hi]; Undo(s, lo, hi + 1).at == Undo(s, lo, hi).at - {v} && Undo(s, lo, hi + 1).reason == Undo(s, lo, hi).reason - {v}
  {
    hide TrailOk;
    AtPosition(s, n, u, hi);
    var v := s.trail[hi];
    assert Undo(s, lo, hi + 1).at == Undo(s, lo, hi).at - {v};
    assert Undo(s, lo, hi + 1).reason == Undo(s, lo, hi).reason - {v};
  }

  lemma AtPosition(s: State, n: nat, u: nat, i: nat)
    requires TrailOk(s, n, u) && u <= i < |s.trail|
    ensures forall v :: v in s.at ==> (s.at[v].pos == i <==> v == s.trail[i])
  {
  }

  lemma UndoIsTruncate(s: State, n: nat, u: nat, k: nat)
    requires TrailOk(s, n, u) && LevelOk(s) && 1 <= k < |s.start| && s.start[k] <= |s.trail|
    ensures var t := Undo(s, s.start[k], |s.trail|);
      Truncate(s, k) == t.(trail := s.trail[..s.start[k]], start := s.start[..k])
  {
    var t := Undo(s, s.start[k], |s.trail|);
    assert t.at == Truncate(s, k).at;
    assert t.reason == Truncate(s, k).reason;
  }

  // Flagged clauses have a true watched literal, or a watcher among those still to be looked at.
  ghost predicate FlagOkBut(s: State, db: Db, pend: seq<Watcher>) {
    forall c {:trigger c in db} :: c in db && db[c].satisfied ==>
      True(s, db[c].watch0) || True(s, db[c].watch1) || Watcher(c, true) in pend || Watcher(c, false) in pend
  }

  lemma UnassignBreaksFlags(s: State, t: State, lists: Lists, db: Db, v: nat)
    requires FlagOk(s, db) && Registered(lists, db) && v in lists
    requires forall x :: x in s.at && x != v ==> x in t.at && t.at[x] == s.at[x]
    ensures FlagOkBut(t, db, lists[v])
  {
  }

  ghost predicate EqualButFlags(a: Db, b: Db) {
    && a.Keys == b.Keys
    && (forall c {:trigger c in a} :: c in a ==> b[c] == a[c].(satisfied := b[c].satisfied))
  }

  lemma EqualButFlagsTransitive(a: Db, b: Db, c: Db)
    requires EqualButFlags(a, b) && EqualButFlags(b, c)
    ensures EqualButFlags(a, c)
  {
  }

  lemma EqualButFlagsLists(a: Db, b: Db, lists: Lists, n: nat)
    requires EqualButFlags(a, b) && ListsOk(lists, a, n)
    ensures ListsOk(lists, b, n)
  {
    assert Registered(lists, b);
    forall v | v in lists
      ensures ListOk(lists[v], v, b)
    {
      assert ListOk(lists[v], v, a);
    }
  }

  lemma EqualButFlagsDb(s: State, a: Db, b: Db, cs: seq<seq<Lit>>, n: nat, L: int)
    requires EqualButFlags(a, b)
    ensures DbOk(a, cs, n) ==> DbOk(b, cs, n)
    ensures PropagatedBelow(s, a, L) ==> PropagatedBelow(s, b, L)
  {
    hide Entails, NoComplement, InRange;
  }

  // The flag of one clause is recomputed.
  lemma Reflag(s: State, db: Db, pend: seq<Watcher>, flag: bool)
    requires |pend| > 0 && FlagOkBut(s, db, pend) && pend[0].clause in db
    requires flag <==> True(s, db[pend[0].clause].watch0) || True(s, db[pend[0].clause].watch1)
    ensures FlagOkBut(s, db[pend[0].clause := db[pend[0].clause].(satisfied := flag)], pend[1..])
    ensures EqualButFlags(db, db[pend[0].clause := db[pend[0].clause].(satisfied := flag)])
  {
    assert pend == [pend[0]] + pend[1..];
  }

  lemma NothingReflagged(db: Db)
    ensures EqualButFlags(db, db)
  {
  }

  lemma AllReflagged(s: State, db: Db, pend: seq<Watcher>)
    requires FlagOkBut(s, db, pend) && pend == []
    ensures FlagOk(s, db)
  {
  }
}
