// Forgetting learnt clauses: a stable sort by activity, and the removal of the least active ones.
module SatReduce {
  import opened SatTypes
  import opened SatState
  import opened SatWatch
  import opened SatBooks

  function Activity(db: Db, c: nat): nat {
    if c in db then db[c].activity else 0
  }

  // A clause that outlives the others grows less active.
  function Calmed(c: Clause): Clause {
    c.(activity := c.activity / 4)
  }

  // ---------------------------------------------------------------- stable sorting

  ghost predicate Sorted(db: Db, s: seq<nat>) {
    forall i, j :: 0 <= i < j < |s| ==> Activity(db, s[i]) >= Activity(db, s[j])
  }

  // x goes before the first element that is not more active.
  function Insert(db: Db, x: nat, s: seq<nat>): (r: seq<nat>)
    ensures |r| == |s| + 1
  {
    if s == [] || Activity(db, x) >= Activity(db, s[0]) then [x] + s
    else [s[0]] + Insert(db, x, s[1..])
  }

  function StableSort(db: Db, s: seq<nat>): (r: seq<nat>)
    ensures |r| == |s|
  {
    if s == [] then [] else Insert(db, s[0], StableSort(db, s[1..]))
  }

  // The elements with activity a, in their order.
  function WithActivity(db: Db, a: nat, s: seq<nat>): seq<nat> {
    if s == [] then []
    else (if Activity(db, s[0]) == a then [s[0]] else []) + WithActivity(db, a, s[1..])
  }

  lemma {:induction false} InsertMembers(db: Db, x: nat, s: seq<nat>)
    ensures multiset(Insert(db, x, s)) == multiset{x} + multiset(s)
  {
    if s != [] && Activity(db, x) < Activity(db, s[0]) {
      assert s == [s[0]] + s[1..];
      InsertMembers(db, x, s[1..]);
    }
  }

  lemma SortedCons(db: Db, h: nat, s: seq<nat>)
    requires Sorted(db, s) && forall y :: y in s ==> Activity(db, h) >= Activity(db, y)
    ensures Sorted(db, [h] + s)
  {
  }

  lemma {:induction false} InsertSorted(db: Db, x: nat, s: seq<nat>)
    requires Sorted(db, s)
    ensures Sorted(db, Insert(db, x, s))
  {
    if s == [] || Activity(db, x) >= Activity(db, s[0]) {
      assert forall y :: y in s ==> Activity(db, s[0]) >= Activity(db, y);
      SortedCons(db, x, s);
    } else {
      InsertSorted(db, x, s[1..]);
      InsertMembers(db, x, s[1..]);
      forall y | y in Insert(db, x, s[1..])
        ensures Activity(db, s[0]) >= Activity(db, y)
      {
        assert y in multiset(Insert(db, x, s[1..]));
      }
      SortedCons(db, s[0], Insert(db, x, s[1..]));
    }
  }

  lemma WithActivityCons(db: Db, a: nat, h: nat, s: seq<nat>)
    ensures WithActivity(db, a, [h] + s) == (if Activity(db, h) == a then [h] else []) + WithActivity(db, a, s)
  {
    assert ([h] + s)[1..] == s;
  }

  lemma {:induction false} InsertStable(db: Db, x: nat, s: seq<nat>, a: nat)
    ensures WithActivity(db, a, Insert(db, x, s)) == (if Activity(db, x) == a then [x] else []) + WithActivity(db, a, s)
  {
    hide WithActivity;
    if s == [] || Activity(db, x) >= Activity(db, s[0]) {
      WithActivityCons(db, a, x, s);
    } else {
      InsertStable(db, x, s[1..], a);
      WithActivityCons(db, a, s[0], Insert(db, x, s[1..]));
      WithActivityCons(db, a, s[0], s[1..]);
      assert s == [s[0]] + s[1..];
    }
  }

  // The sort orders by falling activity, keeps the elements, and keeps the order among equals.
  lemma {:induction false} StableSortCorrect(db: Db, s: seq<nat>, a: nat)
    ensures Sorted(db, StableSort(db, s)) && multiset(StableSort(db, s)) == multiset(s)
    ensures WithActivity(db, a, StableSort(db, s)) == WithActivity(db, a, s)
  {
    if s != [] {
      assert s == [s[0]] + s[1..];
      StableSortCorrect(db, s[1..], a);
      InsertSorted(db, s[0], StableSort(db, s[1..]));
      InsertMembers(db, s[0], StableSort(db, s[1..]));
      InsertStable(db, s[0], StableSort(db, s[1..]), a);
    }
  }

  // ---------------------------------------------------------------- removing one clause

  // The first occurrence of w is erased.
  lemma {:induction false} EraseIsWithout(s: seq<Watcher>, k: nat)
    requires k < |s| && NoRepeat(s)
    ensures s[..k] + s[k + 1..] == Without(s, s[k])
  {
    var t := s[..|s| - 1];
    assert s == t + [s[|s| - 1]];
    if k == |s| - 1 {
      WithoutAbsent(t, s[k]);
    } else {
      EraseIsWithout(t, k);
      assert s[..k] + s[k + 1..] == (t[..k] + t[k + 1..]) + [s[|s| - 1]];
    }
  }

  lemma {:induction false} WithoutAbsent(s: seq<Watcher>, w: Watcher)
    requires w !in s
    ensures Without(s, w) == s
  {
    if s != [] {
      assert s == s[..|s| - 1] + [s[|s| - 1]];
      WithoutAbsent(s[..|s| - 1], w);
    }
  }

  ghost function PullWatchers(lists: Lists, c: nat, a: nat, b: nat): Lists
    requires a in lists && b in lists
  {
    var l1 := lists[a := Without(lists[a], Watcher(c, true))];
    l1[b := Without(l1[b], Watcher(c, false))]
  }

  lemma PulledList(lists: Lists, c: nat, a: nat, b: nat, v: nat)
    requires a in lists && b in lists && v in lists
    ensures forall w :: w in PullWatchers(lists, c, a, b)[v] ==> w in lists[v]
    ensures forall w :: w in lists[v] && w.clause != c ==> w in PullWatchers(lists, c, a, b)[v]
    ensures v == a ==> Watcher(c, true) !in PullWatchers(lists, c, a, b)[v]
    ensures v == b ==> Watcher(c, false) !in PullWatchers(lists, c, a, b)[v]
    ensures NoRepeat(lists[v]) ==> NoRepeat(PullWatchers(lists, c, a, b)[v])
  {
    var l1 := lists[a := Without(lists[a], Watcher(c, true))];
    WithoutMembers(lists[a], Watcher(c, true));
    WithoutMembers(l1[b], Watcher(c, false));
  }

  lemma RemoveKeepsList(lists: Lists, db: Db, c: nat, v: nat)
    requires c in db && db[c].watch0.v in lists && db[c].watch1.v in lists && v in lists && ListOk(lists[v], v, db)
    ensures ListOk(PullWatchers(lists, c, db[c].watch0.v, db[c].watch1.v)[v], v, db - {c})
  {
    PulledList(lists, c, db[c].watch0.v, db[c].watch1.v, v);
    var ws := PullWatchers(lists, c, db[c].watch0.v, db[c].watch1.v)[v];
    forall w | w in ws
      ensures w.clause in db - {c} && Watched((db - {c})[w.clause], w.first).v == v
    {
      assert w in lists[v];
      assert w == Watcher(w.clause, w.first);
    }
  }

  lemma RemoveKeepsRegistered(lists: Lists, db: Db, c: nat)
    requires Registered(lists, db) && c in db
    ensures Registered(PullWatchers(lists, c, db[c].watch0.v, db[c].watch1.v), db - {c})
  {
    var t := PullWatchers(lists, c, db[c].watch0.v, db[c].watch1.v);
    forall d | d in db - {c}
      ensures db[d].watch0.v in t && Watcher(d, true) in t[db[d].watch0.v]
      ensures db[d].watch1.v in t && Watcher(d, false) in t[db[d].watch1.v]
    {
      PulledList(lists, c, db[c].watch0.v, db[c].watch1.v, db[d].watch0.v);
      PulledList(lists, c, db[c].watch0.v, db[c].watch1.v, db[d].watch1.v);
    }
  }

  lemma RemoveKeepsLists(lists: Lists, db: Db, n: nat, c: nat)
    requires ListsOk(lists, db, n) && c in db
    ensures db[c].watch0.v in lists && db[c].watch1.v in lists
    ensures ListsOk(PullWatchers(lists, c, db[c].watch0.v, db[c].watch1.v), db - {c}, n)
  {
    hide ListOk;
    RemoveKeepsRegistered(lists, db, c);
    hide Registered;
    forall v | v in lists
      ensures ListOk(PullWatchers(lists, c, db[c].watch0.v, db[c].watch1.v)[v], v, db - {c})
    {
      RemoveKeepsList(lists, db, c, v);
    }
  }

  lemma RemoveKeeps(s: State, lists: Lists, db: Db, cs: seq<seq<Lit>>, n: nat, c: nat)
    requires WatchOk(s, lists, db, cs, n) && c in db
    ensures db[c].watch0.v in lists && db[c].watch1.v in lists
    ensures WatchOk(s, PullWatchers(lists, c, db[c].watch0.v, db[c].watch1.v), db - {c}, cs, n)
  {
    hide ListsOk, ClauseOk, PullWatchers;
    RemoveKeepsLists(lists, db, n, c);
  }

  lemma RemoveKeepsPropagated(s: State, db: Db, c: nat, L: int)
    requires PropagatedBelow(s, db, L)
    ensures PropagatedBelow(s, db - {c}, L)
  {
  }

  // ---------------------------------------------------------------- the books

  ghost predicate NoDuplicates(s: seq<nat>) {
    forall i, j :: 0 <= i < j < |s| ==> s[i] != s[j]
  }

  lemma {:induction false} DistinctOnce(s: seq<nat>)
    requires NoDuplicates(s)
    ensures forall x :: x in s ==> multiset(s)[x] == 1
  {
    if s != [] {
      var t, y := s[..|s| - 1], s[|s| - 1];
      assert s == t + [y];
      DistinctOnce(t);
      assert y !in t && y !in multiset(t);
    }
  }

  lemma OnceDistinct(s: seq<nat>)
    requires forall x :: x in s ==> multiset(s)[x] == 1
    ensures NoDuplicates(s)
  {
    forall i, j | 0 <= i < j < |s|
      ensures s[i] != s[j]
    {
      assert s == s[..j] + [s[j]] + s[j + 1..];
      assert s[i] in s[..j] && s[i] in multiset(s[..j]);
      assert multiset(s)[s[i]] == 1;
    }
  }

  lemma PermutationKeepsDistinct(s: seq<nat>, t: seq<nat>)
    requires multiset(s) == multiset(t) && NoDuplicates(s)
    ensures NoDuplicates(t)
  {
    DistinctOnce(s);
    forall x | x in t
      ensures multiset(t)[x] == 1
    {
      assert x in multiset(t);
      assert x in s;
    }
    OnceDistinct(t);
  }

  // The clauses of the database that are left when those of `gone` are forgotten.
  ghost predicate Forgotten(db: Db, d: Db, gone: seq<nat>) {
    && (forall c {:trigger c in d} :: c in d ==> c in db && c !in gone && d[c] == db[c])
    && (forall c {:trigger c in d} {:trigger c in db} :: c in db && c !in gone ==> c in d)
  }

  lemma ForgottenNothing(db: Db)
    ensures Forgotten(db, db, [])
  {
  }

  lemma ForgottenKeys(db: Db, d: Db, gone: seq<nat>)
    requires Forgotten(db, d, gone)
    ensures forall c :: c in d.Keys <==> c in db.Keys && c !in gone
    ensures forall c {:trigger c in d} :: c in d ==> c in db && d[c] == db[c]
  {
  }

  lemma ForgottenStep(db: Db, d: Db, gone: seq<nat>, c: nat)
    requires Forgotten(db, d, gone)
    ensures Forgotten(db, d - {c}, gone + [c])
  {
  }

  lemma ForgettingKeepsBooks(s: State, db: Db, d: Db, b: Books, cs: seq<seq<Lit>>, sorted: seq<nat>, num: nat)
    requires BooksOk(s, db, b, cs) && multiset(sorted) == multiset(b.satClauses) && num <= |sorted|
    requires Forgotten(db, d, sorted[num..])
    ensures BooksOk(s, d, b.(satClauses := sorted[..num]), cs)
  {
    PermutationKeepsDistinct(b.satClauses, sorted);
    var e := b.(satClauses := sorted[..num]);
    assert forall x :: x in sorted ==> x in b.satClauses by {
      forall x | x in sorted ensures x in b.satClauses { assert x in multiset(sorted); }
    }
    forall i | 0 <= i < |cs|
      ensures BasicOk(s, d, e, cs[i], b.ids[i])
    {
      assert BasicOk(s, db, b, cs[i], b.ids[i]);
    }
    forall i | 0 <= i < num
      ensures sorted[i] in d
    {
      assert sorted[i] in sorted;
    }
  }
}
