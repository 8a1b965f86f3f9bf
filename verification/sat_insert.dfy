// Adding clauses: registering two watchers, and inserting a learnt unit clause at level 0.
module SatInsert {
  import opened SatTypes
  import opened SatState
  import opened SatWatch
  import opened SatLearn

  // ---------------------------------------------------------------- a watched clause

  ghost function PushWatchers(lists: Lists, id: nat, a: nat, b: nat): Lists
    requires a in lists && b in lists
  {
    var l1 := lists[a := lists[a] + [Watcher(id, true)]];
    l1[b := l1[b] + [Watcher(id, false)]]
  }

  lemma AddKeepsRegistered(lists: Lists, db: Db, id: nat, c: Clause)
    requires Registered(lists, db) && id !in db && c.watch0.v in lists && c.watch1.v in lists
    ensures Registered(PushWatchers(lists, id, c.watch0.v, c.watch1.v), db[id := c])
  {
    var t := PushWatchers(lists, id, c.watch0.v, c.watch1.v);
    assert forall v, w :: v in lists && w in lists[v] ==> w in t[v];
    assert Watcher(id, true) in t[c.watch0.v] && Watcher(id, false) in t[c.watch1.v];
  }

  lemma AddKeepsList(lists: Lists, db: Db, id: nat, c: Clause, v: nat)
    requires id !in db && c.watch0.v in lists && c.watch1.v in lists && v in lists && ListOk(lists[v], v, db)
    ensures ListOk(PushWatchers(lists, id, c.watch0.v, c.watch1.v)[v], v, db[id := c])
  {
    var t := PushWatchers(lists, id, c.watch0.v, c.watch1.v);
    assert t[v] == lists[v] + (if v == c.watch0.v then [Watcher(id, true)] else []) + (if v == c.watch1.v then [Watcher(id, false)] else []);
    assert Watcher(id, true) !in lists[v] && Watcher(id, false) !in lists[v];
  }

  lemma AddKeepsLists(lists: Lists, db: Db, n: nat, id: nat, c: Clause)
    requires ListsOk(lists, db, n) && id !in db && c.watch0.v < n && c.watch1.v < n
    ensures ListsOk(PushWatchers(lists, id, c.watch0.v, c.watch1.v), db[id := c], n)
  {
    hide ListOk, Registered;
    AddKeepsRegistered(lists, db, id, c);
    forall v | v in lists
      ensures ListOk(PushWatchers(lists, id, c.watch0.v, c.watch1.v)[v], v, db[id := c])
    {
      AddKeepsList(lists, db, id, c, v);
    }
  }

  lemma AddKeepsDb(s: State, db: Db, cs: seq<seq<Lit>>, n: nat, id: nat, c: Clause)
    requires DbOk(db, cs, n) && FlagOk(s, db) && id !in db && ClauseOk(c, cs, n) && !c.satisfied
    ensures DbOk(db[id := c], cs, n) && FlagOk(s, db[id := c])
  {
    hide ClauseOk;
  }

  // A new clause may be watched when its flag is not set.
  lemma AddKeeps(s: State, lists: Lists, db: Db, cs: seq<seq<Lit>>, n: nat, id: nat, c: Clause)
    requires WatchOk(s, lists, db, cs, n) && id !in db && ClauseOk(c, cs, n) && !c.satisfied
    ensures c.watch0.v in lists && c.watch1.v in lists
    ensures WatchOk(s, PushWatchers(lists, id, c.watch0.v, c.watch1.v), db[id := c], cs, n)
  {
    hide ListOk, Registered, DbOk, FlagOk, NoComplement, Entails;
    AddKeepsLists(lists, db, n, id, c);
    AddKeepsDb(s, db, cs, n, id, c);
  }

  // ---------------------------------------------------------------- a unit clause at level 0

  // Literal l is inserted at the end of the unit clauses known so far, which moves what comes
  // after it, and the starts of all levels.
  ghost function InsertUnit(s: State, l: Lit): State
    requires |s.start| >= 1 && s.start[0] <= |s.trail|
  {
    var z := s.start[0];
    s.(trail := s.trail[..z] + [l.v] + s.trail[z..],
       start := seq(|s.start|, k requires 0 <= k < |s.start| => s.start[k] + 1),
       at := (map v | v in s.at :: Shifted(s.at[v], z))[l.v := Entry(l.sign, 0, z)])
  }

  function Shifted(e: Entry, z: nat): Entry {
    if e.pos >= z then e.(pos := e.pos + 1) else e
  }

  lemma InsertedAt(s: State, l: Lit, p: nat)
    requires |s.start| >= 1 && s.start[0] <= |s.trail| && p <= |s.trail|
    ensures |InsertUnit(s, l).trail| == |s.trail| + 1
    ensures InsertUnit(s, l).trail[p] == if p < s.start[0] then s.trail[p] else if p == s.start[0] then l.v else s.trail[p - 1]
  {
  }

  lemma InsertKeepsEntry(s: State, l: Lit, n: nat, u: nat, v: nat)
    requires StartOk(s, u) && TrailOk(s, n, u) && |s.start| >= 1 && l.v < n && l.v !in s.at && v in InsertUnit(s, l).at
    ensures var t := InsertUnit(s, l); v < n && t.at[v].pos < |t.trail| && t.trail[t.at[v].pos] == v && t.at[v].lev < |t.start|
  {
    var z := s.start[0];
    InsertedAt(s, l, if v == l.v then z else Shifted(s.at[v], z).pos);
  }

  lemma InsertKeepsPosition(s: State, l: Lit, n: nat, u: nat, p: nat)
    requires StartOk(s, u) && TrailOk(s, n, u) && |s.start| >= 1 && l.v < n && l.v !in s.at && p < |InsertUnit(s, l).trail|
    ensures var t := InsertUnit(s, l); t.trail[p] in t.at && t.at[t.trail[p]].pos <= p && (u <= p ==> t.at[t.trail[p]].pos == p)
  {
    var z := s.start[0];
    InsertedAt(s, l, p);
    if p != z {
      assert s.trail[if p < z then p else p - 1] in s.at;
    }
  }

  lemma InsertKeepsTrail(s: State, l: Lit, n: nat, u: nat)
    requires StartOk(s, u) && TrailOk(s, n, u) && |s.start| >= 1 && l.v < n && l.v !in s.at
    ensures StartOk(InsertUnit(s, l), u) && TrailOk(InsertUnit(s, l), n, u)
  {
    var t := InsertUnit(s, l);
    InsertedAt(s, l, 0);
    forall v | v in t.at
      ensures v < n && t.at[v].pos < |t.trail| && t.trail[t.at[v].pos] == v && t.at[v].lev < |t.start|
    {
      InsertKeepsEntry(s, l, n, u, v);
    }
    forall p | 0 <= p < |t.trail|
      ensures t.trail[p] in t.at && t.at[t.trail[p]].pos <= p && (u <= p ==> t.at[t.trail[p]].pos == p)
    {
      InsertKeepsPosition(s, l, n, u, p);
    }
  }

  lemma InsertKeepsLevels(s: State, l: Lit, n: nat, u: nat)
    requires StartOk(s, u) && TrailOk(s, n, u) && LevelOk(s) && ForcedOk(s) && |s.start| >= 1 && l.v !in s.at
    ensures LevelOk(InsertUnit(s, l)) && ForcedOk(InsertUnit(s, l))
  {
    var t := InsertUnit(s, l);
    forall v, k | v in t.at && 1 <= k < |t.start|
      ensures t.at[v].pos < t.start[k] <==> t.at[v].lev < k
    {
      assert s.start[0] <= s.start[k] && t.start[k] == s.start[k] + 1;
    }
    forall v | v in t.at && 1 <= t.at[v].lev < |t.start| && t.at[v].pos != t.start[t.at[v].lev]
      ensures v in t.reason
    {
      assert s.at[v].pos >= s.start[s.at[v].lev] >= s.start[0];
    }
  }

  lemma InsertKeepsReasons(s: State, l: Lit)
    requires ReasonOk(s) && l.v !in s.at && |s.start| >= 1 && s.start[0] <= |s.trail|
    ensures ReasonOk(InsertUnit(s, l))
  {
    var t := InsertUnit(s, l);
    forall v | v in t.reason
      ensures v in t.at && Forces(t, v, t.reason[v])
    {
      assert Forces(s, v, s.reason[v]);
      assert TrueLit(t, v) == TrueLit(s, v);
    }
  }

  lemma InsertKeepsSem(s: State, l: Lit, cs: seq<seq<Lit>>)
    requires SemOk(s, cs) && Entails(cs, [l]) && |s.start| >= 1 && s.start[0] <= |s.trail|
    ensures SemOk(InsertUnit(s, l), cs)
  {
    var t := InsertUnit(s, l);
    forall v | v in t.at && t.at[v].lev == 0
      ensures Entails(cs, [TrueLit(t, v)])
    {
      if v != l.v {
        assert TrueLit(t, v) == TrueLit(s, v);
      } else {
        assert TrueLit(t, v) == l;
      }
    }
  }

  lemma InsertKeeps(s: State, l: Lit, cs: seq<seq<Lit>>, n: nat, u: nat)
    requires SearchOk(s, cs, n, u) && |s.start| >= 1 && l.v < n && l.v !in s.at && Entails(cs, [l])
    ensures SearchOk(InsertUnit(s, l), cs, n, u)
  {
    hide SemOk, Entails, ReasonOk, LevelOk, ForcedOk;
    InsertKeepsTrail(s, l, n, u);
    InsertKeepsLevels(s, l, n, u);
    InsertKeepsReasons(s, l);
    InsertKeepsSem(s, l, cs);
  }

  lemma InsertKeepsWatch(s: State, l: Lit, lists: Lists, db: Db, cs: seq<seq<Lit>>, n: nat)
    requires WatchOk(s, lists, db, cs, n) && l.v !in s.at && |s.start| >= 1 && s.start[0] <= |s.trail|
    ensures WatchOk(InsertUnit(s, l), lists, db, cs, n)
  {
    hide ListsOk, DbOk;
  }

  // ---------------------------------------------------------------- a learnt clause

  function LearntClause(ls: seq<Lit>): Clause
    requires |ls| >= 1
  {
    Clause(ls, ls[0], ls[|ls| - 1], false, 0)
  }

  // A clause watched at a literal of level L and at an unassigned one is guarded below L.
  lemma AddKeepsPropagated(s: State, db: Db, id: nat, c: Clause, L: int)
    requires PropagatedBelow(s, db, L) && id !in db
    requires False(s, c.watch0) ==> s.at[c.watch0.v].lev >= L
    requires c.watch1.v !in s.at
    ensures PropagatedBelow(s, db[id := c], L)
  {
  }

  lemma PropagatedLess(s: State, db: Db, L: int, M: int)
    requires PropagatedBelow(s, db, L) && M <= L
    ensures PropagatedBelow(s, db, M)
  {
  }

  // The learnt clause id makes its last literal true.
  lemma EnforceKeeps(s: State, lists: Lists, db: Db, cs: seq<seq<Lit>>, n: nat, u: nat, l: Lit, c: nat)
    requires SearchOk(s, cs, n, u) && WatchOk(s, lists, db, cs, n) && c in db && Unit(s, l, db[c].literals)
    requires db[c].watch0 == l || db[c].watch1 == l
    requires PropagatedBelow(s, db, Current(s))
    ensures |s.start| >= 1
    ensures var t, d := Assign(s, l, db[c].literals), Relabel(db, c, true, db[c].activity);
      SearchOk(t, cs, n, u) && WatchOk(t, lists, d, cs, n) && PropagatedBelow(t, d, Current(t))
  {
    hide ListsOk, DbOk, FlagOk, PropagatedBelow, Entails, NoComplement, TrailOk, LevelOk, ForcedOk, ReasonOk, SemOk;
    ClauseFacts(db, cs, n, c);
    var r := db[c].literals;
    var t := Assign(s, l, r);
    AssignKeeps(s, l, r, cs, n, u);
    AssignKeepsWatches(s, l, r, db, Current(s));
    RelabelKeeps(t, lists, db, cs, n, c, true, db[c].activity);
    RelabelKeepsPropagated(t, db, c, true, db[c].activity, Current(t), 0, {});
  }

  lemma NothingBelowZero(s: State, db: Db)
    ensures PropagatedBelow(s, db, 0)
  {
  }
}
