// Setting up a problem: new variables and basic clauses, before the search starts.
module SatSetup {
  import opened SatTypes
  import opened SatState
  import opened SatWatch
  import opened SatInsert
  import opened SatBooks

  lemma EntailsMore(cs: seq<seq<Lit>>, c: seq<Lit>, ls: seq<Lit>)
    requires Entails(cs, ls)
    ensures Entails(cs + [c], ls)
  {
    forall m: set<nat> | Models(m, cs + [c])
      ensures HoldsSome(m, ls)
    {
      assert forall e :: e in cs ==> e in cs + [c];
      assert Models(m, cs);
    }
  }

  lemma EntailsItself(cs: seq<seq<Lit>>, c: seq<Lit>)
    ensures Entails(cs + [c], c)
  {
    assert c in cs + [c];
  }

  lemma MoreClausesSearch(s: State, cs: seq<seq<Lit>>, c: seq<Lit>, n: nat, u: nat)
    requires SearchOk(s, cs, n, u)
    ensures SearchOk(s, cs + [c], n, u)
  {
    hide StartOk, TrailOk, LevelOk, ReasonOk, ForcedOk, Entails;
    forall v | v in s.reason
      ensures Entails(cs + [c], s.reason[v])
    {
      EntailsMore(cs, c, s.reason[v]);
    }
    forall v | v in s.at && s.at[v].lev == 0
      ensures Entails(cs + [c], [TrueLit(s, v)])
    {
      EntailsMore(cs, c, [TrueLit(s, v)]);
    }
  }

  lemma MoreClausesWatch(s: State, lists: Lists, db: Db, cs: seq<seq<Lit>>, c: seq<Lit>, n: nat)
    requires WatchOk(s, lists, db, cs, n)
    ensures WatchOk(s, lists, db, cs + [c], n)
  {
    hide ListsOk, FlagOk, Entails, NoComplement, InRange;
    forall d | d in db
      ensures ClauseOk(db[d], cs + [c], n)
    {
      EntailsMore(cs, c, db[d].literals);
    }
  }

  lemma MoreVariablesWatch(s: State, lists: Lists, db: Db, cs: seq<seq<Lit>>, n: nat)
    requires WatchOk(s, lists, db, cs, n)
    ensures WatchOk(s, lists[n := []], db, cs, n + 1)
  {
    hide Entails, NoComplement, FlagOk;
    var t := lists[n := []];
    forall v | v in t
      ensures ListOk(t[v], v, db)
    {
      if v != n {
        assert ListOk(lists[v], v, db);
      }
    }
    assert Registered(t, db);
    assert DbOk(db, cs, n + 1);
  }

  lemma MoreVariablesSearch(s: State, cs: seq<seq<Lit>>, n: nat, u: nat)
    requires SearchOk(s, cs, n, u)
    ensures SearchOk(s, cs, n + 1, u)
  {
    hide StartOk, LevelOk, ReasonOk, ForcedOk, SemOk;
  }

  // ---------------------------------------------------------------- watched basic clauses

  lemma BooksBasic(s: State, db: Db, b: Books, cs: seq<seq<Lit>>, c: Clause)
    requires BooksOk(s, db, b, cs) && |c.literals| >= 2
    ensures BooksOk(s, db[b.next := c], b.(next := b.next + 1, ids := b.ids + [b.next]), cs + [c.literals])
  {
    var e := b.(next := b.next + 1, ids := b.ids + [b.next]);
    var d := cs + [c.literals];
    forall i | 0 <= i < |d|
      ensures BasicOk(s, db[b.next := c], e, d[i], e.ids[i])
    {
      if i < |cs| {
        assert BasicOk(s, db, b, cs[i], b.ids[i]);
      }
    }
  }

  lemma EmptyClause(cs: seq<seq<Lit>>, c: seq<Lit>)
    requires c == []
    ensures !Satisfiable(cs + [c])
  {
    forall m: set<nat>
      ensures !Models(m, cs + [c])
    {
      assert c in cs + [c] && !HoldsSome(m, c);
    }
  }

  // A basic clause with two literals or more is watched on the first two.
  function BasicClause(c: seq<Lit>): Clause
    requires |c| >= 2
  {
    Clause(c, c[0], c[1], false, 0)
  }

  lemma AddBasicKeeps(s: State, lists: Lists, db: Db, b: Books, cs: seq<seq<Lit>>, n: nat, u: nat, c: seq<Lit>)
    requires SearchOk(s, cs, n, u) && WatchOk(s, lists, db, cs, n) && BooksOk(s, db, b, cs)
    requires |c| >= 2 && NoComplement(c) && InRange(c, n)
    ensures SearchOk(s, cs + [c], n, u) && c[0].v in lists && c[1].v in lists
    ensures WatchOk(s, PushWatchers(lists, b.next, c[0].v, c[1].v), db[b.next := BasicClause(c)], cs + [c], n)
    ensures BooksOk(s, db[b.next := BasicClause(c)], b.(next := b.next + 1, ids := b.ids + [b.next]), cs + [c])
  {
    hide SearchOk, WatchOk, NoComplement, BasicOk, Entails;
    EntailsItself(cs, c);
    MoreClausesSearch(s, cs, c, n, u);
    MoreClausesWatch(s, lists, db, cs, c, n);
    BooksBasic(s, db, b, cs, BasicClause(c));
    AddKeeps(s, lists, db, cs + [c], n, b.next, BasicClause(c));
  }

  // ---------------------------------------------------------------- unit basic clauses

  // Literal l is assigned at level 0, and its variable appended to the trail once more.
  ghost function AddUnit(s: State, l: Lit): State {
    s.(trail := s.trail + [l.v], start := [|s.trail| + 1],
       at := s.at[l.v := Entry(l.sign, 0, if l.v in s.at then s.at[l.v].pos else |s.trail|)])
  }

  // Before the search all entries of the trail come from unit clauses.
  ghost predicate Initial(s: State) {
    s.start == [|s.trail|] && s.reason == map[]
  }

  lemma AddUnitKeeps(s: State, l: Lit, cs: seq<seq<Lit>>, n: nat)
    requires SearchOk(s, cs, n, |s.trail|) && Initial(s) && l.v < n && !False(s, l)
    ensures SearchOk(AddUnit(s, l), cs + [[l]], n, |s.trail| + 1) && Initial(AddUnit(s, l))
  {
    var t := AddUnit(s, l);
    hide Entails;
    assert TrailOk(t, n, |s.trail| + 1);
    forall v | v in t.at && t.at[v].lev == 0
      ensures Entails(cs + [[l]], [TrueLit(t, v)])
    {
      if v == l.v {
        assert TrueLit(t, v) == l;
        EntailsItself(cs, [l]);
      } else {
        assert TrueLit(t, v) == TrueLit(s, v);
        EntailsMore(cs, [l], [TrueLit(s, v)]);
      }
    }
  }

  lemma AddUnitKeepsFlags(s: State, l: Lit, lists: Lists, db: Db, cs: seq<seq<Lit>>, n: nat)
    requires WatchOk(s, lists, db, cs, n) && !False(s, l)
    ensures WatchOk(AddUnit(s, l), lists, db, cs + [[l]], n)
  {
    MoreClausesWatch(s, lists, db, cs, [l], n);
    hide ListsOk, DbOk;
  }

  lemma AddUnitKeepsBooks(s: State, l: Lit, db: Db, b: Books, cs: seq<seq<Lit>>)
    requires BooksOk(s, db, b, cs) && !False(s, l)
    ensures BooksOk(AddUnit(s, l), db, b.(locked := b.locked + {l.v}, ids := b.ids + [0]), cs + [[l]])
  {
    var e := b.(locked := b.locked + {l.v}, ids := b.ids + [0]);
    var d := cs + [[l]];
    forall i | 0 <= i < |d|
      ensures BasicOk(AddUnit(s, l), db, e, d[i], e.ids[i])
    {
      if i < |cs| {
        assert BasicOk(s, db, b, cs[i], b.ids[i]);
      }
    }
  }

  // Before the search, what is assigned comes from unit clauses.
  ghost predicate FromUnits(s: State, cs: seq<seq<Lit>>) {
    forall v :: v in s.at ==> [TrueLit(s, v)] in cs
  }

  // The clauses that are refused after cs: the empty one, and a unit clause against a unit clause.
  predicate Refusable(cs: seq<seq<Lit>>, c: seq<Lit>) {
    c == [] || (|c| == 1 && [Negated(c[0])] in cs)
  }

  lemma MoreUnits(s: State, cs: seq<seq<Lit>>, c: seq<Lit>)
    requires FromUnits(s, cs)
    ensures FromUnits(s, cs + [c])
  {
  }

  lemma AddUnitFromUnits(s: State, l: Lit, cs: seq<seq<Lit>>)
    requires FromUnits(s, cs)
    ensures FromUnits(AddUnit(s, l), cs + [[l]])
  {
    forall v | v in AddUnit(s, l).at ensures [TrueLit(AddUnit(s, l), v)] in cs + [[l]] {
      if v != l.v {
        assert TrueLit(AddUnit(s, l), v) == TrueLit(s, v);
      }
    }
  }

  lemma FalseByUnit(s: State, l: Lit, db: Db, b: Books, cs: seq<seq<Lit>>)
    requires FromUnits(s, cs) && BooksOk(s, db, b, cs)
    ensures False(s, l) <==> [Negated(l)] in cs
  {
    if False(s, l) {
      assert TrueLit(s, l.v) == Negated(l);
    }
    if [Negated(l)] in cs {
      var i :| 0 <= i < |cs| && cs[i] == [Negated(l)];
      assert BasicOk(s, db, b, cs[i], b.ids[i]);
    }
  }

  // A unit clause refuted at level 0 contradicts the other clauses.
  lemma RefusedUnit(s: State, l: Lit, cs: seq<seq<Lit>>)
    requires SemOk(s, cs) && False(s, l) && s.at[l.v].lev == 0
    ensures !Satisfiable(cs + [[l]])
  {
    hide SemOk;
    if m: set<nat> :| Models(m, cs + [[l]]) {
      assert [l] in cs + [[l]] && HoldsSome(m, [l]);
      assert forall e :: e in cs ==> e in cs + [[l]];
      assert Models(m, cs);
      RefutedAtZero(s, l, cs, m);
    }
  }
}
