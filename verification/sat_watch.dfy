// The watch structure: the invariants of watchers and watch lists, and what a scan keeps.
module SatWatch {
  import opened SatTypes
  import opened SatState

  type Lists = map<nat, seq<Watcher>>

  ghost predicate NoRepeat(s: seq<Watcher>) {
    forall i, j :: 0 <= i < j < |s| ==> s[i] != s[j]
  }

  // The literal a watcher watches, and the one its partner watches.
  function Watched(c: Clause, first: bool): Lit {
    if first then c.watch0 else c.watch1
  }

  function Partner(c: Clause, first: bool): Lit {
    if first then c.watch1 else c.watch0
  }

  function Moved(c: Clause, first: bool, l: Lit): Clause {
    if first then c.(watch0 := l) else c.(watch1 := l)
  }

  // Every watcher is in the list of the variable it watches,
  ghost predicate Registered(lists: Lists, db: Db) {
    forall c {:trigger c in db} :: c in db ==>
      && db[c].watch0.v in lists && Watcher(c, true) in lists[db[c].watch0.v]
      && db[c].watch1.v in lists && Watcher(c, false) in lists[db[c].watch1.v]
  }

  // and a list holds nothing else.
  ghost predicate ListOk(ws: seq<Watcher>, v: nat, db: Db) {
    && NoRepeat(ws)
    && (forall w :: w in ws ==> w.clause in db && Watched(db[w.clause], w.first).v == v)
  }

  ghost predicate ListsOk(lists: Lists, db: Db, n: nat) {
    && (forall v: nat :: v in lists <==> v < n)
    && Registered(lists, db)
    && (forall v {:trigger v in lists} :: v in lists ==> ListOk(lists[v], v, db))
  }

  ghost predicate WatchOk(s: State, lists: Lists, db: Db, cs: seq<seq<Lit>>, n: nat) {
    && ListsOk(lists, db, n)
    && DbOk(db, cs, n)
    && FlagOk(s, db)
  }

  // ---------------------------------------------------------------- moving a watcher

  // The list s without the watcher w, in the same order.
  function Without(s: seq<Watcher>, w: Watcher): seq<Watcher> {
    if s == [] then []
    else Without(s[..|s| - 1], w) + (if s[|s| - 1] == w then [] else [s[|s| - 1]])
  }

  lemma {:induction false} WithoutMembers(s: seq<Watcher>, w: Watcher)
    ensures forall x :: x in Without(s, w) ==> x in s && x != w
    ensures forall x :: x in s && x != w ==> x in Without(s, w)
    ensures NoRepeat(s) ==> NoRepeat(Without(s, w))
  {
    if s != [] {
      var t := s[..|s| - 1];
      WithoutMembers(t, w);
      assert s == t + [s[|s| - 1]];
      assert NoRepeat(s) ==> s[|s| - 1] !in t;
    }
  }

  // Watcher w of clause c, on a false literal of an unsatisfied clause, may move to literal l.
  ghost predicate Movable(s: State, db: Db, w: Watcher, l: Lit) {
    && w.clause in db && !db[w.clause].satisfied
    && l in db[w.clause].literals && !False(s, l)
    && False(s, Watched(db[w.clause], w.first)) && !True(s, Partner(db[w.clause], w.first))
    && l.v != Watched(db[w.clause], w.first).v
  }

  ghost function MoveDb(db: Db, w: Watcher, l: Lit): Db
    requires w.clause in db
  {
    db[w.clause := Moved(db[w.clause], w.first, l)]
  }

  ghost function MoveLists(lists: Lists, w: Watcher, a: nat, b: nat): Lists
    requires a in lists && b in lists
  {
    lists[a := Without(lists[a], w)][b := lists[b] + [w]]
  }

  lemma MoveKeepsRegistered(lists: Lists, db: Db, w: Watcher, l: Lit)
    requires w.clause in db && Registered(lists, db) && l.v in lists && Watched(db[w.clause], w.first).v in lists
    requires l.v != Watched(db[w.clause], w.first).v
    ensures Registered(MoveLists(lists, w, Watched(db[w.clause], w.first).v, l.v), MoveDb(db, w, l))
  {
    WithoutMembers(lists[Watched(db[w.clause], w.first).v], w);
  }

  lemma MoveKeepsList(lists: Lists, db: Db, w: Watcher, l: Lit, v: nat)
    requires w.clause in db && l.v in lists && Watched(db[w.clause], w.first).v in lists && v in lists
    requires l.v != Watched(db[w.clause], w.first).v && ListOk(lists[v], v, db)
    ensures ListOk(MoveLists(lists, w, Watched(db[w.clause], w.first).v, l.v)[v], v, MoveDb(db, w, l))
  {
    var a := Watched(db[w.clause], w.first).v;
    var t := MoveLists(lists, w, a, l.v);
    if v == a {
      WithoutMembers(lists[v], w);
      assert t[v] == Without(lists[v], w);
    } else if v == l.v {
      assert t[v] == lists[v] + [w];
    }
  }

  lemma MoveKeepsLists(lists: Lists, db: Db, n: nat, w: Watcher, l: Lit)
    requires ListsOk(lists, db, n) && w.clause in db && l.v < n && l.v != Watched(db[w.clause], w.first).v
    requires Watched(db[w.clause], w.first).v < n
    ensures ListsOk(MoveLists(lists, w, Watched(db[w.clause], w.first).v, l.v), MoveDb(db, w, l), n)
  {
    hide ListOk, Registered, MoveDb;
    MoveKeepsRegistered(lists, db, w, l);
    forall v | v in lists
      ensures ListOk(MoveLists(lists, w, Watched(db[w.clause], w.first).v, l.v)[v], v, MoveDb(db, w, l))
    {
      MoveKeepsList(lists, db, w, l, v);
    }
  }

  lemma MoveKeepsFlags(s: State, db: Db, cs: seq<seq<Lit>>, n: nat, w: Watcher, l: Lit)
    requires DbOk(db, cs, n) && FlagOk(s, db) && Movable(s, db, w, l)
    ensures DbOk(MoveDb(db, w, l), cs, n) && FlagOk(s, MoveDb(db, w, l))
  {
    hide Entails, NoComplement, InRange;
  }

  lemma MoveKeepsPropagated(s: State, db: Db, w: Watcher, l: Lit)
    requires Movable(s, db, w, l) && PropagatedBelow(s, db, Current(s))
    requires s.at[Watched(db[w.clause], w.first).v].lev >= Current(s)
    ensures PropagatedBelow(s, MoveDb(db, w, l), Current(s))
  {
  }

  lemma MoveKeeps(s: State, lists: Lists, db: Db, cs: seq<seq<Lit>>, n: nat, w: Watcher, l: Lit)
    requires WatchOk(s, lists, db, cs, n) && Movable(s, db, w, l) && l.v < n
    requires Watched(db[w.clause], w.first).v < n
    ensures WatchOk(s, MoveLists(lists, w, Watched(db[w.clause], w.first).v, l.v), MoveDb(db, w, l), cs, n)
  {
    hide ListsOk, DbOk, FlagOk;
    MoveKeepsLists(lists, db, n, w, l);
    MoveKeepsFlags(s, db, cs, n, w, l);
  }

  // ---------------------------------------------------------------- flags and activities

  ghost function Relabel(db: Db, c: nat, satisfied: bool, activity: nat): Db
    requires c in db
  {
    db[c := db[c].(satisfied := satisfied, activity := activity)]
  }

  lemma RelabelKeepsLists(lists: Lists, db: Db, n: nat, c: nat, satisfied: bool, activity: nat)
    requires ListsOk(lists, db, n) && c in db
    ensures ListsOk(lists, Relabel(db, c, satisfied, activity), n)
  {
    var d := Relabel(db, c, satisfied, activity);
    assert Registered(lists, d);
    forall v | v in lists
      ensures ListOk(lists[v], v, d)
    {
      assert ListOk(lists[v], v, db);
    }
  }

  lemma RelabelKeepsClauses(s: State, db: Db, cs: seq<seq<Lit>>, n: nat, c: nat, satisfied: bool, activity: nat)
    requires DbOk(db, cs, n) && FlagOk(s, db) && c in db
    requires satisfied ==> db[c].satisfied || True(s, db[c].watch0) || True(s, db[c].watch1)
    ensures DbOk(Relabel(db, c, satisfied, activity), cs, n)
    ensures FlagOk(s, Relabel(db, c, satisfied, activity))
  {
    hide Entails, NoComplement, InRange;
  }

  lemma RelabelKeeps(s: State, lists: Lists, db: Db, cs: seq<seq<Lit>>, n: nat, c: nat, satisfied: bool, activity: nat)
    requires WatchOk(s, lists, db, cs, n) && c in db
    requires satisfied ==> db[c].satisfied || True(s, db[c].watch0) || True(s, db[c].watch1)
    ensures WatchOk(s, lists, Relabel(db, c, satisfied, activity), cs, n)
  {
    hide ListsOk, DbOk, FlagOk;
    RelabelKeepsLists(lists, db, n, c, satisfied, activity);
    RelabelKeepsClauses(s, db, cs, n, c, satisfied, activity);
  }

  // Propagation does not depend on flags and activities.
  lemma RelabelKeepsPropagated(s: State, db: Db, c: nat, satisfied: bool, activity: nat, L: int, i: int, pend: set<Watcher>)
    requires c in db
    ensures PropagatedBelow(s, db, L) ==> PropagatedBelow(s, Relabel(db, c, satisfied, activity), L)
    ensures Scanned(s, db, i, pend) ==> Scanned(s, Relabel(db, c, satisfied, activity), i, pend)
  {
  }

  // ---------------------------------------------------------------- scanning

  // Literal a is false while its partner b is not true: propagation still has to look at it.
  ghost predicate Open(s: State, a: Lit, b: Lit) {
    False(s, a) && !True(s, b)
  }

  ghost predicate ScannedTo(s: State, db: Db, i: int) {
    forall c {:trigger c in db} :: c in db ==>
      && (Open(s, db[c].watch0, db[c].watch1) ==> s.at[db[c].watch0.v].pos >= i)
      && (Open(s, db[c].watch1, db[c].watch0) ==> s.at[db[c].watch1.v].pos >= i)
  }

  ghost predicate Pending(s: State, w: Watcher, a: Lit, b: Lit, i: int, pend: set<Watcher>) {
    Open(s, a, b) ==> s.at[a.v].pos >= i && (s.at[a.v].pos == i ==> w in pend)
  }

  // Entries before i are propagated, and entry i is except for the watchers in pend.
  ghost predicate Scanned(s: State, db: Db, i: int, pend: set<Watcher>) {
    forall c {:trigger c in db} :: c in db ==>
      && Pending(s, Watcher(c, true), db[c].watch0, db[c].watch1, i, pend)
      && Pending(s, Watcher(c, false), db[c].watch1, db[c].watch0, i, pend)
  }

  // A watcher needs no work if its clause is flagged, its literal is not false or its partner true.
  ghost predicate Settled(s: State, db: Db, w: Watcher) {
    && w.clause in db
    && (db[w.clause].satisfied || !False(s, Watched(db[w.clause], w.first)) || True(s, Partner(db[w.clause], w.first)))
  }

  lemma ScanBegins(s: State, db: Db)
    requires PropagatedBelow(s, db, Current(s)) && LevelOk(s) && |s.start| >= 1
    ensures ScannedTo(s, db, if |s.start| == 1 then 0 else s.start[|s.start| - 1])
  {
  }

  lemma ScanEntry(s: State, lists: Lists, db: Db, n: nat, u: nat, i: nat, pend: set<Watcher>)
    requires ScannedTo(s, db, i) && Registered(lists, db) && TrailOk(s, n, u)
    requires i < |s.trail| && s.trail[i] in lists
    requires forall w :: w in lists[s.trail[i]] ==> w in pend
    ensures Scanned(s, db, i, pend)
  {
  }

  lemma ScanSettled(s: State, db: Db, i: nat, pend: set<Watcher>, w: Watcher)
    requires Scanned(s, db, i, pend) && FlagOk(s, db) && Settled(s, db, w)
    ensures Scanned(s, db, i, pend - {w})
  {
  }

  lemma ScanDone(s: State, db: Db, i: nat)
    requires Scanned(s, db, i, {})
    ensures ScannedTo(s, db, i + 1)
  {
  }

  // Once the whole trail is scanned, the current level is propagated too.
  lemma ScanEnds(s: State, db: Db, n: nat, u: nat)
    requires ScannedTo(s, db, |s.trail|) && PropagatedBelow(s, db, Current(s)) && TrailOk(s, n, u)
    ensures PropagatedBelow(s, db, |s.start|)
  {
  }

  lemma ScanAssign(s: State, l: Lit, r: seq<Lit>, db: Db, i: nat, pend: set<Watcher>)
    requires Scanned(s, db, i, pend) && |s.start| >= 1 && l.v !in s.at && i < |s.trail|
    ensures Scanned(Assign(s, l, r), db, i, pend)
  {
  }

  lemma ScanMove(s: State, db: Db, w: Watcher, l: Lit, i: nat, pend: set<Watcher>)
    requires Scanned(s, db, i, pend) && Movable(s, db, w, l)
    ensures Scanned(s, MoveDb(db, w, l), i, pend)
  {
  }

  // ---------------------------------------------------------------- conflicts

  ghost predicate AllFalse(s: State, ls: seq<Lit>) {
    forall l :: l in ls ==> False(s, l)
  }

  // The clause is false, with a literal at the current level.
  ghost predicate Conflict(s: State, ls: seq<Lit>) {
    && AllFalse(s, ls)
    && exists l :: l in ls && l.v in s.at && s.at[l.v].lev >= Current(s)
  }

  // With no literal to move to, a clause whose partner literal is not true is unit or false.
  lemma NoReplacement(s: State, ls: seq<Lit>, b: Lit)
    requires NoComplement(ls) && b in ls && !True(s, b)
    requires forall l :: l in ls && l.v != b.v ==> False(s, l)
    ensures b.v !in s.at ==> Unit(s, b, ls)
    ensures b.v in s.at ==> AllFalse(s, ls)
  {
  }

  lemma ClauseFacts(db: Db, cs: seq<seq<Lit>>, n: nat, c: nat)
    requires DbOk(db, cs, n) && c in db
    ensures NoComplement(db[c].literals) && (forall l :: l in db[c].literals ==> l.v < n) && Entails(cs, db[c].literals)
    ensures db[c].watch0 in db[c].literals && db[c].watch1 in db[c].literals
  {
  }

  // A unit propagation keeps every invariant, also in the middle of a scan.
  lemma ImplyKeeps(s: State, lists: Lists, db: Db, cs: seq<seq<Lit>>, n: nat, u: nat, l: Lit, c: nat, i: nat, pend: set<Watcher>)
    requires SearchOk(s, cs, n, u) && WatchOk(s, lists, db, cs, n) && c in db && Unit(s, l, db[c].literals)
    requires db[c].watch0 == l || db[c].watch1 == l
    requires PropagatedBelow(s, db, Current(s)) && Scanned(s, db, i, pend) && i < |s.trail|
    ensures |s.start| >= 1
    ensures var t, d := Assign(s, l, db[c].literals), Relabel(db, c, true, db[c].activity);
      SearchOk(t, cs, n, u) && WatchOk(t, lists, d, cs, n) && PropagatedBelow(t, d, Current(t)) && Scanned(t, d, i, pend)
  {
    hide ListsOk, DbOk, FlagOk, PropagatedBelow, Scanned, Entails, NoComplement, TrailOk, LevelOk, ForcedOk, ReasonOk, SemOk;
    ClauseFacts(db, cs, n, c);
    var r := db[c].literals;
    var t := Assign(s, l, r);
    AssignKeeps(s, l, r, cs, n, u);
    AssignKeepsWatches(s, l, r, db, Current(s));
    ScanAssign(s, l, r, db, i, pend);
    RelabelKeeps(t, lists, db, cs, n, c, true, db[c].activity);
    RelabelKeepsPropagated(t, db, c, true, db[c].activity, Current(t), i, pend);
  }

  // Moving a watch keeps every invariant, and settles the watcher.
  lemma MoveSettles(s: State, lists: Lists, db: Db, cs: seq<seq<Lit>>, n: nat, w: Watcher, l: Lit, i: nat, pend: set<Watcher>)
    requires WatchOk(s, lists, db, cs, n) && Movable(s, db, w, l)
    requires s.at[Watched(db[w.clause], w.first).v].lev >= Current(s)
    requires PropagatedBelow(s, db, Current(s)) && Scanned(s, db, i, pend)
    ensures l.v in lists && Watched(db[w.clause], w.first).v in lists
    ensures var d := MoveDb(db, w, l);
      WatchOk(s, MoveLists(lists, w, Watched(db[w.clause], w.first).v, l.v), d, cs, n) && PropagatedBelow(s, d, Current(s)) && Scanned(s, d, i, pend - {w})
  {
    hide Registered, ListOk, FlagOk, PropagatedBelow, Scanned, Entails, NoComplement, DbOk;
    ClauseFacts(db, cs, n, w.clause);
    MoveKeeps(s, lists, db, cs, n, w, l);
    MoveKeepsPropagated(s, db, w, l);
    ScanMove(s, db, w, l, i, pend);
    ScanSettled(s, MoveDb(db, w, l), i, pend, w);
  }

  // Apart from flags and activities, only the literal of watcher w may differ.
  ghost predicate SameBut(a: Db, b: Db, w: Watcher) {
    && a.Keys == b.Keys
    && (forall c {:trigger c in a} :: c in a ==>
          && a[c].literals == b[c].literals
          && (w != Watcher(c, true) ==> a[c].watch0 == b[c].watch0)
          && (w != Watcher(c, false) ==> a[c].watch1 == b[c].watch1))
  }

  ghost predicate Extends(s: State, t: State) {
    && s.trail <= t.trail
    && s.start == t.start
    && (forall v :: v in s.at ==> v in t.at && t.at[v] == s.at[v])
  }

  // A false watcher being visited watches an entry of the current level.
  ghost predicate Visitable(s: State, db: Db, w: Watcher) {
    && w.clause in db
    && (False(s, Watched(db[w.clause], w.first)) ==> s.at[Watched(db[w.clause], w.first).v].lev >= Current(s))
  }

  lemma UnitOrFalse(s: State, lists: Lists, db: Db, cs: seq<seq<Lit>>, n: nat, w: Watcher)
    requires WatchOk(s, lists, db, cs, n) && w.clause in db && !True(s, Partner(db[w.clause], w.first))
    requires forall k :: k in db[w.clause].literals && k.v != Partner(db[w.clause], w.first).v ==> False(s, k)
    requires False(s, Watched(db[w.clause], w.first)) && Visitable(s, db, w)
    ensures var b := Partner(db[w.clause], w.first);
      if b.v in s.at then Conflict(s, db[w.clause].literals) else Unit(s, b, db[w.clause].literals)
  {
    hide ListsOk, DbOk, FlagOk, Entails, NoComplement;
    ClauseFacts(db, cs, n, w.clause);
    NoReplacement(s, db[w.clause].literals, Partner(db[w.clause], w.first));
  }

  // The literal found by the search for a new watch is one the watcher may move to.
  lemma NewWatch(s: State, lists: Lists, db: Db, cs: seq<seq<Lit>>, n: nat, w: Watcher, l: Lit)
    requires WatchOk(s, lists, db, cs, n) && w.clause in db && !db[w.clause].satisfied
    requires False(s, Watched(db[w.clause], w.first)) && !True(s, Partner(db[w.clause], w.first))
    requires l in db[w.clause].literals && !False(s, l)
    ensures Movable(s, db, w, l)
  {
    hide ListsOk, DbOk, FlagOk, Entails;
    ClauseFacts(db, cs, n, w.clause);
  }

  lemma RelabelSame(db: Db, c: nat, satisfied: bool, activity: nat, w: Watcher)
    requires c in db
    ensures SameBut(db, Relabel(db, c, satisfied, activity), w)
  {
  }

  lemma MoveSame(db: Db, w: Watcher, l: Lit)
    requires w.clause in db
    ensures SameBut(db, MoveDb(db, w, l), w) && Watched(MoveDb(db, w, l)[w.clause], w.first) == l
  {
  }

  lemma SameButTransitive(a: Db, b: Db, c: Db, w: Watcher)
    requires SameBut(a, b, w) && SameBut(b, c, w)
    ensures SameBut(a, c, w)
  {
  }

  lemma AssignExtends(s: State, l: Lit, r: seq<Lit>)
    requires |s.start| >= 1 && l.v !in s.at
    ensures Extends(s, Assign(s, l, r)) && True(Assign(s, l, r), l)
  {
  }

  lemma ExtendsSelf(s: State)
    ensures Extends(s, s)
  {
  }

  // ---------------------------------------------------------------- complementary literals

  // A valuation that agrees with what is assigned.
  ghost predicate Extending(m: set<nat>, s: State) {
    forall v :: v in s.at ==> (v in m) == s.at[v].sign
  }

  // The unit rule looks for replacements on other variables than that of l. What it implies
  // follows from the clause exactly when the complement of l is not in it.
  lemma UnitRuleExactly(s: State, ls: seq<Lit>, l: Lit)
    requires l in ls && l.v !in s.at && forall k :: k in ls && k.v != l.v ==> False(s, k)
    ensures (forall m: set<nat> :: Extending(m, s) && HoldsSome(m, ls) ==> Holds(m, l)) <==> Negated(l) !in ls
  {
    if Negated(l) in ls {
      var m := (set v | v in s.at && s.at[v].sign) + if l.sign then {} else {l.v};
      assert Extending(m, s) && Holds(m, Negated(l)) && !Holds(m, l);
      assert HoldsSome(m, ls);
    } else {
      forall m: set<nat> | Extending(m, s) && HoldsSome(m, ls) ensures Holds(m, l) {
        var k :| k in ls && Holds(m, k);
        assert k.v != l.v ==> False(s, k);
        assert k.v == l.v && k != l ==> k == Negated(l);
      }
    }
  }

  // Where it is there, a satisfiable problem can become unsatisfiable: with y false the rule
  // implies x from (x or y or not x).
  lemma ComplementMisleads(s: State, x: Lit, y: Lit, z: Lit, cs: seq<seq<Lit>>)
    requires s == State([1], [1], map[1 := Entry(false, 0, 0)], map[])
    requires x == Lit(0, true) && y == Lit(1, true) && z == Lit(2, true)
    requires cs == [[x, y, Negated(x)], [Negated(y)], [Negated(x), z], [Negated(x), Negated(z)]]
    ensures x.v !in s.at && forall k :: k in cs[0] && k.v != x.v ==> False(s, k)
    ensures Satisfiable(cs) && !Satisfiable(cs + [[x]])
  {
    var none: set<nat> := {};
    assert Negated(x) in cs[0] && Negated(y) in cs[1] && Negated(x) in cs[2] && Negated(x) in cs[3];
    assert Models(none, cs);
    forall m: set<nat> ensures !Models(m, cs + [[x]]) {
      assert [x] in cs + [[x]] && cs[2] in cs + [[x]] && cs[3] in cs + [[x]];
      assert HoldsSome(m, [x]) ==> Holds(m, x);
      assert Holds(m, x) && HoldsSome(m, cs[2]) ==> Holds(m, z);
      assert Holds(m, x) && HoldsSome(m, cs[3]) ==> !Holds(m, z);
    }
  }

  // The same clauses, with the same literals.
  ghost predicate SameClauses(a: Db, b: Db) {
    && a.Keys == b.Keys
    && (forall c {:trigger c in a} :: c in a ==> a[c].literals == b[c].literals)
  }

  ghost predicate WatcherOn(db: Db, w: Watcher, v: nat) {
    w.clause in db && Watched(db[w.clause], w.first).v == v
  }

  // Position j of the scan of v's list: the watchers still to be visited watch v, except that the
  // next one may have moved away just now.
  ghost predicate Rest(s: State, db: Db, list: seq<Watcher>, j: nat, v: nat, pend: set<Watcher>) {
    && j <= |list| && NoRepeat(list)
    && v in s.at && s.at[v].lev >= Current(s)
    && (forall w :: w in pend ==> w in list[j..])
    && (forall k :: j < k < |list| ==> WatcherOn(db, list[k], v))
    && (j < |list| ==> list[j].clause in db && (WatcherOn(db, list[j], v) || !FalseWatcher(s, db, list[j])))
  }

  ghost predicate FalseWatcher(s: State, db: Db, w: Watcher) {
    w.clause in db && False(s, Watched(db[w.clause], w.first))
  }

  lemma RestStarts(s: State, db: Db, list: seq<Watcher>, v: nat)
    requires ListOk(list, v, db) && v in s.at && s.at[v].lev >= Current(s)
    ensures Rest(s, db, list, 0, v, set w | w in list)
  {
  }

  lemma RestVisitable(s: State, db: Db, list: seq<Watcher>, j: nat, v: nat, pend: set<Watcher>)
    requires Rest(s, db, list, j, v, pend) && j < |list|
    ensures Visitable(s, db, list[j])
  {
  }

  lemma RestVisited(s: State, db: Db, t: State, d: Db, list: seq<Watcher>, j: nat, v: nat, pend: set<Watcher>)
    requires Rest(s, db, list, j, v, pend) && j < |list| && SameBut(db, d, list[j]) && Extends(s, t)
    ensures !FalseWatcher(t, d, list[j]) ==> Rest(t, d, list, j, v, pend - {list[j]})
    ensures Rest(t, d, list, j + 1, v, pend - {list[j]})
  {
    forall k | j < k < |list|
      ensures WatcherOn(d, list[k], v)
    {
      assert WatcherOn(db, list[k], v);
      assert list[k] != list[j];
      assert list[k] == Watcher(list[k].clause, list[k].first);
    }
  }

  lemma SameSelf(s: State, db: Db)
    ensures Extends(s, s) && SameClauses(db, db)
  {
  }

  lemma SameVisited(s: State, a: Db, t: State, b: Db, r: State, c: Db, w: Watcher)
    requires Extends(s, t) && Extends(t, r) && SameClauses(a, b) && SameBut(b, c, w)
    ensures Extends(s, r) && SameClauses(a, c)
  {
  }

  lemma RestEnds(s: State, db: Db, list: seq<Watcher>, v: nat, pend: set<Watcher>)
    requires Rest(s, db, list, |list|, v, pend)
    ensures pend == {}
  {
  }

  lemma SameTransitive(s: State, a: Db, t: State, b: Db, r: State, c: Db)
    requires Extends(s, t) && Extends(t, r) && SameClauses(a, b) && SameClauses(b, c)
    ensures Extends(s, r) && SameClauses(a, c)
  {
  }

  lemma ExtendsLength(s: State, t: State)
    requires Extends(s, t)
    ensures |s.trail| <= |t.trail|
  {
  }
}
