// The search state of the solver, and the invariants of conflict-driven clause learning.
module SatState {
  import opened SatTypes

  // Value and decision level of an assigned variable, and its index in the trail.
  datatype Entry = Entry(sign: bool, lev: nat, pos: nat)

  // trail   the assigned variables, oldest first
  // start   per decision level the index of its first trail entry (level 0: the insertion index)
  // at      the assigned variables
  // reason  the literals of the clause that forced a variable, for those that have a reason
  datatype State = State(trail: seq<nat>, start: seq<nat>, at: map<nat, Entry>, reason: map<nat, seq<Lit>>)

  // The watched clauses: basic clauses with two literals or more, and learnt ones.
  type Db = map<nat, Clause>

  predicate True(s: State, l: Lit) {
    l.v in s.at && s.at[l.v].sign == l.sign
  }

  predicate False(s: State, l: Lit) {
    l.v in s.at && s.at[l.v].sign != l.sign
  }

  function TrueLit(s: State, v: nat): Lit
    requires v in s.at
  {
    Lit(v, s.at[v].sign)
  }

  // ---------------------------------------------------------------- invariants

  // Only the unit clauses of the input, the first u entries, may repeat a variable.
  ghost predicate TrailOk(s: State, n: nat, u: nat) {
    && (forall v :: v in s.at ==>
          v < n && s.at[v].pos < |s.trail| && s.trail[s.at[v].pos] == v && s.at[v].lev < |s.start|)
    && (forall p :: 0 <= p < |s.trail| ==>
          s.trail[p] in s.at && s.at[s.trail[p]].pos <= p && (u <= p ==> s.at[s.trail[p]].pos == p))
  }

  ghost predicate StartOk(s: State, u: nat) {
    && |s.start| >= 1
    && u <= s.start[0] <= |s.trail|
    && (forall k :: 1 <= k < |s.start| ==> s.start[0] <= s.start[k] < |s.trail|)
    && (forall j, k :: 1 <= j < k < |s.start| ==> s.start[j] < s.start[k])
  }

  // The entries of level k are those from start[k] on, up to the start of the next level.
  ghost predicate LevelOk(s: State) {
    forall v, k :: v in s.at && 1 <= k < |s.start| ==> (s.at[v].pos < s.start[k] <==> s.at[v].lev < k)
  }

  // Every literal of a reason is the literal it made true, or is false because of an earlier
  // entry: the implication graph is acyclic.
  ghost predicate Forces(s: State, v: nat, ls: seq<Lit>)
    requires v in s.at
  {
    && TrueLit(s, v) in ls
    && (forall l :: l in ls ==> l == TrueLit(s, v) || (False(s, l) && s.at[l.v].pos < s.at[v].pos))
  }

  ghost predicate ReasonOk(s: State) {
    forall v :: v in s.reason ==> v in s.at && Forces(s, v, s.reason[v])
  }

  // Only the first entry of a level, its decision, has no reason.
  ghost predicate ForcedOk(s: State) {
    forall v :: v in s.at && 1 <= s.at[v].lev < |s.start| && s.at[v].pos != s.start[s.at[v].lev] ==> v in s.reason
  }

  // Reasons, and the assignments of level 0, follow from the basic clauses.
  ghost predicate SemOk(s: State, cs: seq<seq<Lit>>) {
    && (forall v :: v in s.reason ==> Entails(cs, s.reason[v]))
    && (forall v :: v in s.at && s.at[v].lev == 0 ==> Entails(cs, [TrueLit(s, v)]))
  }

  ghost predicate InRange(ls: seq<Lit>, n: nat) {
    forall l :: l in ls ==> l.v < n
  }

  ghost predicate ClauseOk(c: Clause, cs: seq<seq<Lit>>, n: nat) {
    && NoComplement(c.literals)
    && InRange(c.literals, n)
    && Entails(cs, c.literals)
    && c.watch0 in c.literals
    && c.watch1 in c.literals
  }

  ghost predicate DbOk(db: Db, cs: seq<seq<Lit>>, n: nat) {
    forall c {:trigger c in db} :: c in db ==> ClauseOk(db[c], cs, n)
  }

  // A clause with its `satisfied` flag set has a true watched literal.
  ghost predicate FlagOk(s: State, db: Db) {
    forall c {:trigger c in db} :: c in db && db[c].satisfied ==> True(s, db[c].watch0) || True(s, db[c].watch1)
  }

  // A false literal of a level below L has its partner true, at the same level or below.
  ghost predicate Guards(s: State, a: Lit, b: Lit, L: int) {
    False(s, a) && s.at[a.v].lev < L ==> True(s, b) && s.at[b.v].lev <= s.at[a.v].lev
  }

  ghost predicate PropagatedBelow(s: State, db: Db, L: int) {
    forall c {:trigger c in db} :: c in db ==>
      && Guards(s, db[c].watch0, db[c].watch1, L)
      && Guards(s, db[c].watch1, db[c].watch0, L)
  }

  ghost predicate SearchOk(s: State, cs: seq<seq<Lit>>, n: nat, u: nat) {
    && StartOk(s, u)
    && TrailOk(s, n, u)
    && LevelOk(s)
    && ReasonOk(s)
    && ForcedOk(s)
    && SemOk(s, cs)
  }

  function Current(s: State): int {
    |s.start| - 1
  }

  // ---------------------------------------------------------------- implied literals

  // Literal l is made true at the current level; r is its reason.
  ghost function Assign(s: State, l: Lit, r: seq<Lit>): State
    requires |s.start| >= 1
  {
    s.(trail := s.trail + [l.v], at := s.at[l.v := Entry(l.sign, Current(s), |s.trail|)], reason := s.reason[l.v := r])
  }

  ghost predicate Unit(s: State, l: Lit, ls: seq<Lit>) {
    && l in ls
    && l.v !in s.at
    && (forall k :: k in ls ==> k == l || False(s, k))
  }

  lemma AssignKeepsTrail(s: State, l: Lit, r: seq<Lit>, n: nat, u: nat)
    requires StartOk(s, u) && TrailOk(s, n, u) && LevelOk(s) && l.v < n && l.v !in s.at
    ensures var t := Assign(s, l, r); StartOk(t, u) && TrailOk(t, n, u) && LevelOk(t)
  {
  }

  lemma AssignKeepsReasons(s: State, l: Lit, r: seq<Lit>, n: nat, u: nat)
    requires TrailOk(s, n, u) && ReasonOk(s) && Unit(s, l, r) && |s.start| >= 1
    ensures ReasonOk(Assign(s, l, r))
  {
    var t := Assign(s, l, r);
    forall v | v in t.reason
      ensures v in t.at && Forces(t, v, t.reason[v])
    {
      if v != l.v {
        assert Forces(s, v, s.reason[v]);
        assert TrueLit(t, v) == TrueLit(s, v);
      }
    }
  }

  lemma AssignKeepsForced(s: State, l: Lit, r: seq<Lit>)
    requires |s.start| >= 1 && ForcedOk(s)
    ensures ForcedOk(Assign(s, l, r))
  {
  }

  // A literal that is false at level 0 is false in every model of the basic clauses.
  lemma RefutedAtZero(s: State, l: Lit, cs: seq<seq<Lit>>, m: set<nat>)
    requires SemOk(s, cs) && Models(m, cs) && False(s, l) && s.at[l.v].lev == 0
    ensures !Holds(m, l)
  {
    assert Entails(cs, [TrueLit(s, l.v)]);
    assert HoldsSome(m, [TrueLit(s, l.v)]);
  }

  lemma UnitAtLevelZero(s: State, l: Lit, ls: seq<Lit>, cs: seq<seq<Lit>>)
    requires SemOk(s, cs) && Unit(s, l, ls) && Entails(cs, ls)
    requires forall v :: v in s.at ==> s.at[v].lev == 0
    ensures Entails(cs, [l])
  {
    forall m: set<nat> | Models(m, cs)
      ensures HoldsSome(m, [l])
    {
      var k :| k in ls && Holds(m, k);
      if k != l {
        RefutedAtZero(s, k, cs, m);
      }
      assert k in [l];
    }
  }

  lemma AssignKeepsSem(s: State, l: Lit, r: seq<Lit>, cs: seq<seq<Lit>>)
    requires SemOk(s, cs) && Unit(s, l, r) && Entails(cs, r)
    requires |s.start| >= 1
    requires forall v :: v in s.at ==> s.at[v].lev < |s.start|
    ensures SemOk(Assign(s, l, r), cs)
  {
    var t := Assign(s, l, r);
    if Current(s) == 0 {
      UnitAtLevelZero(s, l, r, cs);
    }
    forall v | v in t.at && t.at[v].lev == 0
      ensures Entails(cs, [TrueLit(t, v)])
    {
      if v != l.v {
        assert TrueLit(t, v) == TrueLit(s, v);
      } else {
        assert TrueLit(t, v) == l;
      }
    }
  }

  lemma AssignKeeps(s: State, l: Lit, r: seq<Lit>, cs: seq<seq<Lit>>, n: nat, u: nat)
    requires SearchOk(s, cs, n, u) && Unit(s, l, r) && l.v < n && Entails(cs, r)
    ensures SearchOk(Assign(s, l, r), cs, n, u)
  {
    AssignKeepsTrail(s, l, r, n, u);
    AssignKeepsReasons(s, l, r, n, u);
    AssignKeepsForced(s, l, r);
    AssignKeepsSem(s, l, r, cs);
  }

  lemma AssignKeepsWatches(s: State, l: Lit, r: seq<Lit>, db: Db, L: int)
    requires |s.start| >= 1 && l.v !in s.at
    ensures FlagOk(s, db) ==> FlagOk(Assign(s, l, r), db)
    ensures L <= Current(s) && PropagatedBelow(s, db, L) ==> PropagatedBelow(Assign(s, l, r), db, L)
  {
  }

  // ---------------------------------------------------------------- decisions

  ghost function Decide(s: State, l: Lit): State {
    s.(trail := s.trail + [l.v], start := s.start + [|s.trail|], at := s.at[l.v := Entry(l.sign, |s.start|, |s.trail|)])
  }

  lemma DecideKeepsTrail(s: State, l: Lit, n: nat, u: nat)
    requires StartOk(s, u) && TrailOk(s, n, u) && l.v < n && l.v !in s.at
    ensures StartOk(Decide(s, l), u) && TrailOk(Decide(s, l), n, u)
  {
  }

  lemma DecideKeepsLevels(s: State, l: Lit, n: nat, u: nat)
    requires StartOk(s, u) && TrailOk(s, n, u) && LevelOk(s) && l.v !in s.at
    ensures LevelOk(Decide(s, l))
  {
  }

  lemma DecideKeepsReasons(s: State, l: Lit)
    requires ReasonOk(s) && l.v !in s.at
    ensures ReasonOk(Decide(s, l))
  {
    var t := Decide(s, l);
    forall v | v in t.reason
      ensures v in t.at && Forces(t, v, t.reason[v])
    {
      assert Forces(s, v, s.reason[v]);
      assert TrueLit(t, v) == TrueLit(s, v);
    }
  }

  lemma DecideKeepsForced(s: State, l: Lit, n: nat, u: nat)
    requires TrailOk(s, n, u) && ForcedOk(s)
    ensures ForcedOk(Decide(s, l))
  {
  }

  lemma DecideKeepsSem(s: State, l: Lit, cs: seq<seq<Lit>>)
    requires SemOk(s, cs) && |s.start| >= 1
    ensures SemOk(Decide(s, l), cs)
  {
    var t := Decide(s, l);
    forall v | v in t.at && t.at[v].lev == 0
      ensures Entails(cs, [TrueLit(t, v)])
    {
      assert TrueLit(t, v) == TrueLit(s, v);
    }
  }

  lemma DecideKeeps(s: State, l: Lit, cs: seq<seq<Lit>>, n: nat, u: nat)
    requires SearchOk(s, cs, n, u) && l.v < n && l.v !in s.at
    ensures SearchOk(Decide(s, l), cs, n, u)
  {
    DecideKeepsTrail(s, l, n, u);
    DecideKeepsLevels(s, l, n, u);
    DecideKeepsReasons(s, l);
    DecideKeepsForced(s, l, n, u);
    DecideKeepsSem(s, l, cs);
  }

  lemma DecideKeepsWatches(s: State, l: Lit, db: Db, L: int)
    requires l.v !in s.at && L <= |s.start|
    ensures FlagOk(s, db) ==> FlagOk(Decide(s, l), db)
    ensures PropagatedBelow(s, db, L) ==> PropagatedBelow(Decide(s, l), db, L)
  {
  }

  // ---------------------------------------------------------------- backtracking

  // All levels from k on are undone.
  ghost function Truncate(s: State, k: nat): State
    requires 1 <= k < |s.start| && s.start[k] <= |s.trail|
  {
    s.(trail := s.trail[..s.start[k]],
       start := s.start[..k],
       at := map v | v in s.at && s.at[v].lev < k :: s.at[v],
       reason := map v | v in s.reason && v in s.at && s.at[v].lev < k :: s.reason[v])
  }

  lemma TruncateKeepsTrail(s: State, k: nat, n: nat, u: nat)
    requires StartOk(s, u) && TrailOk(s, n, u) && LevelOk(s) && 1 <= k < |s.start|
    ensures var t := Truncate(s, k); StartOk(t, u) && TrailOk(t, n, u) && LevelOk(t)
  {
  }

  lemma TruncateKeepsReasons(s: State, k: nat)
    requires LevelOk(s) && ReasonOk(s) && 1 <= k < |s.start| && s.start[k] <= |s.trail|
    ensures ReasonOk(Truncate(s, k))
  {
    var t := Truncate(s, k);
    forall v | v in t.reason
      ensures v in t.at && Forces(t, v, t.reason[v])
    {
      assert Forces(s, v, s.reason[v]);
      assert TrueLit(t, v) == TrueLit(s, v);
      assert s.at[v].pos < s.start[k];
    }
  }

  lemma TruncateKeepsForced(s: State, k: nat)
    requires ForcedOk(s) && 1 <= k < |s.start| && s.start[k] <= |s.trail|
    ensures ForcedOk(Truncate(s, k))
  {
  }

  lemma TruncateKeepsSem(s: State, k: nat, cs: seq<seq<Lit>>)
    requires SemOk(s, cs) && 1 <= k < |s.start| && s.start[k] <= |s.trail|
    ensures SemOk(Truncate(s, k), cs)
  {
    var t := Truncate(s, k);
    forall v | v in t.at && t.at[v].lev == 0
      ensures Entails(cs, [TrueLit(t, v)])
    {
      assert TrueLit(t, v) == TrueLit(s, v);
    }
  }

  lemma TruncateKeeps(s: State, k: nat, cs: seq<seq<Lit>>, n: nat, u: nat)
    requires SearchOk(s, cs, n, u) && 1 <= k < |s.start|
    ensures SearchOk(Truncate(s, k), cs, n, u)
  {
    TruncateKeepsTrail(s, k, n, u);
    TruncateKeepsReasons(s, k);
    TruncateKeepsForced(s, k);
    TruncateKeepsSem(s, k, cs);
  }

  // What was propagated below level k survives the removal of all levels from k on.
  lemma TruncateKeepsPropagated(s: State, db: Db, k: nat)
    requires 1 <= k < |s.start| && s.start[k] <= |s.trail| && PropagatedBelow(s, db, k)
    ensures PropagatedBelow(Truncate(s, k), db, k)
  {
  }

  // ---------------------------------------------------------------- the length of the trail

  lemma {:induction false} DistinctBelow(t: seq<nat>, n: nat)
    requires forall i :: 0 <= i < |t| ==> t[i] < n
    requires forall i, j :: 0 <= i < j < |t| ==> t[i] != t[j]
    ensures |t| <= n
  {
    if |t| > 0 {
      assert t[0] < n;
      if k :| 0 <= k < |t| && t[k] == n - 1 {
        DistinctBelow(t[..k] + t[k + 1..], n - 1);
      } else {
        DistinctBelow(t, n - 1);
      }
    }
  }

  lemma TrailBound(s: State, n: nat, u: nat)
    requires TrailOk(s, n, u) && u <= |s.trail|
    ensures |s.trail| <= u + n
  {
    var t := s.trail[u..];
    assert forall i :: 0 <= i < |t| ==> t[i] == s.trail[u + i];
    DistinctBelow(t, n);
  }

  // An entry at or after the start of the current level belongs to it.
  lemma EntryLevel(s: State, n: nat, u: nat, i: nat)
    requires TrailOk(s, n, u) && StartOk(s, u) && LevelOk(s) && i < |s.trail|
    requires |s.start| > 1 ==> i >= s.start[|s.start| - 1]
    ensures s.trail[i] in s.at && s.at[s.trail[i]].lev >= Current(s)
  {
  }
}
