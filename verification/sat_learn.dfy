// Learning from a conflict: first unique implication point and clause minimisation.
module SatLearn {
  import opened Options
  import opened SatTypes
  import opened SatState
  import opened SatWatch

  // The variables of the current level that are marked and not yet resolved.
  ghost function Front(s: State, seen: set<nat>): set<nat> {
    set v | v in seen && v in s.at && s.at[v].lev >= Current(s)
  }

  // A literal that belongs in a learnt clause beside the implication point.
  ghost predicate Older(s: State, l: Lit) {
    False(s, l) && 1 <= s.at[l.v].lev < Current(s)
  }

  ghost predicate DistinctVars(ls: seq<Lit>) {
    forall i, j :: 0 <= i < j < |ls| ==> ls[i].v != ls[j].v
  }

  // The marked variables are those of the learnt literals, and the front.
  ghost predicate Marks(s: State, seen: set<nat>, learnt: seq<Lit>) {
    && (forall l :: l in learnt ==> Older(s, l) && l.v in seen)
    && DistinctVars(learnt)
    && (forall v :: v in seen ==> v in Front(s, seen) || exists l :: l in learnt && l.v == v)
  }

  // In m, a learnt literal holds or an entry of the front is refuted.
  ghost predicate Cover(s: State, seen: set<nat>, learnt: seq<Lit>, m: set<nat>) {
    HoldsSome(m, learnt) || exists v :: v in Front(s, seen) && Holds(m, Negated(TrueLit(s, v)))
  }

  ghost predicate Covered(s: State, cs: seq<seq<Lit>>, seen: set<nat>, learnt: seq<Lit>) {
    forall m: set<nat> :: Models(m, cs) ==> Cover(s, seen, learnt, m)
  }

  // As Covered, but the entry p may be refuted instead.
  ghost predicate CoveredBut(s: State, cs: seq<seq<Lit>>, seen: set<nat>, learnt: seq<Lit>, p: nat)
    requires p in s.at
  {
    forall m: set<nat> :: Models(m, cs) ==> Cover(s, seen, learnt, m) || Holds(m, Negated(TrueLit(s, p)))
  }

  ghost predicate FrontBelow(s: State, seen: set<nat>, index: int) {
    forall v :: v in Front(s, seen) ==> s.at[v].pos <= index
  }

  // ---------------------------------------------------------------- marking the literals of a clause

  // All literals of ls but those on p are marked, or false at level 0.
  ghost predicate Marked(s: State, seen: set<nat>, ls: seq<Lit>, p: Option<nat>) {
    forall l :: l in ls ==> p == Some(l.v) || (l.v in s.at && (s.at[l.v].lev == 0 || l.v in seen))
  }

  lemma MarkFront(s: State, seen: set<nat>, learnt: seq<Lit>, l: Lit)
    requires Marks(s, seen, learnt) && l.v in s.at && l.v !in seen && s.at[l.v].lev >= Current(s)
    ensures Marks(s, seen + {l.v}, learnt)
    ensures Front(s, seen + {l.v}) == Front(s, seen) + {l.v} && l.v !in Front(s, seen)
  {
  }

  lemma MarkOlder(s: State, seen: set<nat>, learnt: seq<Lit>, l: Lit)
    requires Marks(s, seen, learnt) && l.v !in seen && Older(s, l)
    ensures Marks(s, seen + {l.v}, learnt + [l])
    ensures Front(s, seen + {l.v}) == Front(s, seen)
  {
    assert Front(s, seen + {l.v}) == Front(s, seen);
    forall v | v in seen + {l.v}
      ensures v in Front(s, seen) || exists k :: k in learnt + [l] && k.v == v
    {
      if v == l.v {
        assert l in learnt + [l];
      } else if v !in Front(s, seen) {
        var k :| k in learnt && k.v == v;
        assert k in learnt + [l];
      }
    }
  }

  // ---------------------------------------------------------------- resolution

  // A marked literal that is false is in the learnt clause, or its variable is in the front.
  lemma MarkedLiteral(s: State, seen: set<nat>, learnt: seq<Lit>, l: Lit, m: set<nat>)
    requires Marks(s, seen, learnt) && l.v in seen && False(s, l) && Holds(m, l)
    ensures Cover(s, seen, learnt, m)
  {
    if l.v in Front(s, seen) {
      assert l == Negated(TrueLit(s, l.v));
    } else {
      var k :| k in learnt && k.v == l.v;
      assert k == l;
    }
  }

  // The false clause of the conflict is covered once its literals are marked.
  lemma ConflictCovered(s: State, cs: seq<seq<Lit>>, seen: set<nat>, learnt: seq<Lit>, ls: seq<Lit>)
    requires SemOk(s, cs) && Marks(s, seen, learnt) && Marked(s, seen, ls, None)
    requires AllFalse(s, ls) && Entails(cs, ls)
    ensures Covered(s, cs, seen, learnt)
  {
    hide Marks, SemOk, Cover;
    forall m: set<nat> | Models(m, cs)
      ensures Cover(s, seen, learnt, m)
    {
      var l :| l in ls && Holds(m, l);
      if s.at[l.v].lev == 0 {
        RefutedAtZero(s, l, cs, m);
      } else {
        MarkedLiteral(s, seen, learnt, l, m);
      }
    }
  }

  // Resolving with the reason of p removes p.
  lemma ReasonCovered(s: State, cs: seq<seq<Lit>>, seen: set<nat>, learnt: seq<Lit>, p: nat, ls: seq<Lit>)
    requires SemOk(s, cs) && Marks(s, seen, learnt) && Marked(s, seen, ls, Some(p))
    requires p in s.at && Forces(s, p, ls) && Entails(cs, ls) && CoveredBut(s, cs, seen, learnt, p)
    ensures Covered(s, cs, seen, learnt)
  {
    hide Marks, SemOk, Cover;
    forall m: set<nat> | Models(m, cs)
      ensures Cover(s, seen, learnt, m)
    {
      if !Cover(s, seen, learnt, m) {
        var l :| l in ls && Holds(m, l);
        assert l != TrueLit(s, p);
        if s.at[l.v].lev == 0 {
          RefutedAtZero(s, l, cs, m);
        } else {
          MarkedLiteral(s, seen, learnt, l, m);
        }
      }
    }
  }

  lemma CoverGrows(s: State, cs: seq<seq<Lit>>, seen: set<nat>, learnt: seq<Lit>, seen': set<nat>, learnt': seq<Lit>, p: nat)
    requires p in s.at && CoveredBut(s, cs, seen, learnt, p) && seen <= seen' && learnt <= learnt'
    ensures CoveredBut(s, cs, seen', learnt', p)
  {
    assert forall l :: l in learnt ==> l in learnt';
    forall m: set<nat> | Models(m, cs)
      ensures Cover(s, seen', learnt', m) || Holds(m, Negated(TrueLit(s, p)))
    {
      if v :| v in Front(s, seen) && Holds(m, Negated(TrueLit(s, v))) {
        assert v in Front(s, seen');
      }
    }
  }

  // The latest marked entry leaves the front.
  lemma Unmark(s: State, cs: seq<seq<Lit>>, seen: set<nat>, learnt: seq<Lit>, p: nat)
    requires Marks(s, seen, learnt) && p in Front(s, seen) && Covered(s, cs, seen, learnt)
    ensures Marks(s, seen - {p}, learnt) && CoveredBut(s, cs, seen - {p}, learnt, p)
    ensures Front(s, seen - {p}) == Front(s, seen) - {p}
  {
    var t := seen - {p};
    assert Front(s, t) == Front(s, seen) - {p};
    forall m: set<nat> | Models(m, cs)
      ensures Cover(s, t, learnt, m) || Holds(m, Negated(TrueLit(s, p)))
    {
      assert Cover(s, seen, learnt, m);
      if v :| v in Front(s, seen) && Holds(m, Negated(TrueLit(s, v))) {
        assert v == p || v in Front(s, t);
      }
    }
  }

  // An entry of the current level with another one before it is not the decision.
  lemma NotTheDecision(s: State, n: nat, u: nat, p: nat, q: nat)
    requires TrailOk(s, n, u) && LevelOk(s) && ForcedOk(s) && |s.start| >= 2
    requires p in s.at && q in s.at && s.at[p].lev >= Current(s) && s.at[q].lev >= Current(s) && s.at[q].pos < s.at[p].pos
    ensures p in s.reason
  {
  }

  // The clause being resolved: false but for the literal on p, by entries up to index.
  ghost predicate Resolvable(s: State, ls: seq<Lit>, p: Option<nat>, index: int) {
    forall l :: l in ls ==> p == Some(l.v) || (False(s, l) && s.at[l.v].pos <= index)
  }

  lemma ForcedResolvable(s: State, p: nat, ls: seq<Lit>)
    requires p in s.at && Forces(s, p, ls)
    ensures Resolvable(s, ls, Some(p), s.at[p].pos - 1)
  {
  }

  // Comparing the starts of two levels compares the levels.
  lemma LevelByStart(s: State, u: nat, k: nat)
    requires StartOk(s, u) && 1 <= k < |s.start|
    ensures s.start[k] >= s.start[|s.start| - 1] <==> k >= Current(s)
  {
  }

  lemma FrontMarked(s: State, seen: set<nat>, ls: seq<Lit>)
    requires Conflict(s, ls) && Marked(s, seen, ls, None) && Current(s) >= 1
    ensures Front(s, seen) != {}
  {
    var l :| l in ls && l.v in s.at && s.at[l.v].lev >= Current(s);
    assert l.v in Front(s, seen);
  }

  // Walking down the trail: an unmarked entry is passed over, a marked one belongs to the front.
  lemma WalkDown(s: State, n: nat, u: nat, seen: set<nat>, index: int)
    requires TrailOk(s, n, u) && StartOk(s, u) && LevelOk(s)
    requires FrontBelow(s, seen, index) && Front(s, seen) != {} && index < |s.trail| && |s.start| >= 2
    ensures 0 <= index
    ensures s.trail[index] !in seen ==> FrontBelow(s, seen, index - 1)
    ensures s.trail[index] in seen ==> s.trail[index] in Front(s, seen) && s.at[s.trail[index]].pos == index
  {
    var v :| v in Front(s, seen);
    assert 0 <= s.at[v].pos <= index;
    assert s.at[v].pos >= s.start[|s.start| - 1] >= u;
    EntryLevel(s, n, u, index);
    var w := s.trail[index];
    assert w in seen ==> w in Front(s, seen);
  }

  // ---------------------------------------------------------------- the first unique implication point

  // The variables above level 0 in a clause.
  ghost function Above(s: State, ls: seq<Lit>): set<nat> {
    set l | l in ls && l.v in s.at && s.at[l.v].lev != 0 :: l.v
  }

  // What is left of a false clause once it is resolved with the reasons of all its variables from
  // position i of the trail on.
  ghost function Cut(s: State, c: seq<Lit>, i: nat): set<nat>
    requires i <= |s.trail|
    decreases |s.trail| - i
  {
    if i == |s.trail| then Above(s, c)
    else
      var v, later := s.trail[i], Cut(s, c, i + 1);
      if v in later && v in s.reason then (later - {v}) + (Above(s, s.reason[v]) - {v}) else later
  }

  // The entry at position j is the only one of the current level when its turn comes.
  ghost predicate Alone(s: State, c: seq<Lit>, j: nat)
    requires j < |s.trail|
  {
    s.trail[j] in Cut(s, c, j + 1) && |Front(s, Cut(s, c, j + 1))| < 2
  }

  ghost predicate NoneAlone(s: State, c: seq<Lit>, k: nat) {
    forall j :: k <= j < |s.trail| ==> !Alone(s, c, j)
  }

  // Position i is the first unique implication point of the false clause c.
  ghost predicate FirstUip(s: State, c: seq<Lit>, i: nat) {
    i < |s.trail| && Front(s, Cut(s, c, i + 1)) == {s.trail[i]} && NoneAlone(s, c, i + 1)
  }

  // Before the clause confl is marked, the marks are what is left but for confl.
  ghost predicate Cutting(s: State, c: seq<Lit>, seen: set<nat>, index: int, p: Option<nat>, confl: seq<Lit>) {
    && -1 <= index < |s.trail| && NoneAlone(s, c, index + 1)
    && match p
       case None => seen == {} && index == |s.trail| - 1 && confl == c
       case Some(v) =>
         && index + 1 < |s.trail| && s.trail[index + 1] == v && v in s.reason && confl == s.reason[v]
         && v in Cut(s, c, index + 2) && seen == Cut(s, c, index + 2) - {v}
  }

  // The variables that marking a clause adds.
  ghost function NewMarks(s: State, confl: seq<Lit>, p: Option<nat>): set<nat> {
    set l | l in confl && l.v in s.at && s.at[l.v].lev != 0 && p != Some(l.v) :: l.v
  }

  lemma CutMarked(s: State, c: seq<Lit>, seen: set<nat>, index: int, p: Option<nat>, confl: seq<Lit>)
    requires Cutting(s, c, seen, index, p, confl)
    ensures seen + NewMarks(s, confl, p) == Cut(s, c, index + 1)
  {
    match p
    case None =>
      assert NewMarks(s, confl, p) == Above(s, c);
    case Some(v) =>
      assert NewMarks(s, confl, p) == Above(s, s.reason[v]) - {v};
  }

  lemma {:induction false} CutSkips(s: State, c: seq<Lit>, i: nat, k: nat)
    requires i <= k <= |s.trail| && forall j :: i <= j < k ==> s.trail[j] !in Cut(s, c, k)
    ensures Cut(s, c, i) == Cut(s, c, k)
    ensures NoneAlone(s, c, k) ==> NoneAlone(s, c, i)
    decreases k - i
  {
    hide Cut;
    if i < k {
      CutSkips(s, c, i + 1, k);
      CutStep(s, c, i);
      assert !Alone(s, c, i);
    }
  }

  lemma CutStep(s: State, c: seq<Lit>, i: nat)
    requires i < |s.trail|
    ensures s.trail[i] !in Cut(s, c, i + 1) ==> Cut(s, c, i) == Cut(s, c, i + 1)
  {
  }

  // Taking the latest marked entry.
  lemma CutTaken(s: State, c: seq<Lit>, seen: set<nat>, index0: nat, index: nat)
    requires index <= index0 < |s.trail| && seen == Cut(s, c, index0 + 1) && NoneAlone(s, c, index0 + 1)
    requires s.trail[index] in Front(s, seen) && forall j :: index < j <= index0 ==> s.trail[j] !in seen
    ensures |Front(s, seen)| == 1 ==> FirstUip(s, c, index)
    ensures seen == Cut(s, c, index + 1)
    ensures |Front(s, seen)| >= 2 && s.trail[index] in s.reason ==>
      Cutting(s, c, seen - {s.trail[index]}, index - 1, Some(s.trail[index]), s.reason[s.trail[index]])
  {
    hide Cut, Front, NoneAlone;
    CutSkips(s, c, index + 1, index0 + 1);
    FrontInside(s, seen, s.trail[index]);
    if |Front(s, seen)| == 1 {
      OnlyElement(Front(s, seen), s.trail[index]);
    } else {
      NotAlone(s, c, index);
    }
  }

  lemma FrontInside(s: State, seen: set<nat>, v: nat)
    requires v in Front(s, seen)
    ensures v in seen
  {
  }

  lemma NotAlone(s: State, c: seq<Lit>, i: nat)
    requires i < |s.trail| && NoneAlone(s, c, i + 1)
    ensures |Front(s, Cut(s, c, i + 1))| >= 2 ==> NoneAlone(s, c, i)
  {
    hide Cut, Front;
  }

  lemma CuttingStarts(s: State, c: seq<Lit>)
    ensures Cutting(s, c, {}, |s.trail| - 1, None, c)
  {
  }

  lemma CuttingDense(s: State, c: seq<Lit>, seen: set<nat>, index: int, p: Option<nat>, confl: seq<Lit>)
    requires Cutting(s, c, seen, index, p, confl)
    ensures -1 <= index < |s.trail| && NoneAlone(s, c, index + 1)
  {
  }

  lemma UipInTrail(s: State, c: seq<Lit>, i: nat)
    requires FirstUip(s, c, i)
    ensures i < |s.trail|
  {
  }

  lemma OnlyElement(a: set<nat>, x: nat)
    requires x in a && |a| == 1
    ensures a == {x}
  {
    assert |a - {x}| == 0;
  }

  // A conflict clause that can be learnt, the implication point's literal last.
  ghost predicate Learnable(s: State, cs: seq<seq<Lit>>, ls: seq<Lit>) {
    && |ls| >= 1
    && (forall i :: 0 <= i < |ls| - 1 ==> Older(s, ls[i]))
    && False(s, ls[|ls| - 1]) && s.at[ls[|ls| - 1].v].lev == Current(s)
    && DistinctVars(ls)
    && Entails(cs, ls)
  }

  ghost predicate MarkedBy(seen: set<nat>, ls: seq<Lit>) {
    forall v :: v in seen <==> exists i :: 0 <= i < |ls| && ls[i].v == v
  }

  // With an empty front, the implication point completes the learnt clause.
  lemma LearntIsLearnable(s: State, cs: seq<seq<Lit>>, n: nat, u: nat, seen: set<nat>, learnt: seq<Lit>, p: nat)
    requires TrailOk(s, n, u) && p in s.at && s.at[p].lev >= Current(s) && p !in seen
    requires Marks(s, seen, learnt) && CoveredBut(s, cs, seen, learnt, p) && Front(s, seen) == {}
    ensures Learnable(s, cs, learnt + [Negated(TrueLit(s, p))]) && MarkedBy(seen, learnt)
  {
    var l := Negated(TrueLit(s, p));
    var ls := learnt + [l];
    forall m: set<nat> | Models(m, cs)
      ensures HoldsSome(m, ls)
    {
      assert Cover(s, seen, learnt, m) || Holds(m, l);
      if Holds(m, l) {
        assert l in ls;
      } else {
        var k :| k in learnt && Holds(m, k);
        assert k in ls;
      }
    }
    assert forall k :: k in learnt ==> k.v in seen;
    assert forall i :: 0 <= i < |learnt| ==> learnt[i] in learnt;
  }

  // The latest marked entry p is taken out. If others are left in the front, p has a reason.
  lemma TakeLatest(s: State, cs: seq<seq<Lit>>, n: nat, u: nat, seen: set<nat>, learnt: seq<Lit>, p: nat)
    requires SearchOk(s, cs, n, u) && |s.start| >= 2
    requires Marks(s, seen, learnt) && Covered(s, cs, seen, learnt) && p in Front(s, seen) && FrontBelow(s, seen, s.at[p].pos)
    ensures Marks(s, seen - {p}, learnt) && CoveredBut(s, cs, seen - {p}, learnt, p)
    ensures Front(s, seen - {p}) == Front(s, seen) - {p} && FrontBelow(s, seen - {p}, s.at[p].pos - 1)
    ensures Front(s, seen - {p}) != {} ==>
      p in s.reason && Forces(s, p, s.reason[p]) && Entails(cs, s.reason[p]) && Resolvable(s, s.reason[p], Some(p), s.at[p].pos - 1)
  {
    hide Marks, Covered, CoveredBut, Entails, StartOk, Forces;
    Unmark(s, cs, seen, learnt, p);
    SamePosition(s, n, u);
    assert FrontBelow(s, seen - {p}, s.at[p].pos - 1);
    if q :| q in Front(s, seen - {p}) {
      NotTheDecision(s, n, u, p, q);
      ForcedResolvable(s, p, s.reason[p]);
    }
  }

  lemma SamePosition(s: State, n: nat, u: nat)
    requires TrailOk(s, n, u)
    ensures forall v, w :: v in s.at && w in s.at && s.at[v].pos == s.at[w].pos ==> v == w
  {
  }

  // ---------------------------------------------------------------- minimisation

  // All other literals of the reason of l are marked or false at level 0. They may have been
  // removed from the learnt clause themselves.
  ghost predicate Redundant(s: State, seen: set<nat>, l: Lit) {
    l.v in s.reason && forall k :: k in s.reason[l.v] ==> k.v in s.at && (k.v in seen || s.at[k.v].lev == 0)
  }

  ghost predicate Shrunk(s: State, seen: set<nat>, full: seq<Lit>, ls: seq<Lit>) {
    && |full| >= 1 && |ls| >= 1 && ls[|ls| - 1] == full[|full| - 1]
    && (forall i :: 0 <= i < |ls| - 1 ==> ls[i] in full[..|full| - 1])
    && DistinctVars(ls)
    && (forall l :: l in full ==> l in ls || Redundant(s, seen, l))
  }

  // The variables of a learnt clause beside the implication point.
  function OtherVars(ls: seq<Lit>): set<nat> {
    set j | 0 <= j < |ls| - 1 :: ls[j].v
  }

  // ls is full without exactly those literals, other than the last, that are redundant in it.
  ghost predicate Minimised(s: State, full: seq<Lit>, ls: seq<Lit>) {
    && Shrunk(s, OtherVars(full), full, ls)
    && forall i :: 0 <= i < |ls| - 1 ==> !Redundant(s, OtherVars(full), ls[i])
  }

  lemma MarkedVars(seen: set<nat>, full: seq<Lit>)
    requires |full| >= 1 && MarkedBy(seen, full[..|full| - 1])
    ensures seen == OtherVars(full)
  {
  }

  // Nothing is left that is redundant against what is left.
  lemma MinimisedIsMinimal(s: State, full: seq<Lit>, ls: seq<Lit>)
    requires Minimised(s, full, ls)
    ensures forall i :: 0 <= i < |ls| - 1 ==> !Redundant(s, OtherVars(ls), ls[i])
  {
    assert OtherVars(ls) <= OtherVars(full) by {
      forall v | v in OtherVars(ls) ensures v in OtherVars(full) {
        var j :| 0 <= j < |ls| - 1 && ls[j].v == v;
        var k :| 0 <= k < |full| - 1 && full[..|full| - 1][k] == ls[j];
        assert full[k].v == v;
      }
    }
  }

  // By induction over the trail: if no kept literal holds in m, no removed one does.
  lemma {:induction false} RemovedRefuted(s: State, cs: seq<seq<Lit>>, seen: set<nat>, full: seq<Lit>, ls: seq<Lit>, l: Lit, m: set<nat>)
    requires ReasonOk(s) && SemOk(s, cs) && Models(m, cs) && !HoldsSome(m, ls)
    requires Learnable(s, cs, full) && MarkedBy(seen, full[..|full| - 1]) && Shrunk(s, seen, full, ls)
    requires l in full
    ensures !Holds(m, l)
    decreases if l.v in s.at then s.at[l.v].pos else 0
  {
    if l !in ls {
      assert Redundant(s, seen, l);
      assert Forces(s, l.v, s.reason[l.v]);
      assert False(s, l);
      var k :| k in s.reason[l.v] && Holds(m, k);
      if k != TrueLit(s, l.v) {
        if s.at[k.v].lev == 0 {
          RefutedAtZero(s, k, cs, m);
        } else {
          var j :| 0 <= j < |full| - 1 && full[..|full| - 1][j].v == k.v;
          assert False(s, full[j]);
          RemovedRefuted(s, cs, seen, full, ls, full[j], m);
        }
      }
    }
  }

  lemma ShrunkIsLearnable(s: State, cs: seq<seq<Lit>>, seen: set<nat>, full: seq<Lit>, ls: seq<Lit>)
    requires ReasonOk(s) && SemOk(s, cs)
    requires Learnable(s, cs, full) && MarkedBy(seen, full[..|full| - 1]) && Shrunk(s, seen, full, ls)
    ensures Learnable(s, cs, ls)
  {
    hide ReasonOk, SemOk, MarkedBy;
    forall m: set<nat> | Models(m, cs)
      ensures HoldsSome(m, ls)
    {
      if !HoldsSome(m, ls) {
        var l :| l in full && Holds(m, l);
        RemovedRefuted(s, cs, seen, full, ls, l, m);
      }
    }
  }

  lemma ShrunkSelf(s: State, seen: set<nat>, full: seq<Lit>)
    requires |full| >= 1 && DistinctVars(full)
    ensures Shrunk(s, seen, full, full)
  {
    assert forall i :: 0 <= i < |full| - 1 ==> full[i] == full[..|full| - 1][i];
  }

  lemma ShrunkDrop(s: State, seen: set<nat>, full: seq<Lit>, ls: seq<Lit>, m: nat)
    requires Shrunk(s, seen, full, ls) && m < |ls| - 1 && Redundant(s, seen, ls[m])
    ensures Shrunk(s, seen, full, ls[..m] + ls[m + 1..])
  {
    var t := ls[..m] + ls[m + 1..];
    assert forall i :: 0 <= i < |t| ==> t[i] == ls[if i < m then i else i + 1];
    forall l | l in full
      ensures l in t || Redundant(s, seen, l)
    {
      if l in ls && l != ls[m] {
        var i :| 0 <= i < |ls| && ls[i] == l;
        assert t[if i < m then i else i - 1] == l;
      }
    }
  }

  // ---------------------------------------------------------------- the backjump

  function Swap(ls: seq<Lit>, i: nat): seq<Lit>
    requires i < |ls|
  {
    ls[0 := ls[i]][i := ls[0]]
  }

  lemma SwapKeepsLearnable(s: State, cs: seq<seq<Lit>>, ls: seq<Lit>, i: nat)
    requires Learnable(s, cs, ls) && i < |ls| - 1
    ensures Learnable(s, cs, Swap(ls, i)) && Swap(ls, i)[|ls| - 1] == ls[|ls| - 1]
  {
    var t := Swap(ls, i);
    assert forall j :: 0 <= j < |ls| ==> t[j] == ls[if j == 0 then i else if j == i then 0 else j];
    forall m: set<nat> | Models(m, cs)
      ensures HoldsSome(m, t)
    {
      var l :| l in ls && Holds(m, l);
      var j :| 0 <= j < |ls| && ls[j] == l;
      assert t[if j == 0 then i else if j == i then 0 else j] == l;
    }
  }

  lemma SwapKeepsMinimised(s: State, full: seq<Lit>, ls: seq<Lit>, i: nat)
    requires Minimised(s, full, ls) && i < |ls| - 1
    ensures Minimised(s, full, Swap(ls, i))
  {
    var t := Swap(ls, i);
    assert forall j :: 0 <= j < |ls| ==> t[j] == ls[if j == 0 then i else if j == i then 0 else j];
    forall l | l in full ensures l in t || Redundant(s, OtherVars(full), l) {
      if l in ls {
        var j :| 0 <= j < |ls| && ls[j] == l;
        assert t[if j == 0 then i else if j == i then 0 else j] == l;
      }
    }
  }

  // All literals but the last are at level k or below.
  ghost predicate UpTo(s: State, ls: seq<Lit>, k: nat) {
    forall i :: 0 <= i < |ls| - 1 ==> ls[i].v in s.at && s.at[ls[i].v].lev <= k
  }

  // After backtracking the learnt clause is unit, on the literal of the implication point.
  lemma BackjumpUnit(s: State, cs: seq<seq<Lit>>, ls: seq<Lit>, k: nat)
    requires Learnable(s, cs, ls) && UpTo(s, ls, k) && k < Current(s) && s.start[k + 1] <= |s.trail|
    ensures Unit(Truncate(s, k + 1), ls[|ls| - 1], ls)
    ensures forall i :: 0 <= i < |ls| - 1 ==> var t := Truncate(s, k + 1); False(t, ls[i]) && t.at[ls[i].v] == s.at[ls[i].v]
  {
    var t := Truncate(s, k + 1);
    assert forall i :: 0 <= i < |ls| - 1 ==> Older(s, ls[i]);
    forall l | l in ls
      ensures l == ls[|ls| - 1] || False(t, l)
    {
      var i :| 0 <= i < |ls| && ls[i] == l;
    }
  }

  lemma LearnableFacts(s: State, cs: seq<seq<Lit>>, ls: seq<Lit>, n: nat, u: nat)
    requires Learnable(s, cs, ls) && TrailOk(s, n, u)
    ensures NoComplement(ls) && InRange(ls, n) && Entails(cs, ls)
  {
    hide Entails;
    forall l | l in ls
      ensures l.v < n
    {
      var i :| 0 <= i < |ls| && ls[i] == l;
      assert i < |ls| - 1 ==> Older(s, ls[i]);
    }
    forall l, k | l in ls && k in ls && l.v == k.v
      ensures l == k
    {
      var i :| 0 <= i < |ls| && ls[i] == l;
      var j :| 0 <= j < |ls| && ls[j] == k;
    }
  }
}
