// Why the search ends: the ends of the levels grow lexicographically within a finite space.
module SatRank {
  import opened SatTypes
  import opened SatState
  import opened SatWatch
  import opened SatBooks

  function Times(a: nat, b: nat): nat {
    a * b
  }

  lemma {:induction false} TimesLess(a: nat, b: nat, p: nat)
    requires a < b
    ensures Times(a, p) + p <= Times(b, p)
    decreases b - a
  {
    if a + 1 < b {
      TimesLess(a + 1, b, p);
    }
    assert Times(a, p) + p == Times(a + 1, p);
  }

  function Pow(b: nat, e: nat): nat {
    if e == 0 then 1 else Times(b, Pow(b, e - 1))
  }

  ghost predicate Bounded(s: State, N: nat) {
    (forall j: nat :: End(s, j) <= N) && |s.start| <= N + 1
  }

  // The ends of the levels k, ..., N read as the digits of a number in base N + 1, from above.
  ghost function Rank(s: State, N: nat, k: nat): nat
    requires Bounded(s, N)
    decreases N + 1 - k
  {
    if k > N then 0 else Times(N - End(s, k), Pow(N + 1, N - k)) + Rank(s, N, k + 1)
  }

  // A number is below the power of the base that has one more digit.
  lemma {:induction false} RankBound(s: State, N: nat, k: nat)
    requires Bounded(s, N) && k <= N + 1
    ensures Rank(s, N, k) < Pow(N + 1, N + 1 - k)
    decreases N + 1 - k
  {
    hide Times;
    if k <= N {
      RankBound(s, N, k + 1);
      TimesLess(N - End(s, k), N + 1, Pow(N + 1, N - k));
    }
  }

  // The first digit that differs decides.
  lemma {:induction false} RankDecreases(s: State, t: State, N: nat, k: nat, d: nat)
    requires Bounded(s, N) && Bounded(t, N)
    requires k <= d <= N && End(s, d) < End(t, d) && forall j: nat :: j < d ==> End(s, j) == End(t, j)
    ensures Rank(t, N, k) < Rank(s, N, k)
    decreases d - k
  {
    hide Times, End;
    if k < d {
      RankDecreases(s, t, N, k + 1, d);
    } else {
      RankBound(t, N, k + 1);
      TimesLess(N - End(t, k), N - End(s, k), Pow(N + 1, N - k));
    }
  }

  lemma {:induction false} RankSame(s: State, t: State, N: nat, k: nat)
    requires Bounded(s, N) && Bounded(t, N) && forall j: nat :: End(t, j) == End(s, j)
    ensures Rank(t, N, k) == Rank(s, N, k)
    decreases N + 1 - k
  {
    if k <= N {
      RankSame(s, t, N, k + 1);
    }
  }

  lemma {:induction false} StartsGrow(s: State, u: nat, k: nat)
    requires StartOk(s, u) && 1 <= k < |s.start|
    ensures s.start[k] >= k - 1
    decreases k
  {
    if k > 1 {
      StartsGrow(s, u, k - 1);
    }
  }

  lemma EndsBounded(s: State, n: nat, u: nat)
    requires StartOk(s, u) && TrailOk(s, n, u)
    ensures Bounded(s, u + n)
  {
    TrailBound(s, n, u);
    if |s.start| > 1 {
      StartsGrow(s, u, |s.start| - 1);
    }
  }

  // Every step that makes progress lowers the rank,
  lemma ProgressLowersRank(s: State, t: State, N: nat)
    requires Bounded(s, N) && Bounded(t, N) && Progress(s, t)
    ensures Rank(t, N, 0) < Rank(s, N, 0)
  {
    var d: nat :| d < |t.start| && End(s, d) < End(t, d) && forall k: nat :: k < d ==> End(s, k) == End(t, k);
    RankDecreases(s, t, N, 0, d);
  }

  // and propagation, which only extends the current level, does not raise it.
  lemma ExtendingKeepsRank(s: State, t: State, N: nat)
    requires Bounded(s, N) && Bounded(t, N) && Extends(s, t) && |s.start| >= 1
    ensures Rank(t, N, 0) <= Rank(s, N, 0)
  {
    if |t.trail| > |s.trail| {
      RankDecreases(s, t, N, 0, |s.start| - 1);
    } else {
      RankSame(s, t, N, 0);
    }
  }

  lemma DecisionProgress(s: State, l: Lit)
    requires |s.start| >= 1
    ensures Progress(s, Decide(s, l))
  {
    var t := Decide(s, l);
    assert End(s, |s.start|) < End(t, |s.start|);
  }
}
