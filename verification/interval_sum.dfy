// Boxes cut by a bound on the sum of their coordinates.
module IntervalSum {

  import opened Reals

  datatype Interval = Interval(min: real, max: real)

  predicate Within(x: real, i: Interval) {
    i.min <= x <= i.max
  }

  predicate NonEmpty(i: Interval) {
    i.min <= i.max
  }

  function Mins(row: seq<Interval>): real {
    if row == [] then 0.0 else Mins(row[..|row| - 1]) + row[|row| - 1].min
  }

  function Maxs(row: seq<Interval>): real {
    if row == [] then 0.0 else Maxs(row[..|row| - 1]) + row[|row| - 1].max
  }

  function Total(v: seq<real>): real {
    if v == [] then 0.0 else Total(v[..|v| - 1]) + v[|v| - 1]
  }

  predicate AllNonEmpty(row: seq<Interval>) {
    forall i :: 0 <= i < |row| ==> NonEmpty(row[i])
  }

  // A point of the box whose coordinates add up to something within the sum.
  predicate Solution(v: seq<real>, row: seq<Interval>, sum: Interval) {
    && |v| == |row|
    && (forall i :: 0 <= i < |row| ==> Within(v[i], row[i]))
    && Within(Total(v), sum)
  }

  // The interval that the sum and the other coordinates leave to coordinate i.
  function Narrowed(row: seq<Interval>, i: nat, sum: Interval): Interval
    requires i < |row|
  {
    Interval(Larger(row[i].min, sum.min - (Maxs(row) - row[i].max)),
             Smaller(row[i].max, sum.max - (Mins(row) - row[i].min)))
  }

  lemma {:induction false} UpdateSums(row: seq<Interval>, i: nat, x: Interval)
    requires i < |row|
    ensures Mins(row[i := x]) == Mins(row) - row[i].min + x.min
    ensures Maxs(row[i := x]) == Maxs(row) - row[i].max + x.max
  {
    var n := |row| - 1;
    if i < n {
      UpdateSums(row[..n], i, x);
      assert row[i := x][..n] == row[..n][i := x];
    } else {
      assert row[i := x][..n] == row[..n];
    }
  }

  lemma {:induction false} TotalBetween(v: seq<real>, row: seq<Interval>)
    requires |v| == |row| && forall i :: 0 <= i < |row| ==> Within(v[i], row[i])
    ensures Mins(row) <= Total(v) <= Maxs(row)
  {
    if row != [] {
      TotalBetween(v[..|v| - 1], row[..|row| - 1]);
    }
  }

  // Narrowing a coordinate loses no solution, and adds none.
  lemma NarrowedKeeps(v: seq<real>, row: seq<Interval>, i: nat, sum: Interval)
    requires i < |row|
    ensures Solution(v, row, sum) <==> Solution(v, row[i := Narrowed(row, i, sum)], sum)
  {
    if Solution(v, row, sum) {
      var point := row[i := Interval(v[i], v[i])];
      UpdateSums(row, i, Interval(v[i], v[i]));
      TotalBetween(v, point);
    }
  }

  // A point of the box with a given total.
  function Fill(row: seq<Interval>, target: real): seq<real> {
    if row == [] then []
    else
      var rest, last := row[..|row| - 1], row[|row| - 1];
      var x := Smaller(last.max, target - Mins(rest));
      Fill(rest, target - x) + [x]
  }

  lemma {:induction false} FillFits(row: seq<Interval>, target: real)
    requires AllNonEmpty(row) && Mins(row) <= target <= Maxs(row)
    ensures |Fill(row, target)| == |row| && Total(Fill(row, target)) == target
    ensures forall i :: 0 <= i < |row| ==> Within(Fill(row, target)[i], row[i])
  {
    if row != [] {
      var rest, last := row[..|row| - 1], row[|row| - 1];
      var x := Smaller(last.max, target - Mins(rest));
      MinsBelowMaxs(rest);
      FillFits(rest, target - x);
      var v := Fill(row, target);
      assert v[..|v| - 1] == Fill(rest, target - x);
      assert forall i :: 0 <= i < |rest| ==> v[i] == Fill(rest, target - x)[i] && row[i] == rest[i];
    }
  }

  lemma {:induction false} MinsBelowMaxs(row: seq<Interval>)
    requires AllNonEmpty(row)
    ensures Mins(row) <= Maxs(row)
  {
    if row != [] { MinsBelowMaxs(row[..|row| - 1]); }
  }

  // There is a solution exactly when the sums of the bounds reach the sum.
  predicate Feasible(row: seq<Interval>, sum: Interval) {
    Mins(row) <= sum.max && sum.min <= Maxs(row)
  }

  lemma FeasibleMeansSolution(row: seq<Interval>, sum: Interval)
    requires AllNonEmpty(row) && NonEmpty(sum)
    ensures Feasible(row, sum) <==> exists v :: Solution(v, row, sum)
  {
    if Feasible(row, sum) {
      MinsBelowMaxs(row);
      FillFits(row, Larger(sum.min, Mins(row)));
      assert Solution(Fill(row, Larger(sum.min, Mins(row))), row, sum);
    }
    if v :| Solution(v, row, sum) {
      TotalBetween(v, row);
    }
  }

  // x is exactly the set of values, up to convexity, that coordinate i takes in the solutions:
  // the tightest interval around them.
  ghost predicate Projection(x: Interval, row: seq<Interval>, sum: Interval, i: nat)
    requires i < |row|
  {
    && (forall v :: Solution(v, row, sum) ==> Within(v[i], x))
    && (exists v :: Solution(v, row, sum) && v[i] == x.min)
    && (exists v :: Solution(v, row, sum) && v[i] == x.max)
  }

  lemma SolutionThrough(row: seq<Interval>, sum: Interval, i: nat, x: real) returns (v: seq<real>)
    requires AllNonEmpty(row) && NonEmpty(sum) && i < |row| && Feasible(row, sum)
    requires Within(x, Narrowed(row, i, sum))
    ensures Solution(v, row, sum) && v[i] == x
  {
    var fixed := row[i := Interval(x, x)];
    UpdateSums(row, i, Interval(x, x));
    MinsBelowMaxs(fixed);
    FillFits(fixed, Larger(sum.min, Mins(fixed)));
    v := Fill(fixed, Larger(sum.min, Mins(fixed)));
    assert Within(v[i], fixed[i]);
    assert forall j :: 0 <= j < |row| && j != i ==> Within(v[j], fixed[j]);
  }

  lemma NarrowedIsProjection(row: seq<Interval>, sum: Interval, i: nat)
    requires AllNonEmpty(row) && NonEmpty(sum) && i < |row| && Feasible(row, sum)
    ensures Projection(Narrowed(row, i, sum), row, sum, i) && NonEmpty(Narrowed(row, i, sum))
  {
    var x := Narrowed(row, i, sum);
    forall v | Solution(v, row, sum) ensures Within(v[i], x) {
      NarrowedKeeps(v, row, i, sum);
      assert Within(v[i], row[i := x][i]);
    }
    UpdateSums(row, i, Interval(0.0, 0.0));
    MinsBelowMaxs(row[i := Interval(0.0, 0.0)]);
    var low := SolutionThrough(row, sum, i, x.min);
    var high := SolutionThrough(row, sum, i, x.max);
  }

  lemma OneProjection(x: Interval, y: Interval, row: seq<Interval>, sum: Interval, i: nat)
    requires i < |row| && Projection(x, row, sum, i) && Projection(y, row, sum, i)
    ensures x == y
  {
  }

  ghost predicate SameSolutions(a: seq<Interval>, b: seq<Interval>, sum: Interval) {
    |a| == |b| && forall v :: Solution(v, a, sum) <==> Solution(v, b, sum)
  }

  // What one pass over the coordinates has done after n of them: nothing was lost, and they are
  // as tight as the solutions of the original box allow.
  ghost predicate Tightened(orig: seq<Interval>, row: seq<Interval>, sum: Interval, n: nat) {
    && SameSolutions(orig, row, sum)
    && n <= |orig|
    && AllNonEmpty(row)
    && forall i :: 0 <= i < n ==> Projection(row[i], orig, sum, i)
  }

  // An infeasible box is found out at its first coordinate.
  lemma InfeasibleIsEmpty(row: seq<Interval>, sum: Interval, i: nat)
    requires AllNonEmpty(row) && NonEmpty(sum) && i < |row|
    ensures NonEmpty(Narrowed(row, i, sum)) <==> Feasible(row, sum)
  {
    if Feasible(row, sum) {
      NarrowedIsProjection(row, sum, i);
    } else {
      MinsBelowMaxs(row);
    }
  }

  lemma SameFeasible(a: seq<Interval>, b: seq<Interval>, sum: Interval)
    requires AllNonEmpty(a) && AllNonEmpty(b) && NonEmpty(sum) && SameSolutions(a, b, sum)
    ensures Feasible(a, sum) <==> Feasible(b, sum)
  {
    FeasibleMeansSolution(a, sum);
    FeasibleMeansSolution(b, sum);
  }

  // Narrowing coordinate n makes it tight and keeps the others tight.
  lemma TightenNext(orig: seq<Interval>, row: seq<Interval>, sum: Interval, n: nat)
    requires AllNonEmpty(orig) && NonEmpty(sum) && n < |orig| && Feasible(orig, sum)
    requires Tightened(orig, row, sum, n)
    ensures NonEmpty(Narrowed(row, n, sum))
    ensures Tightened(orig, row[n := Narrowed(row, n, sum)], sum, n + 1)
  {
    hide Solution, Narrowed;
    var next := row[n := Narrowed(row, n, sum)];
    SameFeasible(orig, row, sum);
    NarrowedIsProjection(row, sum, n);
    forall v ensures Solution(v, next, sum) <==> Solution(v, row, sum) { NarrowedKeeps(v, row, n, sum); }
    assert SameSolutions(orig, next, sum);
    assert Projection(next[n], row, sum, n);
    SameProjection(row, orig, sum, n, next[n]);
  }

  lemma SameProjection(a: seq<Interval>, b: seq<Interval>, sum: Interval, i: nat, x: Interval)
    requires SameSolutions(a, b, sum) && i < |a| && Projection(x, a, sum, i)
    ensures Projection(x, b, sum, i)
  {
  }

  // A box that is tight everywhere does not change any more.
  lemma TightIsStable(orig: seq<Interval>, row: seq<Interval>, sum: Interval, i: nat)
    requires AllNonEmpty(orig) && NonEmpty(sum) && i < |orig| && Feasible(orig, sum)
    requires Tightened(orig, row, sum, |orig|)
    ensures Narrowed(row, i, sum) == row[i]
  {
    hide Solution, Narrowed;
    SameFeasible(orig, row, sum);
    NarrowedIsProjection(row, sum, i);
    SameProjection(row, orig, sum, i, Narrowed(row, i, sum));
    OneProjection(row[i], Narrowed(row, i, sum), orig, sum, i);
  }
}
