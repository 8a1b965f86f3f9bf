// Interval propagation: visits narrow the intervals of terms, and a queue holds the terms whose
// intervals changed.
module IntervalPropagate {

  import opened Options
  import opened Reals
  import opened AutodiffTerms
  import opened AutodiffDag
  import opened AutodiffValues
  import opened IntervalSum
  import opened IntervalRules
  import opened IntervalTerms
  import opened IntervalEffects

  lemma ChildIsOther(u: set<Term>, t: Term, i: nat)
    requires TermsOk(u) && t in u && t.Sum? && i < |t.terms|
    ensures t.terms[i] in u && t.terms[i].id != t.id
  {
    assert Children(t)[i] in u;
    assert t.terms[i] < t;
  }

  lemma RowOk(box: Box, u: set<Term>, t: Term)
    requires TermsOk(u) && BoxOk(box, u) && t in u && t.Sum?
    ensures t.id in box && NonEmpty(box[t.id])
    ensures forall i :: 0 <= i < |t.terms| ==> t.terms[i].id in box
    ensures AllNonEmpty(Row(box, t.terms))
  {
    TermsIn(u, t);
  }

  class RecursivePropagate {
    var box: Box
    var changed: seq<Term>
    var parents: map<nat, seq<Term>>
    ghost const universe: set<Term>

    ghost predicate Valid()
      reads this
    {
      && TermsOk(universe) && BoxOk(box, universe) && Queued(changed)
      && forall i :: i in parents ==> forall t :: t in parents[i] ==> t in universe
    }

    ghost predicate Queued(q: seq<Term>) {
      && (forall i :: 0 <= i < |q| ==> q[i] in universe)
      && forall i, j :: 0 <= i < j < |q| ==> q[i] != q[j]
    }

    constructor (box: Box, ghost universe: set<Term>)
      requires TermsOk(universe) && BoxOk(box, universe)
      ensures Valid() && this.box == box && this.universe == universe && changed == []
    {
      this.box := box;
      this.changed := [];
      this.parents := map[];
      this.universe := universe;
    }

    // Narrows the interval of t; a throw tells that it got empty.
    method UpdateInterval(t: Term, lo: Option<real>, hi: Option<real>) returns (ret: bool, thrown: bool)
      requires TermsOk(universe) && BoxOk(box, universe) && Implied(box, universe, t, lo, hi)
      modifies this`box
      ensures t.id in old(box) && box == old(box)[t.id := Cut(old(box)[t.id], lo, hi)]
      ensures Sound(old(box), box, universe, thrown)
      ensures thrown <==> !NonEmpty(box[t.id])
      ensures ret <==> box != old(box)
    {
      hide Implied, Sound, TermsOk;
      CutStep(box, universe, t, lo, hi);
      var i := box[t.id];
      ret := (lo.Some? && i.min < lo.value) || (hi.Some? && i.max > hi.value);
      if lo.Some? {
        i := Interval(Larger(i.min, lo.value), i.max);
      }
      if hi.Some? {
        i := Interval(i.min, Smaller(i.max, hi.value));
      }
      assert !ret ==> box[t.id := i] == box;
      box := box[t.id := i];
      thrown := i.min > i.max;
    }

    method AddToQueue(t: Term)
      requires Queued(changed) && t in universe
      modifies this`changed
      ensures old(changed) <= changed
      ensures Queued(changed) && changed == if t in old(changed) then old(changed) else old(changed) + [t]
    {
      if t !in changed {
        changed := changed + [t];
      }
    }

    // Queues the parents of t, and t.
    method AddChanged(t: Term)
      requires Valid() && t in universe
      modifies this`changed
      ensures Valid() && old(changed) <= changed && t in changed
      ensures t.id in parents ==> forall q :: q in parents[t.id] ==> q in changed
    {
      hide TermsOk, BoxOk;
      if t.id in parents {
        for i := 0 to |parents[t.id]|
          invariant Valid() && old(changed) <= changed
          invariant forall k :: 0 <= k < i ==> parents[t.id][k] in changed
        {
          ghost var before := changed;
          AddToQueue(parents[t.id][i]);
          assert forall q :: q in before ==> q in changed;
        }
      }
      ghost var before := changed;
      AddToQueue(t);
      assert forall q :: q in before ==> q in changed;
    }

    predicate ParentsQueued(t: Term)
      reads this`changed, this`parents
    {
      t in changed && (t.id in parents ==> forall q :: q in parents[t.id] ==> q in changed)
    }

    // UpwardPropagator: updates a term, and queues it and its parents on a change.
    method Raise(t: Term, lo: Option<real>, hi: Option<real>) returns (c: bool, thrown: bool)
      requires Valid() && Implied(box, universe, t, lo, hi)
      modifies this`box, this`changed
      ensures Sound(old(box), box, universe, thrown) && (!thrown ==> Valid())
      ensures t.id in old(box) && box == CutAt(old(box), t, Bounds(lo, hi)) && old(changed) <= changed
      ensures thrown <==> !NonEmpty(box[t.id])
      ensures c <==> box != old(box)
      ensures c && !thrown ==> ParentsQueued(t)
    {
      hide TermsOk, BoxOk, Sound;
      c, thrown := UpdateInterval(t, lo, hi);
      if !thrown {
        SoundOk(old(box), box, universe);
        if c {
          AddChanged(t);
        }
      }
    }

    // DownwardPropagator: updates an operand, and queues it on a change.
    method Lower(t: Term, lo: Option<real>, hi: Option<real>) returns (c: bool, thrown: bool)
      requires Valid() && Implied(box, universe, t, lo, hi)
      modifies this`box, this`changed
      ensures Sound(old(box), box, universe, thrown) && (!thrown ==> Valid())
      ensures t.id in old(box) && box == old(box)[t.id := Cut(old(box)[t.id], lo, hi)] && old(changed) <= changed
      ensures thrown <==> !NonEmpty(box[t.id])
      ensures c <==> box != old(box)
      ensures !thrown ==> Requeued(old(box), box, changed, universe)
    {
      hide BoxOk, Sound;
      c, thrown := UpdateInterval(t, lo, hi);
      if !thrown {
        SoundOk(old(box), box, universe);
        if c {
          AddToQueue(t);
        }
      }
    }

    // UpwardPropagator: narrows t by the intervals of its operands.
    method Up(t: Term) returns (c: bool, thrown: bool)
      requires Valid() && t in universe && RisesSoundly(t)
      modifies this`box, this`changed
      ensures Sound(old(box), box, universe, thrown) && (!thrown ==> Valid())
      ensures t.id in old(box) && KnowsOperands(old(box), t) && box == CutAt(old(box), t, UpBounds(old(box), t))
      ensures c <==> t.Variable? || box != old(box)
      ensures old(changed) <= changed
      ensures box != old(box) && !thrown ==> ParentsQueued(t)
      ensures thrown <==> !NonEmpty(box[t.id])
      ensures !thrown ==> Raised(old(box), box, t)
    {
      hide Implied, Sound, Mul, ProductBounds, MagnitudeBounds, PowerBounds, Row, Mins, Maxs;
      Operands(box, universe, t);
      NoBounds(box, t);
      c, thrown := false, false;
      ghost var start := box;
      SoundStays(box, universe);
      BoxCovers(box, universe);
      if t.Abs? {
        AbsUp(box, universe, t);
        var i := MagnitudeBounds(box[t.arg.id]);
        c, thrown := Raise(t, Some(i.min), Some(i.max));
      } else if t.ConstPower? {
        PowerUp(box, universe, t);
        var b := PowerBounds(box[t.base.id], t.exponent);
        if b.lo.Some? || b.hi.Some? {
          c, thrown := Raise(t, b.lo, b.hi);
        }
      } else if t.And? {
        AndUp(box, universe, t);
        if box[t.left.id].min > 0.0 && box[t.right.id].min > 0.0 {
          c, thrown := Raise(t, Some(1.0), Some(1.0));
        } else if box[t.left.id].max <= 0.0 || box[t.right.id].max <= 0.0 {
          c, thrown := Raise(t, None, Some(0.0));
        }
      } else if t.Or? {
        OrUp(box, universe, t);
        if box[t.left.id].min > 0.0 || box[t.right.id].min > 0.0 {
          c, thrown := Raise(t, Some(1.0), Some(1.0));
        } else if box[t.left.id].max <= 0.0 && box[t.right.id].max <= 0.0 {
          c, thrown := Raise(t, None, Some(0.0));
        }
      } else if t.LTConstraint? {
        ComparisonUp(box, universe, t);
        if box[t.left.id].max < box[t.right.id].min {
          c, thrown := Raise(t, Some(1.0), Some(1.0));
        } else if box[t.left.id].min >= box[t.right.id].max {
          c, thrown := Raise(t, None, Some(0.0));
        }
      } else if t.LTEConstraint? {
        ComparisonUp(box, universe, t);
        if box[t.left.id].max <= box[t.right.id].min {
          c, thrown := Raise(t, Some(1.0), Some(1.0));
        } else if box[t.left.id].min > box[t.right.id].max {
          c, thrown := Raise(t, None, Some(0.0));
        }
      } else if t.Max? || t.Min? {
        ExtremeUp(box, universe, t);
        var l, r := box[t.left.id], box[t.right.id];
        c, thrown := Raise(t, Some(Smaller(l.min, r.min)), Some(Larger(l.max, r.max)));
      } else if t.Product? {
        ProductUp(box, universe, t);
        var i := ProductBounds(box, t.left, t.right);
        c, thrown := Raise(t, Some(i.min), Some(i.max));
      } else if t.Sum? {
        SumUp(box, universe, t);
        var i := SumOfIntervals(t.terms);
        c, thrown := Raise(t, Some(i.min), Some(i.max));
      } else if t.Variable? {
        c := true;
      }
      if !thrown {
        RaisedHere(start, universe, t);
      }
    }

    // Adds up the intervals, from the last term to the first.
    method SumOfIntervals(ts: seq<Term>) returns (i: Interval)
      requires forall k :: 0 <= k < |ts| ==> ts[k].id in box
      ensures i == Interval(Mins(Row(box, ts)), Maxs(Row(box, ts)))
    {
      var min, max := 0.0, 0.0;
      ghost var row := Row(box, ts);
      var k := |ts|;
      assert row[..k] == row;
      while k > 0
        invariant 0 <= k <= |ts|
        invariant min + Mins(row[..k]) == Mins(row) && max + Maxs(row[..k]) == Maxs(row)
      {
        k := k - 1;
        assert row[..k + 1][..k] == row[..k];
        min := min + box[ts[k].id].min;
        max := max + box[ts[k].id].max;
      }
      i := Interval(min, max);
    }

    // The downward rule of t is sound here; that of a Max of numbers depends on the intervals.
    predicate Sinks(t: Term)
      reads this`box
    {
      SinksSoundly(t)
        || (t.Max? && t.id in box && t.left.id in box && t.right.id in box && MaxIsSafe(box, t))
    }

    // DownwardPropagator: narrows the operands of t.
    method Down(t: Term) returns (c: bool, thrown: bool)
      requires Valid() && t in universe && Sinks(t)
      modifies this`box, this`changed
      ensures Sound(old(box), box, universe, thrown) && (!thrown ==> Valid())
      ensures t.id in old(box) && KnowsOperands(old(box), t)
      ensures !thrown && !t.Sum? ==> box == DownBox(old(box), t)
      ensures !thrown && t.Sum? ==> KnowsOperands(box, t) && forall k :: 0 <= k < |t.terms| ==>
        Projection(Row(box, Children(t))[k], Row(old(box), Children(t)), old(box)[t.id], k)
      ensures old(changed) <= changed && (!thrown ==> Requeued(old(box), box, changed, universe))
      ensures !thrown ==> Lowered(old(box), box, t)
    {
      hide Implied, Sound, MaxIsSafe, Row, Mins, Maxs, TermsOk, BoxOk, Requeued;
      Operands(box, universe, t);
      c, thrown := false, false;
      SoundStays(box, universe);
      RequeuedStays(box, changed, universe);
      if t.Abs? {
        BoxCovers(box, universe);
        AbsDown(box, universe, t);
        c, thrown := Lower(t.arg, Some(-box[t.id].max), Some(box[t.id].max));
      } else if t.And? {
        c, thrown := DownAnd(t);
      } else if t.LTConstraint? || t.LTEConstraint? {
        c, thrown := DownComparison(t);
      } else if t.Max? {
        c, thrown := DownMax(t);
      } else if t.Min? {
        c, thrown := DownMin(t);
      } else if t.Product? {
        c, thrown := DownProduct(t);
      } else if t.Sum? {
        ghost var rounds;
        c, thrown, rounds := DownSum(t);
      }
      if !thrown {
        LoweredHere(old(box), box, universe, t);
      }
    }

    method DownAnd(t: Term) returns (c: bool, thrown: bool)
      requires Valid() && t in universe && t.And? && IsConstraint(t)
      modifies this`box, this`changed
      ensures Sound(old(box), box, universe, thrown) && (!thrown ==> Valid())
      ensures t.id in old(box) && KnowsOperands(old(box), t) && (!thrown ==> box == DownBox(old(box), t))
      ensures old(changed) <= changed && (!thrown ==> Requeued(old(box), box, changed, universe))
    {
      hide Implied, Sound, TermsOk, BoxOk, Requeued;
      Operands(box, universe, t);
      c, thrown := false, false;
      SoundStays(box, universe);
      RequeuedStays(box, changed, universe);
      BoxCovers(box, universe);
      if box[t.id].min > 0.0 {
        AndDown(box, universe, t);
        c, thrown := Lower(t.left, Some(1.0), Some(1.0));
        if !thrown {
          ghost var middle, queue := box, changed;
          ImpliedStays(old(box), box, universe, t.right, Some(1.0), Some(1.0));
          var d;
          d, thrown := Lower(t.right, Some(1.0), Some(1.0));
          c := c || d;
          SoundTwice(old(box), middle, box, universe, thrown);
          if !thrown { RequeuedTwice(old(box), middle, box, queue, changed, universe); }
        }
      }
    }

    method DownComparison(t: Term) returns (c: bool, thrown: bool)
      requires Valid() && t in universe && (t.LTConstraint? || t.LTEConstraint?) && t.steepness > 0.0
      modifies this`box, this`changed
      ensures Sound(old(box), box, universe, thrown) && (!thrown ==> Valid())
      ensures t.id in old(box) && KnowsOperands(old(box), t) && (!thrown ==> box == DownBox(old(box), t))
      ensures old(changed) <= changed && (!thrown ==> Requeued(old(box), box, changed, universe))
    {
      hide Implied, Sound, TermsOk, BoxOk, Requeued;
      Operands(box, universe, t);
      c, thrown := false, false;
      SoundStays(box, universe);
      RequeuedStays(box, changed, universe);
      BoxCovers(box, universe);
      ComparisonDown(box, universe, t);
      if box[t.id].min > 0.0 {
        c, thrown := Lower(t.right, Some(box[t.left.id].min), None);
        if !thrown {
          ghost var middle, queue := box, changed;
          StillPositive(old(box), box, universe, t);
          ComparisonDown(box, universe, t);
          var d;
          d, thrown := Lower(t.left, None, Some(box[t.right.id].max));
          c := c || d;
          SoundTwice(old(box), middle, box, universe, thrown);
          if !thrown { RequeuedTwice(old(box), middle, box, queue, changed, universe); }
        }
      } else if box[t.id].max <= 0.0 {
        c, thrown := Lower(t.right, None, Some(box[t.left.id].max));
        if !thrown {
          ghost var middle, queue := box, changed;
          StillPositive(old(box), box, universe, t);
          ComparisonDown(box, universe, t);
          var d;
          d, thrown := Lower(t.left, Some(box[t.right.id].min), None);
          c := c || d;
          SoundTwice(old(box), middle, box, universe, thrown);
          if !thrown { RequeuedTwice(old(box), middle, box, queue, changed, universe); }
        }
      }
    }

    // Why the rule of Max is sound where it is applied.
    lemma MaxStep(t: Term)
      requires Valid() && t in universe && t.Max? && Sinks(t)
      ensures t.left in universe && t.right in universe && t.id in box && t.left.id in box && t.right.id in box
      ensures box[t.id].min > 0.0 && box[t.left.id].max <= 0.0 ==> Implied(box, universe, t.right, Some(1.0), Some(1.0))
      ensures box[t.id].min > 0.0 && box[t.right.id].max <= 0.0 ==> Implied(box, universe, t.left, Some(1.0), Some(1.0))
    {
      hide Implied, IsConstraint;
      OperandsIn(universe, t);
      if box[t.id].min > 0.0 {
        if IsConstraint(t) {
          MaxDown(box, universe, t);
        } else {
          MaxOfNumbersDown(box, universe, t, t.left, t.right);
          MaxOfNumbersDown(box, universe, t, t.right, t.left);
        }
      }
    }

    method DownMax(t: Term) returns (c: bool, thrown: bool)
      requires Valid() && t in universe && t.Max? && Sinks(t)
      modifies this`box, this`changed
      ensures Sound(old(box), box, universe, thrown) && (!thrown ==> Valid())
      ensures t.id in old(box) && KnowsOperands(old(box), t) && (!thrown ==> box == DownBox(old(box), t))
      ensures old(changed) <= changed && (!thrown ==> Requeued(old(box), box, changed, universe))
    {
      hide Implied, Sound, TermsOk, BoxOk, Requeued;
      Operands(box, universe, t);
      c, thrown := false, false;
      SoundStays(box, universe);
      RequeuedStays(box, changed, universe);
      BoxCovers(box, universe);
      if box[t.id].min > 0.0 {
        MaxStep(t);
        if box[t.left.id].max <= 0.0 {
          c, thrown := Lower(t.right, Some(1.0), Some(1.0));
        }
        if !thrown {
          ghost var middle, queue := box, changed;
          StillPositive(old(box), box, universe, t);
          if box[t.right.id].max <= 0.0 {
            MaxStep(t);
            var d;
            d, thrown := Lower(t.left, Some(1.0), Some(1.0));
            c := c || d;
            SoundTwice(old(box), middle, box, universe, thrown);
            if !thrown { RequeuedTwice(old(box), middle, box, queue, changed, universe); }
          }
        }
      }
    }

    method DownMin(t: Term) returns (c: bool, thrown: bool)
      requires Valid() && t in universe && t.Min?
      modifies this`box, this`changed
      ensures Sound(old(box), box, universe, thrown) && (!thrown ==> Valid())
      ensures t.id in old(box) && KnowsOperands(old(box), t) && (!thrown ==> box == DownBox(old(box), t))
      ensures old(changed) <= changed && (!thrown ==> Requeued(old(box), box, changed, universe))
    {
      hide Implied, Sound, TermsOk, BoxOk, Requeued;
      Operands(box, universe, t);
      BoxCovers(box, universe);
      MinDown(box, universe, t);
      var least := box[t.id].min;
      var c1, c2 := false, false;
      c1, thrown := UpdateInterval(t.left, Some(least), None);
      if !thrown {
        ghost var middle := box;
        SoundOk(old(box), box, universe);
        ImpliedStays(old(box), box, universe, t.right, Some(least), None);
        c2, thrown := UpdateInterval(t.right, Some(box[t.id].min), None);
        SoundTwice(old(box), middle, box, universe, thrown);
        if !thrown {
          SoundOk(old(box), box, universe);
          if c1 { AddToQueue(t.left); }
          ghost var queue := changed;
          if c2 { AddToQueue(t.right); }
          assert t.left in queue ==> t.left in changed;
          RequeuedOne(old(box), middle, t.left, middle[t.left.id], changed, universe);
          RequeuedOne(middle, box, t.right, box[t.right.id], changed, universe);
          RequeuedTwice(old(box), middle, box, changed, changed, universe);
        }
      }
      c := c1 || c2;
    }

    method DownProduct(t: Term) returns (c: bool, thrown: bool)
      requires Valid() && t in universe && t.Product? && t.left.id != t.right.id
      modifies this`box, this`changed
      ensures Sound(old(box), box, universe, thrown) && (!thrown ==> Valid())
      ensures t.id in old(box) && KnowsOperands(old(box), t) && (!thrown ==> box == DownBox(old(box), t))
      ensures old(changed) <= changed && (!thrown ==> Requeued(old(box), box, changed, universe))
    {
      hide Implied, Sound, TermsOk, BoxOk, Mul, Quotients, SameSign, Requeued;
      Operands(box, universe, t);
      c, thrown := false, false;
      SoundStays(box, universe);
      RequeuedStays(box, changed, universe);
      BoxCovers(box, universe);
      ProductDown(box, universe, t);
      if SameSign(box[t.right.id]) {
        var q := Quotients(box[t.id], box[t.right.id]);
        c, thrown := Lower(t.left, Some(q.min), Some(q.max));
      }
      if !thrown {
        ghost var middle, queue := box, changed;
        BoxCovers(box, universe);
        ProductDown(box, universe, t);
        if SameSign(box[t.left.id]) {
          var q := Quotients(box[t.id], box[t.left.id]);
          var d;
          d, thrown := Lower(t.right, Some(q.min), Some(q.max));
          c := c || d;
          SoundTwice(old(box), middle, box, universe, thrown);
          if !thrown { RequeuedTwice(old(box), middle, box, queue, changed, universe); }
        }
      }
    }

    // The intervals of the other terms, added up.
    method Others(ts: seq<Term>, i: nat) returns (minother: real, maxother: real)
      requires i < |ts| && forall k :: 0 <= k < |ts| ==> ts[k].id in box
      ensures minother == Mins(Row(box, ts)) - box[ts[i].id].min
      ensures maxother == Maxs(Row(box, ts)) - box[ts[i].id].max
    {
      minother, maxother := 0.0, 0.0;
      ghost var row := Row(box, ts);
      for j := 0 to |ts|
        invariant minother == Mins(row[..j]) - (if i < j then row[i].min else 0.0)
        invariant maxother == Maxs(row[..j]) - (if i < j then row[i].max else 0.0)
      {
        assert row[..j + 1][..j] == row[..j];
        if i != j {
          minother := minother + box[ts[j].id].min;
          maxother := maxother + box[ts[j].id].max;
        }
      }
      assert row[..|ts|] == row;
    }

    // A round over the terms of a sum, at its term i.
    method SumTurn(t: Term, i: nat, ghost orig: seq<Interval>, ghost tight: bool) returns (c: bool, thrown: bool)
      requires Valid() && t in universe && t.Sum? && DistinctIds(t.terms) && AllNonEmpty(orig) && i < |t.terms| == |orig|
      requires t.id in box && NonEmpty(box[t.id]) && forall k :: 0 <= k < |t.terms| ==> t.terms[k].id in box
      requires Tightened(orig, Row(box, t.terms), box[t.id], if tight then |orig| else i)
      requires i == 0 && !tight ==> orig == Row(box, t.terms)
      requires i > 0 || tight ==> Feasible(orig, box[t.id])
      modifies this`box, this`changed
      ensures Sound(old(box), box, universe, thrown) && (!thrown ==> Valid())
      ensures t.id in box && box[t.id] == old(box)[t.id] && forall k :: 0 <= k < |t.terms| ==> t.terms[k].id in box
      ensures thrown <==> !Feasible(orig, box[t.id])
      ensures !thrown ==> Tightened(orig, Row(box, t.terms), box[t.id], if tight then |orig| else i + 1)
      ensures tight ==> !c
      ensures old(changed) <= changed && (!thrown ==> Requeued(old(box), box, changed, universe))
    {
      hide Implied, Sound, TermsOk, BoxOk, Tightened, Feasible, AllNonEmpty, Row, Mins, Maxs, Requeued;
      ghost var row, sum := Row(box, t.terms), box[t.id];
      RowLength(box, t.terms);
      BoxCovers(box, universe);
      SumDown(box, universe, t, i);
      ChildIsOther(universe, t, i);
      var minother, maxother := Others(t.terms, i);
      SumStep(orig, row, sum, i, tight);
      RowUpdated(box, t.terms, i, Narrowed(row, i, sum));
      c, thrown := Lower(t.terms[i], Some(box[t.id].min - maxother), Some(box[t.id].max - minother));
    }

    // One round over the terms of a sum.
    method SumPass(t: Term, ghost orig: seq<Interval>, ghost tight: bool) returns (c: bool, thrown: bool)
      requires Valid() && t in universe && t.Sum? && DistinctIds(t.terms) && AllNonEmpty(orig) && |orig| == |t.terms|
      requires t.id in box && NonEmpty(box[t.id]) && forall k :: 0 <= k < |t.terms| ==> t.terms[k].id in box
      requires if tight then Tightened(orig, Row(box, t.terms), box[t.id], |orig|) && Feasible(orig, box[t.id])
        else orig == Row(box, t.terms)
      modifies this`box, this`changed
      ensures Sound(old(box), box, universe, thrown) && (!thrown ==> Valid())
      ensures t.id in box && box[t.id] == old(box)[t.id] && forall k :: 0 <= k < |t.terms| ==> t.terms[k].id in box
      ensures thrown <==> |orig| > 0 && !Feasible(orig, box[t.id])
      ensures !thrown ==> Tightened(orig, Row(box, t.terms), box[t.id], |orig|)
      ensures (tight ==> !c) && (c ==> |orig| > 0)
      ensures old(changed) <= changed && (!thrown ==> Requeued(old(box), box, changed, universe))
    {
      hide Sound, TermsOk, BoxOk, Tightened, Feasible, AllNonEmpty, Row, Requeued;
      c, thrown := false, false;
      SoundStays(box, universe);
      RequeuedStays(box, changed, universe);
      ghost var sum := box[t.id];
      if !tight { NothingTightened(orig, sum); }
      for i := 0 to |t.terms|
        invariant Sound(old(box), box, universe, false) && Valid() && !thrown
        invariant t.id in box && box[t.id] == sum && forall k :: 0 <= k < |t.terms| ==> t.terms[k].id in box
        invariant Tightened(orig, Row(box, t.terms), sum, if tight then |orig| else i)
        invariant i == 0 && !tight ==> orig == Row(box, t.terms)
        invariant i > 0 || tight ==> Feasible(orig, sum)
        invariant (tight ==> !c) && (c ==> i > 0)
        invariant old(changed) <= changed && Requeued(old(box), box, changed, universe)
      {
        ghost var before, queue := box, changed;
        var d;
        d, thrown := SumTurn(t, i, orig, tight);
        SoundTwice(old(box), before, box, universe, thrown);
        if !thrown { RequeuedTwice(old(box), before, box, queue, changed, universe); }
        if thrown {
          return;
        }
        if d {
          c := true;
        }
      }
    }

    // Narrows the terms of a sum until nothing changes, which takes at most two rounds.
    method DownSum(t: Term) returns (anychange: bool, thrown: bool, ghost rounds: nat)
      requires Valid() && t in universe && t.Sum? && DistinctIds(t.terms)
      modifies this`box, this`changed
      ensures Sound(old(box), box, universe, thrown) && (!thrown ==> Valid())
      ensures t.id in old(box) && forall k :: 0 <= k < |t.terms| ==> t.terms[k].id in box && t.terms[k].id in old(box)
      ensures thrown <==> t.terms != [] && !Feasible(Row(old(box), t.terms), old(box)[t.id])
      ensures !thrown ==> forall k :: 0 <= k < |t.terms| ==>
        Projection(Row(box, t.terms)[k], Row(old(box), t.terms), old(box)[t.id], k)
      ensures rounds <= 2 && old(changed) <= changed && (!thrown ==> Requeued(old(box), box, changed, universe))
    {
      hide Sound, TermsOk, BoxOk, Feasible, AllNonEmpty, Row, Requeued;
      RowOk(box, universe, t);
      RowLength(box, t.terms);
      ghost var orig, sum := Row(box, t.terms), box[t.id];
      SoundStays(box, universe);
      RequeuedStays(box, changed, universe);
      anychange := false;
      thrown := false;
      var c := true;
      rounds := 0;
      while c
        invariant Sound(old(box), box, universe, false) && Valid()
        invariant t.id in box && box[t.id] == sum && forall k :: 0 <= k < |t.terms| ==> t.terms[k].id in box
        invariant rounds == 0 ==> c && orig == Row(box, t.terms)
        invariant rounds > 0 ==> Tightened(orig, Row(box, t.terms), sum, |orig|)
        invariant rounds > 0 && |orig| > 0 ==> Feasible(orig, sum)
        invariant rounds > 0 && c ==> |orig| > 0
        invariant rounds <= 2 && (rounds == 2 ==> !c)
        invariant old(changed) <= changed && Requeued(old(box), box, changed, universe)
        decreases 2 - rounds
      {
        ghost var before, queue := box, changed;
        c, thrown := SumPass(t, orig, rounds > 0);
        SoundTwice(old(box), before, box, universe, thrown);
        if !thrown { RequeuedTwice(old(box), before, box, queue, changed, universe); }
        if thrown {
          return;
        }
        rounds := rounds + 1;
        if c {
          anychange := true;
        }
      }
      RowLength(box, t.terms);
    }

    ghost predicate IsParent(t: Term, child: Term)
      reads this`parents
    {
      child.id in parents && t in parents[child.id]
    }

    ghost predicate KnownToOperands(t: Term)
      reads this`parents
    {
      forall k :: 0 <= k < |Children(t)| ==> IsParent(t, Children(t)[k])
    }

    // SetParents: records t as a parent of its operands.
    method SetParents(t: Term)
      requires Valid() && t in universe
      modifies this`parents
      ensures Valid() && Grown(old(parents), parents)
      ensures forall k :: 0 <= k < |Children(t)| ==> IsParent(t, Children(t)[k])
    {
      hide TermsOk, BoxOk;
      for i := 0 to |Children(t)|
        invariant Valid() && Grown(old(parents), parents)
        invariant forall k :: 0 <= k < i ==> IsParent(t, Children(t)[k])
      {
        var id := Children(t)[i].id;
        parents := parents[id := (if id in parents then parents[id] else []) + [t]];
      }
    }

    // Queues every term below t that has something to propagate.
    method Visit(t: Term)
      requires Valid() && t in universe
      modifies this`changed
      ensures Valid() && old(changed) <= changed
      ensures forall s :: s in Subterms(t) ==> s.Constant? || s.Zero? || s in changed
      ensures forall s :: s in changed ==> s in old(changed) || s in Active(t)
      decreases t
    {
      hide Subterms, TermsOk, BoxOk;
      ActiveSelf(t);
      if !t.Constant? && !t.Zero? {
        AddToQueue(t);
      }
      for i := 0 to |Children(t)|
        invariant Valid() && old(changed) <= changed && (t.Constant? || t.Zero? || t in changed)
        invariant forall s :: s in changed ==> s in old(changed) || s in Active(t)
        invariant forall k, s :: 0 <= k < i && s in Subterms(Children(t)[k]) ==> s.Constant? || s.Zero? || s in changed
      {
        ghost var before := changed;
        ChildIn(universe, t, i);
        ActiveBelow(t, i);
        Visit(Children(t)[i]);
        assert forall s :: s in before ==> s in changed;
      }
      forall s | s in Subterms(t) ensures s.Constant? || s.Zero? || s in changed {
        if s != t { BelowChild(t, s); }
      }
    }

    // Queues the terms below a term, and records the parents of their operands.
    method Prepare(term: Term)
      requires Valid() && term in universe
      modifies this`changed, this`parents
      ensures Valid() && |changed| <= |Active(term)| && forall t :: t in Active(term) ==> t in changed && KnownToOperands(t)
    {
      hide TermsOk, BoxOk, Active, Grown;
      changed := [];
      Visit(term);
      FirstQueue(term, changed);
      for i := 0 to |changed|
        invariant Valid()
        invariant forall j :: 0 <= j < i ==> KnownToOperands(changed[j])
        modifies this`parents
      {
        ghost var before := parents;
        SetParents(changed[i]);
        forall j | 0 <= j < i ensures KnownToOperands(changed[j]) {
          StillParent(before, parents, changed[j]);
        }
      }
    }

    // Propagates from a term, for at most a given number of turns of the queue. With a turn for
    // each term that is queued at first, all of them are visited.
    method Propagate(term: Term, turns: nat) returns (thrown: bool)
      requires Valid() && term in universe && forall t :: t in universe ==> SinksSoundly(t)
      modifies this`box, this`changed, this`parents
      ensures Sound(old(box), box, universe, thrown) && (!thrown ==> Valid())
      ensures forall t :: t in Active(term) ==> KnownToOperands(t)
      ensures turns >= |Active(term)| && !thrown ==> forall t :: t in Active(term) ==> Lowered(old(box), box, t)
      ensures turns >= |Active(term)| && !thrown ==> forall t :: t in Active(term) ==> Raised(old(box), box, t)
      ensures turns >= |Active(term)| && (exists t :: t in Active(term) && Hopeless(old(box), t)) ==> thrown
    {
      hide Sound, TermsOk, BoxOk, Active, Done, QueueLeft, KnownToOperands;
      thrown := false;
      Prepare(term);
      ghost var first, start := changed, box;
      SoundStays(box, universe);
      QueueBegins(first);
      for turn := 0 to turns
        invariant Sound(start, box, universe, false) && Valid() && !thrown
        modifies this`box, this`changed
        invariant QueueLeft(first, changed, turn)
        invariant forall j :: 0 <= j < turn && j < |first| ==> Done(start, box, first[j])
      {
        if changed == [] {
          QueueEmpty(first, turn);
          AllDone(term, start, first);
          return;
        }
        ghost var q := changed;
        thrown := Turn(start, first, turn);
        if thrown {
          return;
        }
        QueueTurns(first, q, changed, turn);
      }
      if turns >= |Active(term)| {
        AllDone(term, start, first);
      }
    }

    // A turn of the queue: its first term is visited downwards, then upwards.
    method Turn(ghost start: Box, ghost first: seq<Term>, ghost turn: nat) returns (thrown: bool)
      requires Valid() && changed != [] && (forall t :: t in universe ==> SinksSoundly(t))
      requires BoxOk(start, universe) && Sound(start, box, universe, false)
      requires forall j :: 0 <= j < |first| ==> first[j] in universe
      requires QueueLeft(first, changed, turn)
      requires forall j :: 0 <= j < turn && j < |first| ==> Done(start, box, first[j])
      modifies this`box, this`changed
      ensures Sound(start, box, universe, thrown) && (!thrown ==> Valid() && old(changed)[1..] <= changed)
      ensures !thrown ==> forall j :: 0 <= j < turn + 1 && j < |first| ==> Done(start, box, first[j])
    {
      hide Sound, TermsOk, BoxOk, Done, QueueLeft, Lowered, Raised, Shrinks, SinksSoundly;
      var cur := changed[0];
      changed := changed[1..];
      QueueTurns(first, old(changed), changed, turn);
      ghost var before := box;
      SinksRise(cur);
      var c;
      c, thrown := Down(cur);
      SoundTwice(start, before, box, universe, thrown);
      if thrown {
        return;
      }
      ghost var middle := box;
      c, thrown := Up(cur);
      SoundTwice(start, middle, box, universe, thrown);
      if thrown {
        return;
      }
      ClosedHere(universe);
      SoundShrinks(start, before, universe);
      SoundShrinks(start, middle, universe);
      SoundShrinks(middle, box, universe);
      SoundTwice(before, middle, box, universe, false);
      SoundShrinks(before, box, universe);
      VisitIsDone(start, before, middle, box, universe, cur);
      forall j | 0 <= j < turn + 1 && j < |first| ensures Done(start, box, first[j]) {
        if j < turn {
          DoneStays(start, before, box, universe, first[j]);
        }
      }
    }

    lemma FirstQueue(term: Term, first: seq<Term>)
      requires Queued(first) && (forall t :: t in first ==> t in Active(term))
      requires forall s :: s in Subterms(term) ==> s.Constant? || s.Zero? || s in first
      ensures |first| <= |Active(term)| && forall t :: t in Active(term) ==> t in first
    {
      hide Subterms;
      DistinctLength(first, Active(term));
    }

    lemma AllDone(term: Term, start: Box, first: seq<Term>)
      requires Valid() && BoxOk(start, universe) && Sound(start, box, universe, false)
      requires forall t :: t in Active(term) ==> t in first
      requires forall j :: 0 <= j < |first| ==> first[j] in universe && Done(start, box, first[j])
      ensures forall t :: t in Active(term) ==> Lowered(start, box, t) && Raised(start, box, t)
      ensures forall t :: t in Active(term) ==> !Hopeless(start, t)
    {
      hide Sound, BoxOk, Active, Lowered, Raised, Hopeless, Shrinks;
      SoundShrinks(start, box, universe);
      forall t | t in Active(term) ensures Done(start, box, t) && !Hopeless(start, t) {
        var j :| 0 <= j < |first| && first[j] == t;
        if Hopeless(start, t) {
          HopelessThrows(start, box, universe, t);
        }
      }
    }
  }

  // No parent is forgotten.
  predicate Grown(a: map<nat, seq<Term>>, b: map<nat, seq<Term>>) {
    forall i :: i in a ==> i in b && a[i] <= b[i]
  }

  lemma StillParent(a: map<nat, seq<Term>>, b: map<nat, seq<Term>>, t: Term)
    requires Grown(a, b) && forall k :: 0 <= k < |Children(t)| ==> Children(t)[k].id in a && t in a[Children(t)[k].id]
    ensures forall k :: 0 <= k < |Children(t)| ==> Children(t)[k].id in b && t in b[Children(t)[k].id]
  {
    forall k | 0 <= k < |Children(t)| ensures Children(t)[k].id in b && t in b[Children(t)[k].id] {
      var x := a[Children(t)[k].id];
      var j :| 0 <= j < |x| && x[j] == t;
      assert b[Children(t)[k].id][j] == t;
    }
  }

  lemma ClosedHere(u: set<Term>)
    requires TermsOk(u)
    ensures Closed(u)
  {
  }

  lemma SinksRise(t: Term)
    requires SinksSoundly(t)
    ensures RisesSoundly(t)
  {
  }

  lemma QueueBegins(first: seq<Term>)
    ensures QueueLeft(first, first, 0)
  {
  }

  lemma QueueEmpty(first: seq<Term>, turn: nat)
    requires QueueLeft(first, [], turn)
    ensures turn >= |first|
  {
  }

  lemma ActiveSelf(t: Term)
    ensures !t.Constant? && !t.Zero? ==> t in Active(t)
  {
  }

  lemma ActiveBelow(t: Term, i: nat)
    requires i < |Children(t)|
    ensures Active(Children(t)[i]) <= Active(t)
  {
    SubtermsBelow(t, i);
  }

  lemma SubtermsBelow(t: Term, i: nat)
    requires i < |Children(t)|
    ensures Subterms(Children(t)[i]) <= Subterms(t)
  {
    match t
    case Sum(_, ts) => AllBelow(ts, i);
    case _ =>
  }

  lemma {:induction false} AllBelow(ts: seq<Term>, i: nat)
    requires i < |ts|
    ensures Subterms(ts[i]) <= AllSubterms(ts)
  {
    if i < |ts| - 1 {
      AllBelow(ts[..|ts| - 1], i);
    }
  }

  lemma OperandsOther(u: set<Term>, box: Box, t: Term)
    requires TermsOk(u) && BoxOk(box, u) && t in u
    ensures Holding(box, t) && NonEmpty(box[t.id])
    ensures forall k :: 0 <= k < |Children(t)| ==> Children(t)[k].id != t.id && NonEmpty(box[Children(t)[k].id])
  {
    forall k | 0 <= k < |Children(t)| ensures Children(t)[k] in u && Children(t)[k].id != t.id {
      assert Children(t)[k] < t;
    }
  }

  lemma RaisedHere(box: Box, u: set<Term>, t: Term)
    requires TermsOk(u) && BoxOk(box, u) && t in u && RisesSoundly(t)
    requires KnowsOperands(box, t) && t.id in box && NonEmpty(CutAt(box, t, UpBounds(box, t))[t.id])
    ensures Raised(box, CutAt(box, t, UpBounds(box, t)), t)
  {
    OperandsOther(u, box, t);
    UpRaises(box, t);
  }

  lemma LoweredHere(before: Box, after: Box, u: set<Term>, t: Term)
    requires TermsOk(u) && BoxOk(before, u) && BoxOk(after, u) && t in u && KnowsOperands(before, t) && t.id in before
    requires t.Product? ==> t.left.id != t.right.id
    requires !t.Sum? ==> after == DownBox(before, t)
    requires t.Sum? ==> KnowsOperands(after, t) && forall k :: 0 <= k < |t.terms| ==>
      Projection(Row(after, Children(t))[k], Row(before, Children(t)), before[t.id], k)
    ensures Lowered(before, after, t)
  {
    hide DownBox, Lowered, Projection;
    OperandsOther(u, before, t);
    OperandsOther(u, after, t);
    if t.Sum? {
      SumLowers(before, after, t);
    } else {
      DownLowers(before, t);
    }
  }

  // Every term whose interval changed is in the queue.
  predicate Requeued(before: Box, after: Box, q: seq<Term>, u: set<Term>) {
    forall t :: t in u && t.id in before && t.id in after && after[t.id] != before[t.id] ==> t in q
  }

  lemma RequeuedStays(box: Box, q: seq<Term>, u: set<Term>)
    ensures Requeued(box, box, q, u)
  {
  }

  lemma RequeuedOne(before: Box, after: Box, t: Term, x: Interval, q: seq<Term>, u: set<Term>)
    requires TermsOk(u) && t in u && after == before[t.id := x] && (after != before ==> t in q)
    ensures Requeued(before, after, q, u)
  {
  }

  lemma RequeuedTwice(a: Box, b: Box, c: Box, q: seq<Term>, r: seq<Term>, u: set<Term>)
    requires Requeued(a, b, q, u) && Requeued(b, c, r, u) && q <= r && BoxOk(b, u)
    ensures Requeued(a, c, r, u)
  {
    assert forall t :: t in q ==> t in r;
  }

  lemma CutStep(box: Box, u: set<Term>, t: Term, lo: Option<real>, hi: Option<real>)
    requires TermsOk(u) && BoxOk(box, u) && Implied(box, u, t, lo, hi)
    ensures t.id in box
    ensures var cut := Cut(box[t.id], lo, hi); Sound(box, box[t.id := cut], u, !NonEmpty(cut))
  {
    CutIsSound(box, u, t, lo, hi);
  }

  lemma SoundOk(before: Box, after: Box, u: set<Term>)
    requires Sound(before, after, u, false)
    ensures BoxOk(after, u)
  {
  }

  lemma Operands(box: Box, u: set<Term>, t: Term)
    requires TermsOk(u) && BoxOk(box, u) && t in u
    ensures t.id in box && KnowsOperands(box, t)
    ensures t.Sum? ==> Children(t) == t.terms
  {
  }

  lemma BoxCovers(box: Box, u: set<Term>)
    requires BoxOk(box, u)
    ensures Covers(box, u)
  {
  }

  // Bounds that every point inside a box meets are met inside a box that lost no point.
  lemma ImpliedStays(before: Box, after: Box, u: set<Term>, t: Term, lo: Option<real>, hi: Option<real>)
    requires TermsOk(u) && Sound(before, after, u, false) && Implied(before, u, t, lo, hi)
    ensures Implied(after, u, t, lo, hi)
  {
    hide Value;
    forall p: Point | Inside(after, u, p) ensures Inside(before, u, p) {
    }
  }

  // A truth value that is decided stays decided.
  lemma StillPositive(before: Box, after: Box, u: set<Term>, t: Term)
    requires Sound(before, after, u, false) && t in u
    ensures Covers(before, u) && Covers(after, u)
    ensures before[t.id].min > 0.0 ==> after[t.id].min > 0.0
    ensures before[t.id].max <= 0.0 ==> after[t.id].max <= 0.0
  {
  }

  lemma RowLength(box: Box, ts: seq<Term>)
    requires forall k :: 0 <= k < |ts| ==> ts[k].id in box
    ensures |Row(box, ts)| == |ts| && forall k :: 0 <= k < |ts| ==> Row(box, ts)[k] == box[ts[k].id]
  {
  }

  lemma NothingTightened(row: seq<Interval>, sum: Interval)
    requires AllNonEmpty(row)
    ensures Tightened(row, row, sum, 0)
  {
  }

  // What a round does at operand i.
  lemma SumStep(orig: seq<Interval>, row: seq<Interval>, sum: Interval, i: nat, tight: bool)
    requires AllNonEmpty(orig) && NonEmpty(sum) && i < |orig|
    requires Tightened(orig, row, sum, if tight then |orig| else i)
    requires i == 0 && !tight ==> row == orig
    requires i > 0 || tight ==> Feasible(orig, sum)
    ensures |row| == |orig|
    ensures NonEmpty(Narrowed(row, i, sum)) <==> Feasible(orig, sum)
    ensures tight ==> Narrowed(row, i, sum) == row[i]
    ensures Feasible(orig, sum) ==>
      Tightened(orig, row[i := Narrowed(row, i, sum)], sum, if tight then |orig| else i + 1)
  {
    if tight {
      TightIsStable(orig, row, sum, i);
      assert row[i := row[i]] == row;
    } else if Feasible(orig, sum) {
      TightenNext(orig, row, sum, i);
    } else {
      InfeasibleIsEmpty(row, sum, i);
    }
  }

  lemma ChildIn(u: set<Term>, t: Term, i: nat)
    requires TermsOk(u) && t in u && i < |Children(t)|
    ensures Children(t)[i] in u && Children(t)[i] < t
  {
  }

  lemma BelowChild(t: Term, s: Term)
    requires s in Subterms(t) && s != t
    ensures exists k :: 0 <= k < |Children(t)| && s in Subterms(Children(t)[k])
  {
    match t
    case Sum(_, ts) =>
      AmongTerms(ts, s);
      var k :| 0 <= k < |ts| && s in Subterms(ts[k]);
      assert s in Subterms(Children(t)[k]);
    case ConstPower(_, b, _) => assert s in Subterms(Children(t)[0]);
    case Abs(_, a) => assert s in Subterms(Children(t)[0]);
    case Variable(_) =>
    case Constant(_, _) =>
    case Zero(_) =>
    case _ => assert s in Subterms(Children(t)[0]) || s in Subterms(Children(t)[1]);
  }

  lemma {:induction false} AmongTerms(ts: seq<Term>, s: Term)
    requires s in AllSubterms(ts)
    ensures exists k :: 0 <= k < |ts| && s in Subterms(ts[k])
  {
    var n := |ts| - 1;
    if s !in Subterms(ts[n]) {
      AmongTerms(ts[..n], s);
      var k :| 0 <= k < n && s in Subterms(ts[..n][k]);
      assert s in Subterms(ts[k]);
    }
  }
}
