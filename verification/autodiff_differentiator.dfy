// A term compiled to a tape: evaluation, and differentiation in reverse mode.
module AutodiffDifferentiator {

  import opened Calculus
  import opened Reals
  import opened AutodiffDag
  import opened AutodiffTerms
  import opened AutodiffValues
  import opened AutodiffDerivative
  import opened AutodiffTape
  import opened AutodiffCompiler
  import opened AutodiffSweeps

  function Position(variables: seq<nat>, id: nat): (i: nat)
    ensures i <= |variables| && (i < |variables| ==> variables[i] == id)
    ensures i == |variables| ==> id !in variables
  {
    if variables == [] then 0
    else if variables[0] == id then 0
    else 1 + Position(variables[1..], id)
  }

  // The point at which variables[i] is worth arg[i].
  function PointOf(variables: seq<nat>, arg: seq<real>): Point
    requires |variables| <= |arg|
  {
    (id: nat) => var i := Position(variables, id); if i < |variables| then arg[i] else 0.0
  }

  // The slots before n hold the values of their terms.
  ghost predicate Valued(tape: seq<TapeElement>, terms: seq<Term>, n: nat, w: Visitor, p: Point) {
    n <= |tape| <= |terms| && forall i :: 0 <= i < n ==> tape[i].value == Value(w, terms[i], p)
  }

  // The elements from slot m up to slot n carry the chain rule.
  ghost predicate Chained(tape: seq<TapeElement>, terms: seq<Term>, m: nat, n: nat, p: Point) {
    n <= |tape| <= |terms| && forall i :: m <= i < n ==> ChainRule(tape[i].inputs, terms[i], terms, p)
  }

  function WithWeight(e: TapeElement, k: nat, weight: real): TapeElement
    requires k < |e.inputs|
  {
    e.(inputs := e.inputs[k := e.inputs[k].(weight := weight)])
  }

  class CompiledDifferentiator {
    var tape: seq<TapeElement>
    const variables: seq<nat>
    ghost const terms: seq<Term>
    ghost const root: Term

    ghost predicate Valid()
      reads this`tape
    {
      && TapeOk(tape, terms)
      && |variables| < |terms| && terms[|terms| - 1] == root
      && (forall i :: 0 <= i < |terms| ==> (terms[i].Variable? <==> i < |variables|))
      && (forall i :: 0 <= i < |variables| ==> terms[i] == Variable(variables[i]))
      && (forall i, j :: 0 <= i < j < |terms| ==> terms[i].id != terms[j].id)
      && (WellTyped(root) ==> forall i :: 0 <= i < |terms| ==> WellTyped(terms[i]))
    }

    constructor (function_: Term, variables: seq<nat>, nextId: nat)
      requires Compilable(function_, variables, nextId)
      ensures Valid() && this.variables == variables && root == Compiled(function_, nextId)
    {
      hide Subterms, Closed, OneTermPerId, TapeOk, Indexed, Compilable;
      var f := Compiled(function_, nextId);
      ghost var universe := Universe(function_, variables, nextId);
      UniverseFits(function_, variables, nextId);
      var compiler := new Compiler(variables, universe);
      ghost var start := compiler.terms;
      RootApart(start, variables, compiler.indexOf, f);
      var index := compiler.Compile(f);
      this.tape := compiler.tape;
      this.variables := variables;
      this.terms := compiler.terms;
      this.root := f;
      Layout(start, compiler.terms, variables, compiler.indexOf);
      UniverseWellTyped(function_, variables, nextId, compiler.terms);
    }

    function ValueOf(index: nat): real
      requires index < |tape|
      reads this`tape
    {
      tape[index].value
    }

    method SetValue(i: nat, value: real)
      requires i < |tape|
      modifies this`tape
      ensures tape == old(tape)[i := old(tape)[i].(value := value)]
    {
      tape := tape[i := tape[i].(value := value)];
    }

    // Adds up the operands of a sum, in order.
    method SumUp(i: nat, w: Visitor, ghost p: Point)
      requires Valid() && i < |tape| && tape[i].op.CompiledSum? && Valued(tape, terms, i, w, p)
      modifies this`tape
      ensures Valid()
      ensures tape == old(tape)[i := old(tape)[i].(value := Value(w, terms[i], p))]
    {
      hide Value, TapeOk;
      SumOperands(tape, terms, i);
      var operands := tape[i].op.terms;
      ghost var ts := terms[i].terms;
      ghost var before := tape;
      SetValue(i, 0.0);
      for k := 0 to |operands|
        invariant tape == before[i := before[i].(value := SumValue(w, ts[..k], p))]
      {
        assert Refers(operands[k], ts[k], terms, i);
        assert ts[..k + 1][..k] == ts[..k];
        SetValue(i, ValueOf(i) + ValueOf(operands[k]));
      }
      assert ts[..|operands|] == ts;
      ValueOfSum(w, terms[i], p);
      ValueKeepsTape(before, terms, i, Value(w, terms[i], p));
    }

    // EvalVisitor on the element in slot i.
    method EvalVisit(i: nat, ghost p: Point)
      requires Valid() && |variables| <= i < |tape| && Valued(tape, terms, i, Eval, p)
      modifies this`tape
      ensures Valid()
      ensures tape == old(tape)[i := old(tape)[i].(value := Value(Eval, terms[i], p))]
    {
      hide TapeOk, Value, AndValue, OrValue, LTValue, LTEValue, UtilityValue, Mul, Pow;
      ghost var t := terms[i];
      ghost var before := tape;
      Operands(tape, terms, i);
      var x: real;
      match tape[i].op {
        case CompiledVariable =>
          assert false;
        case CompiledConstant =>
          LeafValue(Eval, t, p);
          return;
        case CompiledSum(_) =>
          SumUp(i, Eval, p);
          return;
        case CompiledConstPower(b, e) =>
          x := Pow(ValueOf(b), e);
          PowerValue(Eval, t, p);
        case CompiledAbs(a) =>
          x := Magnitude(ValueOf(a));
          AbsValue(Eval, t, p);
        case CompiledProduct(l, r) =>
          x := Mul(ValueOf(l), ValueOf(r));
        case CompiledMax(l, r) =>
          x := Larger(ValueOf(l), ValueOf(r));
        case CompiledMin(l, r) =>
          x := Smaller(ValueOf(l), ValueOf(r));
        case CompiledAnd(l, r) =>
          if ValueOf(l) > 0.75 { x := ValueOf(r); }
          else if ValueOf(r) > 0.75 { x := ValueOf(l); }
          else { x := ValueOf(l) + ValueOf(r); }
          EvalConnectives(ValueOf(l), ValueOf(r));
        case CompiledOr(l, r) =>
          if ValueOf(l) > 0.75 { x := ValueOf(l); }
          else if ValueOf(r) > 0.75 { x := ValueOf(r); }
          else { x := ValueOf(l) + ValueOf(r); }
          EvalConnectives(ValueOf(l), ValueOf(r));
        case CompiledLTConstraint(l, r, s) =>
          x := if ValueOf(l) < ValueOf(r) then 1.0 else Mul(s, ValueOf(r) - ValueOf(l));
          EvalComparisons(ValueOf(l), ValueOf(r), s);
        case CompiledLTEConstraint(l, r, s) =>
          x := if ValueOf(l) < ValueOf(r) then 1.0 else Mul(s, ValueOf(r) - ValueOf(l));
          EvalComparisons(ValueOf(l), ValueOf(r), s);
        case CompiledConstraintUtility(c, u) =>
          x := if ValueOf(c) < 0.999 then ValueOf(c) else Mul(ValueOf(c), ValueOf(u));
          EvalUtility(ValueOf(c), ValueOf(u));
      }
      if |Children(t)| == 2 { PairValue(Eval, t, p); }
      SetValue(i, x);
      ValueKeepsTape(before, terms, i, x);
    }

    // ForwardSweepVisitor on the element in slot i.
    method ForwardVisit(i: nat, ghost p: Point)
      requires Valid() && |variables| <= i < |tape| && Valued(tape, terms, i, Forward, p)
      requires WellTyped(terms[i])
      modifies this`tape
      ensures Valid() && |tape| == |old(tape)| && tape == old(tape)[i := tape[i]]
      ensures tape[i].value == Value(Forward, terms[i], p)
      ensures ChainRule(tape[i].inputs, terms[i], terms, p)
    {
      hide TapeOk, Value, Mul, Pow, ChainRule, WellTyped;
      Operands(tape, terms, i);
      match tape[i].op {
        case CompiledVariable =>
          assert false;
        case CompiledConstant =>
          LeafValue(Forward, terms[i], p);
          LeafChain(terms[i], terms, p);
          assert tape[i].inputs == [];
        case CompiledSum(_) =>
          ForwardSum(i, p);
        case CompiledConstPower(_, _) =>
          ForwardPower(i, p);
        case CompiledAbs(_) =>
          AbsIsNotWellTyped(terms[i]);
          assert false;
        case _ =>
          ForwardPair(i, p);
      }
    }

    method ForwardSum(i: nat, ghost p: Point)
      requires Valid() && i < |tape| && Valued(tape, terms, i, Forward, p) && tape[i].op.CompiledSum?
      modifies this`tape
      ensures Valid() && |tape| == |old(tape)| && tape == old(tape)[i := tape[i]]
      ensures tape[i].value == Value(Forward, terms[i], p)
      ensures ChainRule(tape[i].inputs, terms[i], terms, p)
    {
      hide TapeOk, Value, ChainRule;
      SumOperands(tape, terms, i);
      Operands(tape, terms, i);
      SumUp(i, Forward, p);
      ghost var summed := tape;
      for k := 0 to |tape[i].inputs|
        invariant |tape| == |summed| && tape == summed[i := tape[i]]
        invariant tape[i].op == summed[i].op && tape[i].value == summed[i].value && Wired(tape[i])
        invariant forall j :: 0 <= j < k ==> tape[i].inputs[j].weight == 1.0
      {
        tape := tape[i := WithWeight(tape[i], k, 1.0)];
      }
      SumChain(tape[i].inputs, terms[i], terms, p);
      WeightsKeepTape(summed, terms, i, tape[i]);
    }

    method ForwardPower(i: nat, ghost p: Point)
      requires Valid() && i < |tape| && Valued(tape, terms, i, Forward, p) && tape[i].op.CompiledConstPower?
      requires WellTyped(terms[i])
      modifies this`tape
      ensures Valid() && |tape| == |old(tape)| && tape == old(tape)[i := tape[i]]
      ensures tape[i].value == Value(Forward, terms[i], p)
      ensures ChainRule(tape[i].inputs, terms[i], terms, p)
    {
      hide TapeOk, Value, Mul, ChainRule;
      Operands(tape, terms, i);
      var elem := tape[i];
      var baseVal, exponent := ValueOf(elem.op.base), elem.op.exponent;
      var r := Pow(baseVal, exponent - 1);
      elem := elem.(value := Mul(r, baseVal));
      elem := WithWeight(elem, 0, Mul(exponent as real, r));
      PowerValue(Forward, terms[i], p);
      Commutes(r, baseVal);
      PowerChain(elem.inputs, terms[i], terms, p);
      WeightsKeepTape(tape, terms, i, elem);
      tape := tape[i := elem];
    }

    // The visitor's cases for elements with two operands.
    method ForwardPair(i: nat, ghost p: Point)
      requires Valid() && i < |tape| && Valued(tape, terms, i, Forward, p)
      requires WellTyped(terms[i]) && |Children(terms[i])| == 2 && !terms[i].Sum?
      modifies this`tape
      ensures Valid() && |tape| == |old(tape)| && tape == old(tape)[i := tape[i]]
      ensures tape[i].value == Value(Forward, terms[i], p)
      ensures ChainRule(tape[i].inputs, terms[i], terms, p)
    {
      hide TapeOk, Value, ChainRule, WellTyped, PairOf, PairWeights;
      Operands(tape, terms, i);
      var elem := tape[i];
      var left, right := ValueOf(OperandsOf(elem.op)[0]), ValueOf(OperandsOf(elem.op)[1]);
      elem := PairVisit(elem, left, right, terms[i]);
      PairValue(Forward, terms[i], p);
      PairChain(elem.inputs, terms[i], terms, p);
      WeightsKeepTape(tape, terms, i, elem);
      tape := tape[i := elem];
    }

    // Gives the variables their values.
    method Load(arg: seq<real>, ghost w: Visitor)
      requires Valid() && |variables| <= |arg|
      modifies this`tape
      ensures Valid() && |tape| == |old(tape)|
      ensures Valued(tape, terms, |variables|, w, PointOf(variables, arg))
    {
      hide TapeOk, Value, PointOf;
      ghost var p := PointOf(variables, arg);
      TapeLength(tape, terms);
      for i := 0 to |variables|
        invariant Valid() && |tape| == |old(tape)| && Valued(tape, terms, i, w, p)
      {
        VariableSlot(tape, terms, i);
        ValueKeepsTape(tape, terms, i, arg[i]);
        ArgumentAt(w, variables, arg, i);
        SetValue(i, arg[i]);
      }
    }

    method EvaluateTape(arg: seq<real>)
      requires Valid() && |variables| <= |arg|
      modifies this`tape
      ensures Valid() && Valued(tape, terms, |tape|, Eval, PointOf(variables, arg))
    {
      hide TapeOk, Value, PointOf;
      Load(arg, Eval);
      TapeLength(tape, terms);
      for i := |variables| to |tape|
        invariant Valid() && |tape| == |terms| && Valued(tape, terms, i, Eval, PointOf(variables, arg))
      {
        EvalVisit(i, PointOf(variables, arg));
      }
    }

    method ForwardSweep(arg: seq<real>)
      requires Valid() && |variables| <= |arg| && WellTyped(root)
      modifies this`tape
      ensures Valid() && Valued(tape, terms, |tape|, Forward, PointOf(variables, arg))
      ensures Chained(tape, terms, |variables|, |tape|, PointOf(variables, arg))
    {
      hide TapeOk, Value, PointOf, ChainRule, WellTyped;
      ghost var p := PointOf(variables, arg);
      Load(arg, Forward);
      TapeLength(tape, terms);
      for i := |variables| to |tape|
        invariant Valid() && |tape| == |terms| && Valued(tape, terms, i, Forward, p)
        invariant Chained(tape, terms, |variables|, i, p)
      {
        ghost var before := tape;
        ForwardVisit(i, p);
        assert forall j :: 0 <= j < i ==> tape[j] == before[j];
      }
    }

    method ReverseSweep(ghost p: Point)
      requires Valid() && Chained(tape, terms, |variables|, |tape|, p)
      modifies this`tape
      ensures Valid() && SameButAdjoints(old(tape), tape)
      ensures Accounted(Adjoints(tape), terms, |variables|, root, p)
    {
      hide TapeOk, ChainRule, Accounted, Passed;
      ghost var before := tape;
      TapeLength(tape, terms);
      SetAdjoint(|tape| - 1, 1.0);
      for i := 0 to |tape| - 1
        invariant SameButAdjoints(before, tape)
        invariant tape[|tape| - 1].adjoint == 1.0 && forall j :: 0 <= j < i ==> tape[j].adjoint == 0.0
      {
        SetAdjoint(i, 0.0);
      }
      StartAccounted(Adjoints(tape), terms, p);
      for i := |tape| downto |variables|
        invariant SameButAdjoints(before, tape)
        invariant Accounted(Adjoints(tape), terms, i, root, p)
      {
        AdjointsKeepTape(before, tape, terms);
        ghost var adjoints := Adjoints(tape);
        PassAdjoint(i, p);
        assert ChainRule(before[i].inputs, terms[i], terms, p);
        StillAccounted(adjoints, Adjoints(tape), before[i].inputs, terms, i, root, p);
      }
      AdjointsKeepTape(before, tape, terms);
    }

    method SetAdjoint(i: nat, adjoint: real)
      requires i < |tape|
      modifies this`tape
      ensures tape == old(tape)[i := old(tape)[i].(adjoint := adjoint)]
    {
      tape := tape[i := tape[i].(adjoint := adjoint)];
    }

    // Passes the adjoint of slot i on to its operands.
    method PassAdjoint(i: nat, ghost p: Point)
      requires TapeOk(tape, terms) && i < |tape|
      modifies this`tape
      ensures SameButAdjoints(old(tape), tape)
      ensures Passed(Adjoints(old(tape)), Adjoints(tape), old(tape)[i].inputs, old(tape)[i].adjoint, terms, i, p)
    {
      hide TapeOk, Passed, Mul;
      ghost var before := tape;
      EdgesPointBack(tape, terms, i);
      var inputs := tape[i].inputs;
      var adjoint := tape[i].adjoint;
      PassNothing(Adjoints(tape), adjoint, terms, i, p);
      assert inputs[..0] == [];
      for j := 0 to |inputs|
        invariant SameButAdjoints(before, tape)
        invariant Passed(Adjoints(before), Adjoints(tape), inputs[..j], adjoint, terms, i, p)
      {
        var k := inputs[j].index;
        PassOne(Adjoints(before), Adjoints(tape), inputs[..j], inputs[j], adjoint, terms, i, p);
        assert inputs[..j] + [inputs[j]] == inputs[..j + 1];
        ghost var after := Adjoints(tape)[k := Adjoints(tape)[k] + Mul(adjoint, inputs[j].weight)];
        SetAdjoint(k, tape[k].adjoint + Mul(adjoint, inputs[j].weight));
        assert Adjoints(tape) == after;
      }
      assert inputs[..|inputs|] == inputs;
    }

    // The value of the function at arg.
    method Evaluate(arg: seq<real>) returns (value: real)
      requires Valid() && |variables| <= |arg|
      modifies this`tape
      ensures Valid() && value == Value(Eval, root, PointOf(variables, arg))
    {
      hide TapeOk, Value, PointOf;
      EvaluateTape(arg);
      TapeLength(tape, terms);
      value := tape[|tape| - 1].value;
    }

    // The gradient at arg, one partial derivative per variable, and the value at arg.
    method Differentiate(arg: seq<real>) returns (gradient: seq<real>, value: real)
      requires Valid() && |variables| <= |arg| && WellTyped(root)
      modifies this`tape
      ensures Valid() && value == Value(Forward, root, PointOf(variables, arg))
      ensures |gradient| == |variables|
      ensures forall i :: 0 <= i < |variables| ==> gradient[i] == Partial(root, variables[i], PointOf(variables, arg))
      ensures Smooth(root, PointOf(variables, arg)) ==>
        forall i :: 0 <= i < |variables| ==> HasDerivative(Line(root, variables[i], PointOf(variables, arg)), gradient[i])
      ensures value == Value(Eval, root, PointOf(variables, arg)) <==> Agreement(root, PointOf(variables, arg))
    {
      hide TapeOk, Value, PointOf, Partial, ChainRule, Accounted, WellTyped, Smooth, Agreement, HasDerivative, Line;
      ghost var p := PointOf(variables, arg);
      ForwardSweep(arg);
      TapeLength(tape, terms);
      ReverseSweep(p);
      TapeLength(tape, terms);
      gradient := [];
      for i := 0 to |variables|
        modifies {}
        invariant |gradient| == i && forall j :: 0 <= j < i ==> gradient[j] == Partial(root, variables[j], p)
      {
        AccountedVariable(Adjoints(tape), terms, |variables|, root, p, i);
        gradient := gradient + [tape[i].adjoint];
      }
      value := tape[|tape| - 1].value;
      GradientIsTheDerivative(root, variables, gradient, p);
      SweepsAgree(root, p);
    }
  }

  lemma GradientIsTheDerivative(root: Term, variables: seq<nat>, gradient: seq<real>, p: Point)
    requires WellTyped(root) && |gradient| == |variables|
    requires forall i :: 0 <= i < |variables| ==> gradient[i] == Partial(root, variables[i], p)
    ensures Smooth(root, p) ==>
      forall i :: 0 <= i < |variables| ==> HasDerivative(Line(root, variables[i], p), gradient[i])
  {
    hide WellTyped, Smooth, HasDerivative, Line, Partial;
    if Smooth(root, p) {
      forall i | 0 <= i < |variables| ensures HasDerivative(Line(root, variables[i], p), gradient[i]) {
        PartialIsTheDerivative(root, variables[i], p, gradient[i]);
      }
    }
  }

  function Adjoints(tape: seq<TapeElement>): seq<real> {
    seq(|tape|, i requires 0 <= i < |tape| => tape[i].adjoint)
  }

  ghost predicate SameButAdjoints(before: seq<TapeElement>, after: seq<TapeElement>) {
    |after| == |before| && forall i :: 0 <= i < |before| ==> after[i] == before[i].(adjoint := after[i].adjoint)
  }

  lemma AdjointsKeepTape(before: seq<TapeElement>, after: seq<TapeElement>, terms: seq<Term>)
    requires TapeOk(before, terms) && SameButAdjoints(before, after)
    ensures TapeOk(after, terms)
  {
    forall i | 0 <= i < |after| ensures StandsFor(after[i], terms[i], terms, i) {
      assert StandsFor(before[i], terms[i], terms, i);
    }
  }

  lemma TapeLength(tape: seq<TapeElement>, terms: seq<Term>)
    requires TapeOk(tape, terms)
    ensures |tape| == |terms|
  {
  }

  lemma VariableSlot(tape: seq<TapeElement>, terms: seq<Term>, i: nat)
    requires TapeOk(tape, terms) && i < |tape| && terms[i].Variable?
    ensures !tape[i].op.CompiledConstant?
  {
    assert StandsFor(tape[i], terms[i], terms, i);
  }

  lemma EdgesPointBack(tape: seq<TapeElement>, terms: seq<Term>, i: nat)
    requires TapeOk(tape, terms) && i < |tape|
    ensures |tape| == |terms| && forall j :: 0 <= j < |tape[i].inputs| ==> tape[i].inputs[j].index < i
  {
    assert StandsFor(tape[i], terms[i], terms, i);
    forall j | 0 <= j < |tape[i].inputs| ensures tape[i].inputs[j].index < i {
      assert Refers(OperandsOf(tape[i].op)[j], Children(terms[i])[j], terms, i);
    }
  }

  lemma ArgumentAt(w: Visitor, variables: seq<nat>, arg: seq<real>, i: nat)
    requires |variables| <= |arg| && i < |variables|
    requires forall i, j :: 0 <= i < j < |variables| ==> variables[i] != variables[j]
    ensures Value(w, Variable(variables[i]), PointOf(variables, arg)) == arg[i]
  {
    assert Position(variables, variables[i]) == i;
  }

  // An element with its value and the weights of its two inputs.
  function Pass(e: TapeElement, value: real, w0: real, w1: real): TapeElement
    requires |e.inputs| == 2
  {
    WithWeight(WithWeight(e.(value := value), 0, w0), 1, w1)
  }

  // The forward visit of an element with two operands, worth left and right.
  method PairVisit(element: TapeElement, left: real, right: real, ghost t: Term) returns (elem: TapeElement)
    requires |Children(t)| == 2 && !t.Sum? && SameKind(element.op, t) && Wired(element)
    ensures elem.op == element.op && Wired(elem)
    ensures elem.value == PairOf(Forward, t, left, right)
    ensures PairWeights(t, left, right, elem.inputs[0].weight, elem.inputs[1].weight)
  {
    hide Mul;
    elem := element;
    match elem.op {
      case CompiledProduct(_, _) =>
        elem := Pass(elem, Mul(left, right), right, left);
      case CompiledMax(_, _) =>
        elem := if left > right then Pass(elem, left, 1.0, 0.0) else Pass(elem, right, 0.0, 1.0);
      case CompiledMin(_, _) =>
        elem := if left < right then Pass(elem, left, 1.0, 0.0) else Pass(elem, right, 0.0, 1.0);
      case CompiledAnd(_, _) =>
        if left > 0.75 && right > 0.75 {
          elem := Pass(elem, 1.0, 0.0, 0.0);
        } else {
          elem := elem.(value := 0.0);
          if left <= 0.0 {
            elem := WithWeight(elem.(value := elem.value + left), 0, 1.0);
          }
          if right <= 0.0 {
            elem := WithWeight(elem.(value := elem.value + right), 1, 1.0);
          }
        }
      case CompiledOr(_, _) =>
        if left > 0.75 || right > 0.75 {
          elem := Pass(elem, 1.0, 0.0, 0.0);
        } else {
          elem := elem.(value := 0.0);
          if left <= 0.0 {
            elem := WithWeight(elem.(value := elem.value + left), 0, 1.0);
          } else {
            elem := WithWeight(elem, 0, 0.0);
          }
          if right <= 0.0 {
            elem := WithWeight(elem.(value := elem.value + right), 1, 1.0);
          } else {
            elem := WithWeight(elem, 1, 0.0);
          }
        }
      case CompiledLTConstraint(_, _, s) =>
        elem := if left < right then Pass(elem, 1.0, 0.0, 0.0) else Pass(elem, Mul(s, right - left), -s, s);
      case CompiledLTEConstraint(_, _, s) =>
        elem := if left <= right then Pass(elem, 1.0, 0.0, 0.0) else Pass(elem, Mul(s, right - left), -s, s);
      case CompiledConstraintUtility(_, _) =>
        elem := if left > 0.0 then Pass(elem, right, 0.0, 1.0) else Pass(elem, left, 1.0, 0.0);
    }
  }

  lemma WeightsKeepTape(tape: seq<TapeElement>, terms: seq<Term>, i: nat, e: TapeElement)
    requires TapeOk(tape, terms) && i < |tape| && e.op == tape[i].op && Wired(e)
    requires tape[i].op.CompiledConstant? ==> e.value == tape[i].value
    ensures TapeOk(tape[i := e], terms)
  {
    var after := tape[i := e];
    forall j | 0 <= j < |after| ensures StandsFor(after[j], terms[j], terms, j) {
      assert StandsFor(tape[j], terms[j], terms, j);
    }
  }

  // The first operands of the element in slot i are in earlier slots.
  lemma Operands(tape: seq<TapeElement>, terms: seq<Term>, i: nat)
    requires TapeOk(tape, terms) && i < |tape|
    ensures |tape| == |terms| && SameKind(tape[i].op, terms[i]) && Wired(tape[i])
    ensures var ops, ts := OperandsOf(tape[i].op), Children(terms[i]);
      && |ops| == |ts|
      && (|ts| > 0 ==> ops[0] < i && terms[ops[0]] == ts[0])
      && (|ts| > 1 ==> ops[1] < i && terms[ops[1]] == ts[1])
    ensures tape[i].op.CompiledConstant? ==> tape[i].value == ConstantValue(terms[i])
  {
    assert StandsFor(tape[i], terms[i], terms, i);
    var ops, ts := OperandsOf(tape[i].op), Children(terms[i]);
    assert |ts| > 0 ==> Refers(ops[0], ts[0], terms, i);
    assert |ts| > 1 ==> Refers(ops[1], ts[1], terms, i);
  }

  lemma LeafValue(w: Visitor, t: Term, p: Point)
    requires t.Constant? || t.Zero?
    ensures Value(w, t, p) == ConstantValue(t)
  {
  }

  lemma PowerValue(w: Visitor, t: Term, p: Point)
    requires t.ConstPower?
    ensures Value(w, t, p) == Pow(Value(w, t.base, p), t.exponent)
  {
  }

  lemma AbsValue(w: Visitor, t: Term, p: Point)
    requires t.Abs?
    ensures Value(w, t, p) == Magnitude(Value(w, t.arg, p))
  {
  }

  lemma AbsIsNotWellTyped(t: Term)
    requires t.Abs?
    ensures !WellTyped(t)
  {
  }

  function PairOf(w: Visitor, t: Term, l: real, r: real): real
    requires |Children(t)| == 2 && !t.Sum?
  {
    match t
    case Product(_, _, _) => Mul(l, r)
    case Max(_, _, _) => Larger(l, r)
    case Min(_, _, _) => Smaller(l, r)
    case And(_, _, _) => AndValue(w, l, r)
    case Or(_, _, _) => OrValue(w, l, r)
    case LTConstraint(_, _, _, s) => LTValue(l, r, s)
    case LTEConstraint(_, _, _, s) => LTEValue(w, l, r, s)
    case ConstraintUtility(_, _, _) => UtilityValue(w, l, r)
  }

  lemma PairValue(w: Visitor, t: Term, p: Point)
    requires |Children(t)| == 2 && !t.Sum?
    ensures Value(w, t, p) == PairOf(w, t, Value(w, Children(t)[0], p), Value(w, Children(t)[1], p))
  {
    hide Mul, AndValue, OrValue, LTValue, LTEValue, UtilityValue;
  }

  lemma EvalConnectives(l: real, r: real)
    ensures AndValue(Eval, l, r) == if l > 0.75 then r else if r > 0.75 then l else l + r
    ensures OrValue(Eval, l, r) == if l > 0.75 then l else if r > 0.75 then r else l + r
  {
  }

  lemma EvalComparisons(l: real, r: real, s: real)
    ensures LTValue(l, r, s) == if l < r then 1.0 else Mul(s, r - l)
    ensures LTEValue(Eval, l, r, s) == if l < r then 1.0 else Mul(s, r - l)
  {
  }

  lemma EvalUtility(c: real, u: real)
    ensures UtilityValue(Eval, c, u) == if c < 0.999 then c else Mul(c, u)
  {
  }

  lemma SumOperands(tape: seq<TapeElement>, terms: seq<Term>, i: nat)
    requires TapeOk(tape, terms) && i < |tape| && tape[i].op.CompiledSum?
    ensures terms[i].Sum? && |tape[i].op.terms| == |terms[i].terms|
    ensures forall k :: 0 <= k < |tape[i].op.terms| ==> Refers(tape[i].op.terms[k], terms[i].terms[k], terms, i)
  {
    assert StandsFor(tape[i], terms[i], terms, i);
  }

  lemma ValueOfSum(w: Visitor, t: Term, p: Point)
    requires t.Sum?
    ensures Value(w, t, p) == SumValue(w, t.terms, p)
  {
  }

  // Writing the value of an element that is no constant leaves the tape in order.
  lemma ValueKeepsTape(tape: seq<TapeElement>, terms: seq<Term>, i: nat, x: real)
    requires TapeOk(tape, terms) && i < |tape| && !tape[i].op.CompiledConstant?
    ensures TapeOk(tape[i := tape[i].(value := x)], terms)
  {
    var after := tape[i := tape[i].(value := x)];
    forall j | 0 <= j < |after| ensures StandsFor(after[j], terms[j], terms, j) {
      assert StandsFor(tape[j], terms[j], terms, j);
    }
  }

  // The variables are distinct, every variable of the function is among them, and ids are
  // identities of objects; nextId is the id of the next term to be created.
  ghost predicate Compilable(t: Term, variables: seq<nat>, nextId: nat) {
    && (forall i, j :: 0 <= i < j < |variables| ==> variables[i] != variables[j])
    && OneTermPerId(Subterms(t) + Variables(variables))
    && (forall s :: s in Subterms(t) ==> s.id < nextId && (s.Variable? ==> s.id in variables))
    && (forall v :: v in variables ==> v < nextId)
  }

  function Variables(variables: seq<nat>): set<Term> {
    set v | v in variables :: Variable(v)
  }

  // A bare variable is wrapped, so that the root gets a slot behind the variables.
  function Compiled(t: Term, nextId: nat): Term {
    if t.Variable? then ConstPower(nextId, t, 1) else t
  }

  ghost function Universe(t: Term, variables: seq<nat>, nextId: nat): set<Term> {
    {Compiled(t, nextId)} + Subterms(t) + Variables(variables)
  }

  lemma UniverseFits(t: Term, variables: seq<nat>, nextId: nat)
    requires Compilable(t, variables, nextId)
    ensures var u := Universe(t, variables, nextId);
      && Closed(u) && OneTermPerId(u)
      && (forall s :: s in u && s.Variable? ==> s.id in variables)
      && (forall i :: 0 <= i < |variables| ==> Variable(variables[i]) in u)
    ensures Compiled(t, nextId) in Universe(t, variables, nextId)
    ensures !Compiled(t, nextId).Variable? && Compiled(t, nextId).id !in variables
    ensures forall i, j :: 0 <= i < j < |variables| ==> variables[i] != variables[j]
  {
    SubtermsClosed(t);
    var f := Compiled(t, nextId);
    assert !t.Variable? ==> f in Subterms(t);
    assert forall v :: v in variables ==> Variable(v) in Variables(variables);
  }

  lemma UniverseWellTyped(t: Term, variables: seq<nat>, nextId: nat, terms: seq<Term>)
    requires forall i :: 0 <= i < |terms| ==> terms[i] in Universe(t, variables, nextId)
    ensures WellTyped(Compiled(t, nextId)) ==> forall i :: 0 <= i < |terms| ==> WellTyped(terms[i])
  {
    if WellTyped(Compiled(t, nextId)) {
      forall i | 0 <= i < |terms| ensures WellTyped(terms[i]) {
        if terms[i] in Subterms(t) { SubtermsWellTyped(t, terms[i]); }
      }
    }
  }

  // Before the root is compiled only the variables are on the tape, so it gets a slot of its own.
  lemma RootApart(terms: seq<Term>, variables: seq<nat>, indexOf: map<nat, nat>, f: Term)
    requires Indexed(indexOf, terms)
    requires |terms| == |variables| && forall i :: 0 <= i < |variables| ==> terms[i] == Variable(variables[i])
    requires f.id !in variables
    ensures f.id !in indexOf
  {
  }

  // Each id has one slot, so later slots hold no variables.
  lemma Layout(start: seq<Term>, terms: seq<Term>, variables: seq<nat>, indexOf: map<nat, nat>)
    requires start <= terms && Indexed(indexOf, terms)
    requires |start| == |variables| && forall i :: 0 <= i < |variables| ==> start[i] == Variable(variables[i])
    requires forall i :: 0 <= i < |terms| && terms[i].Variable? ==> terms[i].id in variables
    ensures forall i :: 0 <= i < |terms| ==> (terms[i].Variable? <==> i < |variables|)
    ensures forall i, j :: 0 <= i < j < |terms| ==> terms[i].id != terms[j].id
  {
    forall i | 0 <= i < |terms| && terms[i].Variable? ensures i < |variables| {
      var k :| 0 <= k < |variables| && variables[k] == terms[i].id;
      assert terms[k] == start[k];
      assert indexOf[terms[k].id] == k && indexOf[terms[i].id] == i;
    }
  }
}
