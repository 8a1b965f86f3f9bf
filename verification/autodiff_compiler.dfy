// The compiler from a term DAG to a tape.
module AutodiffCompiler {

  import opened AutodiffDag
  import opened AutodiffTerms
  import opened AutodiffTape

  datatype TapeElement = TapeElement(op: Op, value: real, adjoint: real, inputs: seq<InputEdge>)

  function NewElement(op: Op, value: real): (e: TapeElement)
    ensures Wired(e)
  {
    var operands := OperandsOf(op);
    TapeElement(op, value, 0.0, seq(|operands|, k requires 0 <= k < |operands| => InputEdge(operands[k], 0.0)))
  }

  // One input edge per operand, in order.
  predicate Wired(e: TapeElement) {
    && |e.inputs| == |OperandsOf(e.op)|
    && forall k :: 0 <= k < |e.inputs| ==> e.inputs[k].index == OperandsOf(e.op)[k]
  }

  // The value a constant element is made with and keeps.
  function ConstantValue(t: Term): real {
    if t.Constant? then t.value else 0.0
  }

  // e, in slot n, stands for t.
  predicate StandsFor(e: TapeElement, t: Term, terms: seq<Term>, n: nat) {
    && Compiles(e.op, t, terms, n)
    && Wired(e)
    && (e.op.CompiledConstant? ==> e.value == ConstantValue(t))
  }

  // Slot i of the tape stands for terms[i].
  ghost predicate TapeOk(tape: seq<TapeElement>, terms: seq<Term>) {
    && |tape| == |terms|
    && forall i :: 0 <= i < |tape| ==> StandsFor(tape[i], terms[i], terms, i)
  }

  // Every term is at its own slot, and every id has one.
  ghost predicate Indexed(indexOf: map<nat, nat>, terms: seq<Term>) {
    && (forall i :: 0 <= i < |terms| ==> terms[i].id in indexOf && indexOf[terms[i].id] == i)
    && (forall id :: id in indexOf ==> indexOf[id] < |terms| && terms[indexOf[id]].id == id)
  }

  ghost predicate UniverseOk(u: set<Term>, terms: seq<Term>, indexOf: map<nat, nat>) {
    && Closed(u) && OneTermPerId(u)
    && (forall i :: 0 <= i < |terms| ==> terms[i] in u)
    && (forall t :: t in u && t.Variable? ==> t.id in indexOf)
  }

  // All terms from slot n on lie properly below t.
  ghost predicate Below(terms: seq<Term>, n: nat, t: Term) {
    forall i :: n <= i < |terms| ==> terms[i] < t
  }

  lemma StandsForLonger(e: TapeElement, t: Term, terms: seq<Term>, n: nat, longer: seq<Term>, m: nat)
    requires StandsFor(e, t, terms, n) && terms <= longer && n <= m <= |longer|
    ensures StandsFor(e, t, longer, m)
  {
    forall k | 0 <= k < |Children(t)| ensures Refers(OperandsOf(e.op)[k], Children(t)[k], longer, m) {
      assert Refers(OperandsOf(e.op)[k], Children(t)[k], terms, n);
    }
  }

  lemma TapeGrows(tape: seq<TapeElement>, terms: seq<Term>, e: TapeElement, t: Term)
    requires TapeOk(tape, terms) && StandsFor(e, t, terms, |terms|)
    ensures TapeOk(tape + [e], terms + [t])
  {
    hide StandsFor;
    forall i | 0 <= i < |tape| + 1 ensures StandsFor((tape + [e])[i], (terms + [t])[i], terms + [t], i) {
      if i < |tape| {
        StandsForLonger(tape[i], terms[i], terms, i, terms + [t], i);
      } else {
        StandsForLonger(e, t, terms, i, terms + [t], i);
      }
    }
  }

  lemma EmptyTape()
    ensures TapeOk([], [])
  {
  }

  lemma VariableElement(e: TapeElement, v: nat, terms: seq<Term>)
    requires e == NewElement(CompiledVariable, 0.0)
    ensures StandsFor(e, Variable(v), terms, |terms|)
  {
  }

  class Compiler {
    var tape: seq<TapeElement>
    var indexOf: map<nat, nat>
    ghost var terms: seq<Term>
    ghost const universe: set<Term>

    ghost predicate Valid()
      reads this
    {
      TapeOk(tape, terms) && Indexed(indexOf, terms) && UniverseOk(universe, terms, indexOf)
    }

    constructor (variables: seq<nat>, ghost universe: set<Term>)
      requires forall i, j :: 0 <= i < j < |variables| ==> variables[i] != variables[j]
      requires Closed(universe) && OneTermPerId(universe)
      requires forall t :: t in universe && t.Variable? ==> t.id in variables
      requires forall i :: 0 <= i < |variables| ==> Variable(variables[i]) in universe
      ensures Valid() && this.universe == universe
      ensures |terms| == |variables| && forall i :: 0 <= i < |variables| ==> terms[i] == Variable(variables[i])
    {
      hide TapeOk, StandsFor, Closed, OneTermPerId;
      this.universe := universe;
      tape := [];
      indexOf := map[];
      terms := [];
      new;
      EmptyTape();
      for i := 0 to |variables|
        invariant |terms| == i && this.universe == universe
        invariant forall j :: 0 <= j < i ==> terms[j] == Variable(variables[j])
        invariant TapeOk(tape, terms) && Indexed(indexOf, terms)
      {
        var element := NewElement(CompiledVariable, 0.0);
        VariableElement(element, variables[i], terms);
        TapeGrows(tape, terms, element, Variable(variables[i]));
        indexOf := indexOf[variables[i] := i];
        tape := tape + [element];
        terms := terms + [Variable(variables[i])];
      }
    }

    // The slot of a term, made on the first visit to it.
    method Compile(t: Term) returns (index: nat)
      requires Valid() && t in universe
      modifies this
      ensures Valid() && old(terms) <= terms && old(tape) <= tape
      ensures index < |terms| && terms[index] == t
      ensures forall i :: |old(terms)| <= i < |terms| ==> terms[i] == t || terms[i] < t
      ensures !t.Variable? && t.id !in old(indexOf) ==> index == |terms| - 1
      decreases t, 1
    {
      hide StandsFor, Closed;
      if t.id in indexOf {
        index := indexOf[t.id];
      } else {
        var element := Build(t);
        assert t.id !in indexOf;
        TapeGrows(tape, terms, element, t);
        tape := tape + [element];
        index := |tape| - 1;
        indexOf := indexOf[t.id := index];
        terms := terms + [t];
      }
    }

    // Compiles the operands of a term and makes its element.
    method Build(t: Term) returns (element: TapeElement)
      requires Valid() && t in universe && !t.Variable?
      modifies this
      ensures Valid() && old(terms) <= terms && old(tape) <= tape && Below(terms, |old(terms)|, t)
      ensures StandsFor(element, t, terms, |terms|)
      decreases t, 0
    {
      hide TapeOk, Indexed, UniverseOk;
      var operands := CompileAll(t, Children(t));
      element := NewElement(
        if t.Constant? || t.Zero? then CompiledConstant
        else if t.Sum? then CompiledSum(operands)
        else if t.ConstPower? then CompiledConstPower(operands[0], t.exponent)
        else if t.Abs? then CompiledAbs(operands[0])
        else if t.ConstraintUtility? then CompiledConstraintUtility(operands[0], operands[1])
        else Binary(t, operands[0], operands[1]), ConstantValue(t));
    }

    // Visits the operands of t from left to right.
    method CompileAll(ghost t: Term, ts: seq<Term>) returns (indices: seq<nat>)
      requires Valid() && t in universe && ts == Children(t)
      requires forall i :: 0 <= i < |ts| ==> ts[i] < t
      modifies this
      ensures Valid() && old(terms) <= terms && old(tape) <= tape && Below(terms, |old(terms)|, t)
      ensures |indices| == |ts| && forall k :: 0 <= k < |ts| ==> Refers(indices[k], ts[k], terms, |terms|)
      decreases t, 0, 0
    {
      hide TapeOk, Indexed;
      indices := [];
      for i := 0 to |ts|
        invariant Valid() && old(terms) <= terms && old(tape) <= tape && Below(terms, |old(terms)|, t)
        invariant |indices| == i && forall k :: 0 <= k < i ==> Refers(indices[k], ts[k], terms, |terms|)
      {
        assert Children(t)[i] in universe;
        var index := Compile(ts[i]);
        indices := indices + [index];
      }
    }
  }

  // The element class of a term with two operands.
  function Binary(t: Term, l: nat, r: nat): Op
    requires |Children(t)| == 2 && !t.Sum? && !t.ConstraintUtility?
  {
    match t
    case Product(_, _, _) => CompiledProduct(l, r)
    case Max(_, _, _) => CompiledMax(l, r)
    case Min(_, _, _) => CompiledMin(l, r)
    case And(_, _, _) => CompiledAnd(l, r)
    case Or(_, _, _) => CompiledOr(l, r)
    case LTConstraint(_, _, _, s) => CompiledLTConstraint(l, r, s)
    case LTEConstraint(_, _, _, s) => CompiledLTEConstraint(l, r, s)
  }
}
