// Constant folding, which rewrites the shared objects of a term DAG in place.
module AutodiffAggregate {

  import opened Reals
  import opened AutodiffTerms

  // A term object refers to its operands by number.
  datatype Object =
    | VariableObject(id: nat)
    | ConstantObject(value: real)
    | ZeroObject
    | SumObject(terms: seq<nat>)
    | ProductObject(left: nat, right: nat)
    | ConstPowerObject(base: nat, exponent: nat)
    | MinObject(left: nat, right: nat)

  // What the objects are worth at every point.
  type Meaning = map<nat, Point -> real>

  function Operands(o: Object): seq<nat> {
    match o
    case SumObject(ts) => ts
    case ProductObject(l, r) => [l, r]
    case MinObject(l, r) => [l, r]
    case ConstPowerObject(b, _) => [b]
    case _ => []
  }

  predicate Known(ids: seq<nat>, m: Meaning) {
    forall k :: 0 <= k < |ids| ==> ids[k] in m
  }

  function Total(ids: seq<nat>, m: Meaning, p: Point): real
    requires Known(ids, m)
  {
    if ids == [] then 0.0 else Total(ids[..|ids| - 1], m, p) + m[ids[|ids| - 1]](p)
  }

  // The value of an object, given what its operands are worth.
  function Worth(o: Object, m: Meaning, p: Point): real
    requires Known(Operands(o), m)
  {
    match o
    case VariableObject(id) => p(id)
    case ConstantObject(c) => c
    case ZeroObject => 0.0
    case SumObject(ts) => Total(ts, m, p)
    case ProductObject(l, r) => assert Operands(o)[0] == l && Operands(o)[1] == r; Mul(m[l](p), m[r](p))
    case MinObject(l, r) => assert Operands(o)[0] == l && Operands(o)[1] == r; Smaller(m[l](p), m[r](p))
    case ConstPowerObject(b, e) => assert Operands(o)[0] == b; Pow(m[b](p), e)
  }

  // m is what the objects mean: every object is worth what its operands make of it.
  ghost predicate Means(objects: map<nat, Object>, m: Meaning) {
    && objects.Keys == m.Keys
    && forall i :: i in objects ==> Fits(objects[i], m) && forall p: Point :: m[i](p) == Worth(objects[i], m, p)
  }

  predicate Fits(o: Object, m: Meaning) {
    Known(Operands(o), m) && (o.ConstPowerObject? ==> o.exponent >= 1)
  }

  // Operands rank below the objects that refer to them: the objects form no cycle.
  ghost predicate Ranked(objects: map<nat, Object>, rank: map<nat, nat>) {
    && objects.Keys == rank.Keys
    && forall i :: i in objects ==> Under(objects[i], rank, i)
  }

  ghost predicate Under(o: Object, rank: map<nat, nat>, i: nat) {
    && i in rank
    && forall k :: 0 <= k < |Operands(o)| ==> Operands(o)[k] in rank && rank[Operands(o)[k]] < rank[i]
  }

  // The objects have one meaning only.
  lemma {:induction false} OneMeaning(objects: map<nat, Object>, rank: map<nat, nat>, m: Meaning, n: Meaning, i: nat, p: Point)
    requires Means(objects, m) && Means(objects, n) && Ranked(objects, rank) && i in objects
    ensures m[i](p) == n[i](p)
    decreases rank[i]
  {
    var o := objects[i];
    forall k | 0 <= k < |Operands(o)| ensures Operands(o)[k] in m && m[Operands(o)[k]](p) == n[Operands(o)[k]](p) {
      OneMeaning(objects, rank, m, n, Operands(o)[k], p);
    }
    SameWorth(o, m, n, p);
  }

  lemma SameWorth(o: Object, m: Meaning, n: Meaning, p: Point)
    requires Known(Operands(o), m) && Known(Operands(o), n)
    requires forall k :: 0 <= k < |Operands(o)| ==> m[Operands(o)[k]](p) == n[Operands(o)[k]](p)
    ensures Worth(o, m, p) == Worth(o, n, p)
  {
    match o
    case SumObject(ts) => SameTotal(ts, m, n, p);
    case ProductObject(l, r) => assert Operands(o)[0] == l && Operands(o)[1] == r;
    case MinObject(l, r) => assert Operands(o)[0] == l && Operands(o)[1] == r;
    case ConstPowerObject(b, e) => assert Operands(o)[0] == b;
    case _ =>
  }

  lemma {:induction false} SameTotal(ids: seq<nat>, m: Meaning, n: Meaning, p: Point)
    requires Known(ids, m) && Known(ids, n) && forall k :: 0 <= k < |ids| ==> m[ids[k]](p) == n[ids[k]](p)
    ensures Total(ids, m, p) == Total(ids, n, p)
  {
    if ids != [] { SameTotal(ids[..|ids| - 1], m, n, p); }
  }

  // The term that an object stands for.
  ghost function TermOf(objects: map<nat, Object>, rank: map<nat, nat>, i: nat): Term
    requires Ranked(objects, rank) && i in objects
    decreases rank[i]
  {
    var o := objects[i];
    assert Under(o, rank, i);
    match o
    case VariableObject(id) => Variable(id)
    case ConstantObject(c) => Constant(i, c)
    case ZeroObject => Zero(i)
    case SumObject(ts) =>
      Sum(i, seq(|ts|, k requires 0 <= k < |ts| => assert Operands(o)[k] == ts[k]; TermOf(objects, rank, ts[k])))
    case ProductObject(l, r) =>
      assert Operands(o)[0] == l && Operands(o)[1] == r;
      Product(i, TermOf(objects, rank, l), TermOf(objects, rank, r))
    case MinObject(l, r) =>
      assert Operands(o)[0] == l && Operands(o)[1] == r;
      Min(i, TermOf(objects, rank, l), TermOf(objects, rank, r))
    case ConstPowerObject(b, e) =>
      assert Operands(o)[0] == b;
      ConstPower(i, TermOf(objects, rank, b), e)
  }

  lemma OperandsKnown(objects: map<nat, Object>, rank: map<nat, nat>, m: Meaning, i: nat, p: Point)
    requires Means(objects, m) && Ranked(objects, rank) && i in objects
    ensures i in m && Fits(objects[i], m) && m[i](p) == Worth(objects[i], m, p) && Under(objects[i], rank, i)
    ensures objects.Keys == m.Keys == rank.Keys
  {
  }

  // What an object means is the value of its term.
  lemma {:induction false} MeaningIsValue(objects: map<nat, Object>, rank: map<nat, nat>, m: Meaning, w: Visitor, i: nat, p: Point)
    requires Means(objects, m) && Ranked(objects, rank) && i in objects
    ensures m[i](p) == Value(w, TermOf(objects, rank, i), p)
    decreases rank[i]
  {
    hide Mul, Pow, Means, Ranked;
    var o := objects[i];
    OperandsKnown(objects, rank, m, i, p);
    forall k | 0 <= k < |Operands(o)|
      ensures m[Operands(o)[k]](p) == Value(w, TermOf(objects, rank, Operands(o)[k]), p)
    {
      MeaningIsValue(objects, rank, m, w, Operands(o)[k], p);
    }
    match o
    case SumObject(ts) => TotalIsValue(ts, TermOf(objects, rank, i).terms, m, w, p);
    case ProductObject(l, r) => assert Operands(o)[0] == l && Operands(o)[1] == r;
    case MinObject(l, r) => assert Operands(o)[0] == l && Operands(o)[1] == r;
    case ConstPowerObject(b, _) => assert Operands(o)[0] == b;
    case _ =>
  }

  lemma {:induction false} TotalIsValue(ids: seq<nat>, ts: seq<Term>, m: Meaning, w: Visitor, p: Point)
    requires Known(ids, m) && |ts| == |ids|
    requires forall k :: 0 <= k < |ids| ==> m[ids[k]](p) == Value(w, ts[k], p)
    ensures Total(ids, m, p) == SumValue(w, ts, p)
  {
    if ids != [] {
      TotalIsValue(ids[..|ids| - 1], ts[..|ts| - 1], m, w, p);
    }
  }

  // Arithmetic of powers.

  lemma {:induction false} PowerOfSum(x: real, a: nat, b: nat)
    ensures Pow(x, a + b) == Mul(Pow(x, a), Pow(x, b))
  {
    hide Mul;
    if a == 0 {
      Units(Pow(x, b));
    } else {
      PowerOfSum(x, a - 1, b);
      Associates(x, Pow(x, a - 1), Pow(x, b));
    }
  }

  lemma {:induction false} PowerOfPower(x: real, a: nat, b: nat)
    ensures Pow(Pow(x, a), b) == Pow(x, b * a)
  {
    hide Mul;
    if b > 0 {
      PowerOfPower(x, a, b - 1);
      assert b * a == a + (b - 1) * a;
      PowerOfSum(x, a, (b - 1) * a);
    }
  }

  lemma PowerOfZero(e: nat)
    requires e >= 1
    ensures Pow(0.0, e) == 0.0
  {
    Units(Pow(0.0, e - 1));
  }

  lemma TotalOfConcat(a: seq<nat>, i: nat, m: Meaning, p: Point)
    requires Known(a, m) && i in m
    ensures Known(a + [i], m) && Total(a + [i], m, p) == Total(a, m, p) + m[i](p)
  {
    assert (a + [i])[..|a|] == a;
  }

  // A state of the store: the objects, what they mean, their ranks, and the objects that have
  // nothing left to fold at and below them.
  datatype Snapshot = Snapshot(objects: map<nat, Object>, meaning: Meaning, rank: map<nat, nat>, settled: set<nat>)

  ghost predicate Ok(s: Snapshot) {
    Means(s.objects, s.meaning) && Ranked(s.objects, s.rank) && AllFolded(s.objects, s.settled)
  }

  // Object i leaves no constants to fold at its operands.
  predicate Folded(objects: map<nat, Object>, i: nat) {
    && i in objects
    && match objects[i]
       case ProductObject(l, r) =>
         && l in objects && r in objects && !objects[l].ZeroObject? && !objects[r].ZeroObject?
         && objects[l] != ConstantObject(1.0) && objects[r] != ConstantObject(1.0)
         && !(objects[l].ConstantObject? && objects[r].ConstantObject?)
       case MinObject(l, r) =>
         l in objects && r in objects && !(objects[l].ConstantObject? && objects[r].ConstantObject?)
       case SumObject(ts) =>
         |ts| >= 2 && forall k :: 0 <= k < |ts| - 1 ==> ts[k] in objects && !IsConstantObject(objects, ts[k])
       case ConstPowerObject(b, _) => b in objects && !IsConstantObject(objects, b) && !objects[b].ConstPowerObject?
       case _ => true
  }

  predicate AllFolded(objects: map<nat, Object>, settled: set<nat>) {
    forall j :: j in settled ==> Folded(objects, j) && AllIn(Operands(objects[j]), settled)
  }

  predicate AllIn(ids: seq<nat>, settled: set<nat>) {
    forall k :: 0 <= k < |ids| ==> ids[k] in settled
  }

  // There are no constants to fold at object i, nor anywhere below it.
  ghost predicate NothingToFold(objects: map<nat, Object>, i: nat) {
    exists settled: set<nat> :: i in settled && AllFolded(objects, settled)
  }

  // Objects are rewritten within their class, and constants not at all.
  predicate SameKind(a: Object, b: Object) {
    match a
    case SumObject(_) => b.SumObject?
    case ProductObject(_, _) => b.ProductObject?
    case MinObject(_, _) => b.MinObject?
    case ConstPowerObject(_, _) => b.ConstPowerObject?
    case _ => b == a
  }

  // From a to b no object lost its meaning, and none of rank above n was rewritten or settled.
  ghost predicate Step(a: Snapshot, b: Snapshot, n: nat) {
    && a.objects.Keys == a.meaning.Keys == a.rank.Keys && b.objects.Keys == b.meaning.Keys == b.rank.Keys
    && a.settled <= b.settled && (forall j :: j in b.settled && j !in a.settled ==> j in b.rank && b.rank[j] <= n)
    && forall j :: j in a.objects ==>
      && j in b.objects && b.meaning[j] == a.meaning[j] && b.rank[j] == a.rank[j]
      && (a.rank[j] > n ==> b.objects[j] == a.objects[j])
      && SameKind(a.objects[j], b.objects[j])
  }

  predicate IsConstantObject(objects: map<nat, Object>, i: nat) {
    i in objects && (objects[i].ConstantObject? || objects[i].ZeroObject?)
  }

  lemma NoStep(s: Snapshot, n: nat)
    requires Ok(s)
    ensures Step(s, s, n)
  {
  }

  lemma StepTwice(a: Snapshot, b: Snapshot, c: Snapshot, n: nat)
    requires Step(a, b, n) && Step(b, c, n)
    ensures Step(a, c, n)
  {
  }

  lemma StepAt(a: Snapshot, b: Snapshot, n: nat, m: nat, j: nat)
    requires Step(a, b, n) && j in a.objects && n <= m
    ensures j in a.rank && j in b.objects && j in b.rank && b.rank[j] == a.rank[j]
    ensures a.rank[j] > n ==> b.objects[j] == a.objects[j] && (j in b.settled <==> j in a.settled)
    ensures Step(a, b, m)
  {
  }

  ghost predicate SameValue(m: Meaning, i: nat, j: nat) {
    i in m && j in m && forall p: Point :: m[i](p) == m[j](p)
  }

  ghost predicate IsConstant(m: Meaning, i: nat, c: real) {
    i in m && forall p: Point :: m[i](p) == c
  }

  // r can stand for x as an operand of i.
  ghost predicate Replaces(s: Snapshot, r: nat, x: nat, i: nat) {
    r in s.rank && i in s.rank && s.rank[r] < s.rank[i] && SameValue(s.meaning, r, x)
  }

  // r can stand for i.
  ghost predicate Result(s: Snapshot, r: nat, i: nat) {
    r in s.rank && i in s.rank && s.rank[r] <= s.rank[i] && SameValue(s.meaning, r, i)
  }

  lemma ReplacesStays(a: Snapshot, b: Snapshot, n: nat, r: nat, x: nat, i: nat)
    requires Step(a, b, n) && Replaces(a, r, x, i)
    ensures Replaces(b, r, x, i) && Replaces(b, r, r, i) && r in b.objects
  {
  }

  lemma ConstantStays(a: Snapshot, b: Snapshot, n: nat, i: nat, c: real)
    requires Step(a, b, n) && IsConstant(a.meaning, i, c)
    ensures IsConstant(b.meaning, i, c)
  {
  }

  lemma ConstantResult(s: Snapshot, r: nat, i: nat, c: real)
    requires Ok(s) && IsConstant(s.meaning, r, c) && IsConstant(s.meaning, i, c) && r in s.rank && s.rank[r] == 0
    ensures Result(s, r, i)
  {
  }

  lemma Itself(s: Snapshot, i: nat)
    requires Ok(s) && i in s.objects
    ensures Result(s, i, i)
  {
  }

  lemma ReplacementResult(s: Snapshot, r: nat, x: nat, i: nat)
    requires Replaces(s, r, x, i) && SameValue(s.meaning, x, i)
    ensures Result(s, r, i)
  {
  }

  // Object i may be rewritten to o.
  ghost predicate CanBecome(s: Snapshot, i: nat, o: Object) {
    && i in s.objects && i in s.meaning && Under(o, s.rank, i) && Fits(o, s.meaning)
    && forall p: Point :: s.meaning[i](p) == Worth(o, s.meaning, p)
  }

  lemma Facts(s: Snapshot, i: nat)
    requires Ok(s) && i in s.objects
    ensures s.objects.Keys == s.meaning.Keys == s.rank.Keys
    ensures Under(s.objects[i], s.rank, i) && CanBecome(s, i, s.objects[i])
    ensures s.objects[i].ConstantObject? ==> IsConstant(s.meaning, i, s.objects[i].value)
    ensures s.objects[i].ZeroObject? ==> IsConstant(s.meaning, i, 0.0)
  {
  }

  lemma OperandFacts(s: Snapshot, i: nat, k: nat)
    requires Ok(s) && i in s.objects && k < |Operands(s.objects[i])|
    ensures Operands(s.objects[i])[k] in s.objects
    ensures Replaces(s, Operands(s.objects[i])[k], Operands(s.objects[i])[k], i)
  {
    assert Under(s.objects[i], s.rank, i);
  }

  // What is settled stays so when i becomes o.
  predicate StaysSettled(s: Snapshot, i: nat, o: Object) {
    i in s.settled ==> Folded(s.objects[i := o], i) && AllIn(Operands(o), s.settled)
  }

  lemma Rewritten(s: Snapshot, i: nat, o: Object)
    requires Ok(s) && CanBecome(s, i, o) && SameKind(s.objects[i], o) && StaysSettled(s, i, o)
    ensures i in s.rank
    ensures var t := s.(objects := s.objects[i := o]); Ok(t) && Step(s, t, s.rank[i])
  {
    hide Worth, AllFolded, Folded;
    assert s.objects[i := o].Keys == s.objects.Keys;
    FoldedInPlace(s.objects, s.settled, i, o);
  }

  lemma FoldedInPlace(objects: map<nat, Object>, settled: set<nat>, i: nat, o: Object)
    requires AllFolded(objects, settled) && i in objects && SameKind(objects[i], o)
    requires i in settled ==> Folded(objects[i := o], i) && AllIn(Operands(o), settled)
    ensures AllFolded(objects[i := o], settled)
  {
    hide Operands, Folded;
    forall j | j in settled && j != i ensures Folded(objects[i := o], j) {
      FoldedThere(objects, j);
      StaysFolded(objects, objects[i := o], j);
    }
  }

  lemma StaysFolded(a: map<nat, Object>, b: map<nat, Object>, j: nat)
    requires Folded(a, j) && j in b && b[j] == a[j] && forall i :: i in a ==> i in b && SameKind(a[i], b[i])
    ensures Folded(b, j)
  {
  }

  lemma FoldedWithNew(objects: map<nat, Object>, settled: set<nat>, i: nat, o: Object)
    requires AllFolded(objects, settled) && i !in objects && (o.ConstantObject? || o.ZeroObject?)
    ensures AllFolded(objects[i := o], settled + {i})
  {
    hide Folded;
    FoldedConstant(objects[i := o], i);
    forall j | j in settled ensures j != i && Folded(objects[i := o], j) {
      FoldedThere(objects, j);
      StaysFolded(objects, objects[i := o], j);
    }
  }

  lemma FoldedConstant(objects: map<nat, Object>, i: nat)
    ensures i in objects && Operands(objects[i]) == [] && !objects[i].SumObject? ==> Folded(objects, i)
  {
  }

  lemma FoldedThere(objects: map<nat, Object>, i: nat)
    requires Folded(objects, i)
    ensures i in objects
  {
  }

  // One more object settles.
  lemma SettlesOne(s: Snapshot, i: nat, n: nat)
    requires Ok(s) && i in s.objects && i in s.rank && s.rank[i] <= n && Folded(s.objects, i) && AllIn(Operands(s.objects[i]), s.settled)
    ensures var t := s.(settled := s.settled + {i}); Ok(t) && Step(s, t, n)
  {
    hide Folded, Worth, Means, Ranked;
    OkKeys(s);
  }

  lemma OkKeys(s: Snapshot)
    requires Ok(s)
    ensures s.objects.Keys == s.meaning.Keys == s.rank.Keys
  {
  }

  lemma SettledFolded(s: Snapshot, i: nat)
    requires Ok(s)
    ensures i in s.settled ==> Folded(s.objects, i) && AllIn(Operands(s.objects[i]), s.settled)
  {
    hide Folded, Means, Ranked;
  }

  // r can stand for a folded x in a folded object: constants stay, and nothing becomes constant.
  predicate Alike(objects: map<nat, Object>, r: nat, x: nat) {
    && r in objects && x in objects
    && (IsConstantObject(objects, x) ==> r == x) && (!IsConstantObject(objects, x) ==> !IsConstantObject(objects, r))
  }

  lemma AlikeStays(a: Snapshot, b: Snapshot, n: nat, r: nat, x: nat)
    requires Alike(a.objects, r, x) && Step(a, b, n)
    ensures Alike(b.objects, r, x)
  {
  }

  lemma AlikeSelf(objects: map<nat, Object>, i: nat)
    requires i in objects
    ensures Alike(objects, i, i)
  {
  }

  lemma PairStaysSettled(s: Snapshot, i: nat, l: nat, r: nat)
    requires Ok(s) && i in s.objects && (s.objects[i].ProductObject? || s.objects[i].MinObject?)
    requires l != i && r != i
    requires i in s.settled ==> l in s.settled && r in s.settled && Alike(s.objects, l, s.objects[i].left) && Alike(s.objects, r, s.objects[i].right)
    ensures var o := if s.objects[i].ProductObject? then ProductObject(l, r) else MinObject(l, r);
      SameKind(s.objects[i], o) && StaysSettled(s, i, o)
  {
    hide Means, Ranked;
    SettledFolded(s, i);
    if i in s.settled {
      SettledFolded(s, l);
      SettledFolded(s, r);
    }
  }

  lemma PowerStaysSettled(s: Snapshot, i: nat, b: nat, e: nat)
    requires Ok(s) && i in s.objects && s.objects[i].ConstPowerObject? && b != i && b in s.objects && b in s.settled
    requires i in s.settled ==> Alike(s.objects, b, s.objects[i].base)
    ensures var o := s.objects[b];
      if o.ConstPowerObject? then
        && o.base in s.settled && o.base != i && Folded(s.objects[i := ConstPowerObject(o.base, e)], i)
        && StaysSettled(s, i, ConstPowerObject(o.base, e))
      else StaysSettled(s, i, ConstPowerObject(b, e))
  {
    hide Means, Ranked;
    SettledFolded(s, i);
    SettledFolded(s, b);
    var o := s.objects[b];
    if o.ConstPowerObject? {
      assert Operands(o)[0] == o.base;
    }
  }

  function Always(c: real): Point -> real {
    (p: Point) => c
  }

  lemma NewWorth(o: Object, m: Meaning, c: real)
    requires o == ConstantObject(c) || (o == ZeroObject && c == 0.0)
    ensures Operands(o) == [] && Fits(o, m) && forall p: Point :: Worth(o, m, p) == c
  {
  }

  lemma Allocated(s: Snapshot, i: nat, o: Object, c: real)
    requires Ok(s) && i !in s.objects
    requires o == ConstantObject(c) || (o == ZeroObject && c == 0.0)
    ensures var t := Snapshot(s.objects[i := o], s.meaning[i := Always(c)], s.rank[i := 0], s.settled + {i});
      Ok(t) && IsConstant(t.meaning, i, c) && forall n: nat :: Step(s, t, n)
  {
    hide Worth, AllFolded, Folded;
    FoldedWithNew(s.objects, s.settled, i, o);
    var n := s.meaning[i := Always(c)];
    NewWorth(o, n, c);
    forall j, p: Point | j in s.objects ensures Fits(s.objects[j], n) && n[j](p) == Worth(s.objects[j], n, p) {
      SameWorth(s.objects[j], s.meaning, n, p);
    }
  }

  // Products.

  lemma ProductStep(s: Snapshot, i: nat, l: nat, r: nat)
    requires Ok(s) && i in s.objects && s.objects[i].ProductObject?
    requires Replaces(s, l, s.objects[i].left, i) && Replaces(s, r, s.objects[i].right, i)
    ensures CanBecome(s, i, ProductObject(l, r))
  {
    hide Mul;
  }

  lemma ProductFolds(s: Snapshot, i: nat, a: real, b: real)
    requires Ok(s) && i in s.objects && s.objects[i].ProductObject?
    ensures var l, r := s.objects[i].left, s.objects[i].right;
      && (IsConstant(s.meaning, l, a) && IsConstant(s.meaning, r, b) ==> IsConstant(s.meaning, i, Mul(a, b)))
      && (IsConstant(s.meaning, l, 0.0) ==> SameValue(s.meaning, l, i))
      && (IsConstant(s.meaning, r, 0.0) ==> SameValue(s.meaning, r, i))
      && (IsConstant(s.meaning, l, 1.0) ==> SameValue(s.meaning, r, i))
      && (IsConstant(s.meaning, r, 1.0) ==> SameValue(s.meaning, l, i))
  {
    hide Mul;
    var l, r := s.objects[i].left, s.objects[i].right;
    assert Operands(s.objects[i])[0] == l && Operands(s.objects[i])[1] == r;
    forall p: Point
      ensures Mul(0.0, s.meaning[r](p)) == 0.0 && Mul(s.meaning[l](p), 0.0) == 0.0
      ensures Mul(1.0, s.meaning[r](p)) == s.meaning[r](p) && Mul(s.meaning[l](p), 1.0) == s.meaning[l](p)
    {
      Units(s.meaning[l](p));
      Units(s.meaning[r](p));
    }
  }

  // Minima.

  lemma MinStep(s: Snapshot, i: nat, l: nat, r: nat)
    requires Ok(s) && i in s.objects && s.objects[i].MinObject?
    requires Replaces(s, l, s.objects[i].left, i) && Replaces(s, r, s.objects[i].right, i)
    ensures CanBecome(s, i, MinObject(l, r))
  {
  }

  lemma MinFolds(s: Snapshot, i: nat, a: real, b: real)
    requires Ok(s) && i in s.objects && s.objects[i].MinObject?
    requires IsConstant(s.meaning, s.objects[i].left, a) && IsConstant(s.meaning, s.objects[i].right, b)
    ensures IsConstant(s.meaning, i, Smaller(a, b))
  {
    assert Operands(s.objects[i])[0] == s.objects[i].left && Operands(s.objects[i])[1] == s.objects[i].right;
  }

  lemma PairStep(s: Snapshot, i: nat, l: nat, r: nat)
    requires Ok(s) && i in s.objects && (s.objects[i].ProductObject? || s.objects[i].MinObject?)
    requires Replaces(s, l, s.objects[i].left, i) && Replaces(s, r, s.objects[i].right, i)
    ensures CanBecome(s, i, if s.objects[i].ProductObject? then ProductObject(l, r) else MinObject(l, r))
    ensures l in s.objects && r in s.objects && l != i && r != i
  {
    hide Ok, CanBecome;
    PairBelow(s, i, l, r);
    if s.objects[i].ProductObject? { ProductStep(s, i, l, r); } else { MinStep(s, i, l, r); }
  }

  lemma PairBelow(s: Snapshot, i: nat, l: nat, r: nat)
    requires Ok(s) && i in s.objects && l in s.rank && r in s.rank && i in s.rank && s.rank[l] < s.rank[i] && s.rank[r] < s.rank[i]
    ensures l in s.objects && r in s.objects && l != i && r != i
  {
  }

  // Powers.

  lemma PowerStep(s: Snapshot, i: nat, b: nat)
    requires Ok(s) && i in s.objects && s.objects[i].ConstPowerObject? && Replaces(s, b, s.objects[i].base, i)
    ensures CanBecome(s, i, ConstPowerObject(b, s.objects[i].exponent))
  {
    hide Pow;
  }

  lemma PowerFolds(s: Snapshot, i: nat, c: real)
    requires Ok(s) && i in s.objects && s.objects[i].ConstPowerObject?
    requires IsConstant(s.meaning, s.objects[i].base, c)
    ensures IsConstant(s.meaning, i, Pow(c, s.objects[i].exponent))
    ensures c == 0.0 ==> SameValue(s.meaning, s.objects[i].base, i)
  {
    hide Pow;
    assert Operands(s.objects[i])[0] == s.objects[i].base;
    PowerOfZero(s.objects[i].exponent);
  }

  // A power of a power is the power with the product of the exponents.
  lemma NestedPower(s: Snapshot, i: nat)
    requires Ok(s) && i in s.objects && s.objects[i].ConstPowerObject?
    requires s.objects[i].base in s.objects && s.objects[s.objects[i].base].ConstPowerObject?
    ensures var b := s.objects[s.objects[i].base];
      CanBecome(s, i, ConstPowerObject(b.base, s.objects[i].exponent * b.exponent))
  {
    hide Pow;
    var e, j := s.objects[i].exponent, s.objects[i].base;
    var b := s.objects[j];
    OperandFacts(s, i, 0);
    OperandFacts(s, j, 0);
    assert Fits(s.objects[i], s.meaning) && Fits(b, s.meaning);
    ExponentsMultiply(e, b.exponent);
    forall p: Point ensures s.meaning[i](p) == Pow(s.meaning[b.base](p), e * b.exponent) {
      PowerOfPower(s.meaning[b.base](p), b.exponent, e);
      assert s.meaning[i](p) == Worth(s.objects[i], s.meaning, p) == Pow(s.meaning[j](p), e);
      assert s.meaning[j](p) == Worth(b, s.meaning, p) == Pow(s.meaning[b.base](p), b.exponent);
    }
  }

  // The same before the base is written.
  lemma NestedStep(s: Snapshot, i: nat, b: nat)
    requires Ok(s) && i in s.objects && s.objects[i].ConstPowerObject? && Replaces(s, b, s.objects[i].base, i)
    requires b in s.objects && s.objects[b].ConstPowerObject? && b != i
    ensures CanBecome(s, i, ConstPowerObject(s.objects[b].base, s.objects[i].exponent * s.objects[b].exponent))
  {
    hide Ok, Step, Replaces, Worth, Pow;
    var o := ConstPowerObject(b, s.objects[i].exponent);
    PowerStep(s, i, b);
    NothingSettled(s);
    var t := s.(settled := {});
    SameCanBecome(s, t, i, o);
    Rewritten(t, i, o);
    NestedPower(t.(objects := t.objects[i := o]), i);
  }

  lemma NothingSettled(s: Snapshot)
    requires Ok(s)
    ensures Ok(s.(settled := {}))
  {
    hide Means, Ranked;
  }

  lemma SameCanBecome(s: Snapshot, t: Snapshot, i: nat, o: Object)
    requires CanBecome(s, i, o) && t == s.(settled := {})
    ensures CanBecome(t, i, o)
  {
    hide Worth, Fits, Under;
  }

  lemma ExponentsMultiply(a: nat, b: nat)
    requires a >= 1 && b >= 1
    ensures a * b >= 1
  {
  }

  // Sums.

  // The first k terms of a sum are worth sum plus the collected terms.
  ghost predicate Split(s: Snapshot, ts: seq<nat>, k: nat, sum: real, rest: seq<nat>, i: nat) {
    && k <= |ts| && Known(ts, s.meaning) && Known(rest, s.meaning) && Under(SumObject(rest), s.rank, i)
    && forall p: Point :: Total(ts[..k], s.meaning, p) == sum + Total(rest, s.meaning, p)
  }

  lemma NothingSplit(s: Snapshot, i: nat)
    requires Ok(s) && i in s.objects && s.objects[i].SumObject?
    ensures Split(s, s.objects[i].terms, 0, 0.0, [], i)
  {
    assert Fits(s.objects[i], s.meaning);
  }

  lemma SplitStays(a: Snapshot, b: Snapshot, n: nat, ts: seq<nat>, k: nat, sum: real, rest: seq<nat>, i: nat)
    requires Split(a, ts, k, sum, rest, i) && Step(a, b, n)
    ensures Split(b, ts, k, sum, rest, i)
  {
    forall j | 0 <= j < |rest| ensures rest[j] in b.rank && b.rank[rest[j]] < b.rank[i] {
      assert Operands(SumObject(rest))[j] == rest[j];
    }
    forall p: Point ensures Total(ts[..k], b.meaning, p) == sum + Total(rest, b.meaning, p) {
      SameTotal(ts[..k], a.meaning, b.meaning, p);
      SameTotal(rest, a.meaning, b.meaning, p);
    }
  }

  lemma SplitNext(s: Snapshot, ts: seq<nat>, k: nat, sum: real, rest: seq<nat>, i: nat, cur: nat, c: real)
    requires Split(s, ts, k, sum, rest, i) && k < |ts| && Replaces(s, cur, ts[k], i)
    ensures IsConstant(s.meaning, cur, c) ==> Split(s, ts, k + 1, sum + c, rest, i)
    ensures Split(s, ts, k + 1, sum, rest + [cur], i)
  {
    hide Total;
    assert ts[..k + 1] == ts[..k] + [ts[k]];
    forall j | 0 <= j < |rest + [cur]| ensures (rest + [cur])[j] in s.rank && s.rank[(rest + [cur])[j]] < s.rank[i] {
      assert j < |rest| ==> Operands(SumObject(rest))[j] == rest[j];
    }
    forall p: Point
      ensures Total(ts[..k + 1], s.meaning, p) == Total(ts[..k], s.meaning, p) + s.meaning[cur](p)
      ensures Total(rest + [cur], s.meaning, p) == Total(rest, s.meaning, p) + s.meaning[cur](p)
    {
      TotalOfConcat(ts[..k], ts[k], s.meaning, p);
      TotalOfConcat(rest, cur, s.meaning, p);
    }
  }

  lemma SumMeans(s: Snapshot, i: nat, sum: real, rest: seq<nat>, p: Point)
    requires Ok(s) && i in s.objects && s.objects[i].SumObject?
    requires Split(s, s.objects[i].terms, |s.objects[i].terms|, sum, rest, i)
    ensures i in s.meaning && Known(rest, s.meaning) && s.meaning[i](p) == sum + Total(rest, s.meaning, p)
  {
    hide Total;
    var ts := s.objects[i].terms;
    assert ts[..|ts|] == ts;
    assert s.meaning[i](p) == Worth(s.objects[i], s.meaning, p);
  }

  lemma TotalOfOne(i: nat, m: Meaning, p: Point)
    requires i in m
    ensures Total([i], m, p) == m[i](p)
  {
    TotalOfConcat([], i, m, p);
    assert [] + [i] == [i];
  }

  // A sum whose terms are split completely.
  lemma SumFolds(s: Snapshot, i: nat, sum: real, rest: seq<nat>)
    requires Ok(s) && i in s.objects && s.objects[i].SumObject?
    requires Split(s, s.objects[i].terms, |s.objects[i].terms|, sum, rest, i)
    ensures rest == [] ==> IsConstant(s.meaning, i, sum)
    ensures |rest| == 1 && sum == 0.0 ==> Result(s, rest[0], i) && rest[0] != i
    ensures sum == 0.0 ==> CanBecome(s, i, SumObject(rest))
  {
    hide Split, Ok;
    SplitFacts(s, i, sum, rest);
    forall p: Point
      ensures s.meaning[i](p) == sum + Total(rest, s.meaning, p)
      ensures |rest| == 1 ==> Total(rest, s.meaning, p) == s.meaning[rest[0]](p)
    {
      SumMeans(s, i, sum, rest, p);
      if |rest| == 1 {
        assert rest == [rest[0]];
        TotalOfOne(rest[0], s.meaning, p);
      }
    }
  }

  lemma SplitFacts(s: Snapshot, i: nat, sum: real, rest: seq<nat>)
    requires Ok(s) && i in s.objects && s.objects[i].SumObject?
    requires Split(s, s.objects[i].terms, |s.objects[i].terms|, sum, rest, i)
    ensures i in s.rank && i in s.meaning && Known(rest, s.meaning) && Under(SumObject(rest), s.rank, i)
    ensures |rest| == 1 ==> rest[0] in s.meaning && rest[0] in s.rank && s.rank[rest[0]] < s.rank[i]
  {
    if |rest| == 1 {
      assert Operands(SumObject(rest))[0] == rest[0];
    }
  }

  // Collecting the constant sum as a last term.
  lemma ConstantCollected(s: Snapshot, ts: seq<nat>, sum: real, rest: seq<nat>, i: nat, c: nat)
    requires Split(s, ts, |ts|, sum, rest, i) && IsConstant(s.meaning, c, sum)
    requires c in s.rank && s.rank[c] < s.rank[i]
    ensures Split(s, ts, |ts|, 0.0, rest + [c], i)
  {
    hide Total;
    forall j | 0 <= j < |rest + [c]| ensures (rest + [c])[j] in s.rank && s.rank[(rest + [c])[j]] < s.rank[i] {
      assert j < |rest| ==> Operands(SumObject(rest))[j] == rest[j];
    }
    forall p: Point ensures Total(rest + [c], s.meaning, p) == Total(rest, s.meaning, p) + sum {
      TotalOfConcat(rest, c, s.meaning, p);
    }
  }

  // A sum that has a term left ranks above 0.
  lemma RankPositive(s: Snapshot, ts: seq<nat>, sum: real, rest: seq<nat>, i: nat)
    requires Split(s, ts, |ts|, sum, rest, i) && rest != []
    ensures i in s.rank && s.rank[i] > 0
  {
    assert Operands(SumObject(rest))[0] == rest[0];
  }

  predicate NoneConstant(objects: map<nat, Object>, ids: seq<nat>) {
    forall k :: 0 <= k < |ids| ==> ids[k] in objects && !IsConstantObject(objects, ids[k])
  }

  lemma NoneConstantStays(a: Snapshot, b: Snapshot, n: nat, ids: seq<nat>)
    requires Step(a, b, n) && NoneConstant(a.objects, ids)
    ensures NoneConstant(b.objects, ids)
  {
  }

  lemma NoneConstantNext(objects: map<nat, Object>, ids: seq<nat>)
    ensures NoneConstant(objects, [])
    ensures NoneConstant(objects, ids) ==>
      forall i :: i in objects && !IsConstantObject(objects, i) ==> NoneConstant(objects, ids + [i])
  {
  }

  // What the two operands of i were folded to is worth what they were worth.
  ghost predicate OperandsFolded(a: Snapshot, b: Snapshot, i: nat) {
    && i in a.objects && (a.objects[i].ProductObject? || a.objects[i].MinObject?)
    && i in b.objects && (b.objects[i].ProductObject? || b.objects[i].MinObject?)
    && SameValue(b.meaning, b.objects[i].left, a.objects[i].left)
    && SameValue(b.meaning, b.objects[i].right, a.objects[i].right)
  }

  // What the fold of an object returns, by its operands as they are after their own folds.

  // A constant c; zero is an object of its own kind.
  predicate MadeConstant(objects: map<nat, Object>, r: nat, c: real) {
    r in objects && objects[r] == if c == 0.0 then ZeroObject else ConstantObject(c)
  }

  predicate ProductOutcome(objects: map<nat, Object>, i: nat, r: nat) {
    && i in objects && objects[i].ProductObject? && objects[i].left in objects && objects[i].right in objects
    && var left, right := objects[i].left, objects[i].right;
       var l, k := objects[left], objects[right];
       if l.ConstantObject? && k.ConstantObject? then MadeConstant(objects, r, Mul(l.value, k.value))
       else if l.ZeroObject? then r == left
       else if k.ZeroObject? then r == right
       else if l == ConstantObject(1.0) then r == right
       else if k == ConstantObject(1.0) then r == left
       else r == i
  }

  predicate MinOutcome(objects: map<nat, Object>, i: nat, r: nat) {
    && i in objects && objects[i].MinObject? && objects[i].left in objects && objects[i].right in objects
    && var l, k := objects[objects[i].left], objects[objects[i].right];
       if l.ConstantObject? && k.ConstantObject? then r in objects && objects[r] == ConstantObject(Smaller(l.value, k.value))
       else r == i
  }

  // Object b took the place of the base; powers of powers are merged.
  predicate PowerOutcome(objects: map<nat, Object>, i: nat, r: nat, b: nat, exponent: nat) {
    && i in objects && b in objects
    && match objects[b]
       case ConstantObject(c) => MadeConstant(objects, r, Pow(c, exponent))
       case ZeroObject => r == b
       case ConstPowerObject(base, e) => r == i && objects[i] == ConstPowerObject(base, exponent * e)
       case _ => r == i && objects[i] == ConstPowerObject(b, exponent)
  }

  // The constants among the terms added up to sum, if any was found; the others are rest.
  predicate SumOutcome(objects: map<nat, Object>, i: nat, r: nat, found: bool, sum: real, rest: seq<nat>) {
    && i in objects && NoneConstant(objects, rest) && i !in rest
    && if rest == [] then MadeConstant(objects, r, sum)
       else if !found && |rest| == 1 then r == rest[0]
       else if !found then r == i && objects[i] == SumObject(rest)
       else
         && r == i && objects[i].SumObject? && |objects[i].terms| == |rest| + 1
         && objects[i].terms[..|rest|] == rest && MadeConstant(objects, objects[i].terms[|rest|], sum)
  }

  // An object that is returned itself has nothing left to fold.

  lemma ProductFolded(s: Snapshot, i: nat)
    requires Ok(s) && ProductOutcome(s.objects, i, i)
    ensures Folded(s.objects, i)
  {
    OperandFacts(s, i, 0);
    OperandFacts(s, i, 1);
  }

  // A settled one is returned itself.
  lemma SettledProduct(s: Snapshot, i: nat, r: nat)
    requires Ok(s) && i in s.settled && ProductOutcome(s.objects, i, r)
    ensures r == i
  {
    hide Means, Ranked;
    SettledFolded(s, i);
  }

  // The values that the objects of a store have at every point, under both visitors.

  ghost predicate Exponents(objects: map<nat, Object>) {
    forall i :: i in objects && objects[i].ConstPowerObject? ==> objects[i].exponent >= 1
  }

  ghost function TermMeaning(objects: map<nat, Object>, rank: map<nat, nat>): Meaning
    requires Ranked(objects, rank)
  {
    map i | i in objects :: (p: Point) => Value(Eval, TermOf(objects, rank, i), p)
  }

  lemma OperandsHaveTerms(objects: map<nat, Object>, rank: map<nat, nat>, i: nat)
    requires Ranked(objects, rank) && i in objects
    ensures Under(objects[i], rank, i) && Known(Operands(objects[i]), TermMeaning(objects, rank))
    ensures forall k :: 0 <= k < |Operands(objects[i])| ==> Operands(objects[i])[k] in objects
  {
    hide TermOf, Value;
    assert Under(objects[i], rank, i);
  }

  lemma TermMeans(objects: map<nat, Object>, rank: map<nat, nat>, i: nat, p: Point)
    requires Ranked(objects, rank) && i in objects
    ensures Known(Operands(objects[i]), TermMeaning(objects, rank))
    ensures TermMeaning(objects, rank)[i](p) == Worth(objects[i], TermMeaning(objects, rank), p)
  {
    hide Mul, Pow, Ranked;
    var o, m := objects[i], TermMeaning(objects, rank);
    OperandsHaveTerms(objects, rank, i);
    forall k | 0 <= k < |Operands(o)|
      ensures m[Operands(o)[k]](p) == Value(Eval, TermOf(objects, rank, Operands(o)[k]), p)
    {
    }
    match o
    case SumObject(ts) => TotalIsValue(ts, TermOf(objects, rank, i).terms, m, Eval, p);
    case ProductObject(l, r) => assert Operands(o)[0] == l && Operands(o)[1] == r;
    case MinObject(l, r) => assert Operands(o)[0] == l && Operands(o)[1] == r;
    case ConstPowerObject(b, _) => assert Operands(o)[0] == b;
    case _ =>
  }

  lemma TermsMean(objects: map<nat, Object>, rank: map<nat, nat>)
    requires Ranked(objects, rank) && Exponents(objects)
    ensures Means(objects, TermMeaning(objects, rank))
  {
    hide Value, TermOf, Worth, Ranked;
    var m := TermMeaning(objects, rank);
    assert objects.Keys == m.Keys;
    forall i | i in objects
      ensures Fits(objects[i], m) && forall p: Point :: m[i](p) == Worth(objects[i], m, p)
    {
      OperandsHaveTerms(objects, rank, i);
      forall p: Point ensures m[i](p) == Worth(objects[i], m, p) {
        TermMeans(objects, rank, i, p);
      }
    }
  }

  // The values of all objects of a are the same in b.
  ghost predicate ValuesKept(a: Snapshot, b: Snapshot) {
    && Ranked(a.objects, a.rank) && Ranked(b.objects, b.rank)
    && forall j, w, p: Point :: j in a.objects ==>
      && j in b.objects
      && Value(w, TermOf(b.objects, b.rank, j), p) == Value(w, TermOf(a.objects, a.rank, j), p)
  }

  // Object r of b has the value that object i has in a.
  ghost predicate SameTerm(a: Snapshot, i: nat, b: Snapshot, r: nat) {
    && Ranked(a.objects, a.rank) && Ranked(b.objects, b.rank) && i in a.objects && r in b.objects
    && forall w, p: Point :: Value(w, TermOf(b.objects, b.rank, r), p) == Value(w, TermOf(a.objects, a.rank, i), p)
  }

  lemma StepKeepsValues(a: Snapshot, b: Snapshot, n: nat)
    requires Ok(a) && Ok(b) && Step(a, b, n)
    ensures ValuesKept(a, b)
  {
    hide Value, TermOf;
    forall j, w, p: Point | j in a.objects
      ensures j in b.objects && Value(w, TermOf(b.objects, b.rank, j), p) == Value(w, TermOf(a.objects, a.rank, j), p)
    {
      MeaningIsValue(a.objects, a.rank, a.meaning, w, j, p);
      MeaningIsValue(b.objects, b.rank, b.meaning, w, j, p);
    }
  }

  lemma ResultHasValue(a: Snapshot, b: Snapshot, n: nat, i: nat, r: nat)
    requires Ok(a) && Ok(b) && Step(a, b, n) && i in a.objects && r in b.objects && Result(b, r, i)
    ensures SameTerm(a, i, b, r)
  {
    hide Value, TermOf;
    forall w, p: Point
      ensures Value(w, TermOf(b.objects, b.rank, r), p) == Value(w, TermOf(a.objects, a.rank, i), p)
    {
      MeaningIsValue(a.objects, a.rank, a.meaning, w, i, p);
      MeaningIsValue(b.objects, b.rank, b.meaning, w, r, p);
    }
  }

  class TermStore {
    var objects: map<nat, Object>
    var nextId: nat
    ghost var meaning: Meaning
    ghost var rank: map<nat, nat>
    ghost var settled: set<nat>

    ghost function Now(): Snapshot
      reads this
    {
      Snapshot(objects, meaning, rank, settled)
    }

    ghost predicate Valid()
      reads this
    {
      Ok(Now()) && forall i :: i in objects ==> i < nextId
    }

    constructor (objects: map<nat, Object>, nextId: nat, ghost rank: map<nat, nat>)
      requires Ranked(objects, rank) && Exponents(objects) && forall i :: i in objects ==> i < nextId
      ensures Valid() && this.objects == objects && this.rank == rank
    {
      TermsMean(objects, rank);
      this.objects := objects;
      this.nextId := nextId;
      this.meaning := TermMeaning(objects, rank);
      this.rank := rank;
      this.settled := {};
    }

    method Allocate(o: Object, ghost c: real) returns (i: nat)
      requires Valid() && (o == ConstantObject(c) || (o == ZeroObject && c == 0.0))
      modifies this
      ensures Valid() && i in objects && i !in old(objects) && i in rank && rank[i] == 0 && IsConstant(meaning, i, c)
      ensures forall n: nat :: Step(old(Now()), Now(), n)
      ensures objects == old(objects)[i := o] && settled == old(settled) + {i}
    {
      hide Ok, Step, IsConstant;
      i := nextId;
      Allocated(Now(), i, o, c);
      settled := settled + {i};
      objects := objects[i := o];
      meaning := meaning[i := Always(c)];
      rank := rank[i := 0];
      nextId := nextId + 1;
    }

    // A new constant.
    method NewConstant(c: real) returns (i: nat)
      requires Valid()
      modifies this
      ensures Valid() && i in objects && i !in old(objects) && i in rank && rank[i] == 0 && IsConstant(meaning, i, c)
      ensures forall n: nat :: Step(old(Now()), Now(), n)
      ensures objects == old(objects)[i := if c == 0.0 then ZeroObject else ConstantObject(c)] && settled == old(settled) + {i}
    {
      hide Ok, Step, IsConstant;
      i := Allocate(if c == 0.0 then ZeroObject else ConstantObject(c), c);
    }

    // Rewrites object i in place.
    method Rewrite(i: nat, o: Object)
      requires Valid() && CanBecome(Now(), i, o) && SameKind(objects[i], o) && StaysSettled(Now(), i, o)
      modifies this`objects
      ensures Valid() && i in rank && objects == old(objects)[i := o] && Step(old(Now()), Now(), rank[i])
    {
      hide Ok, Step, Under, Fits, Worth, StaysSettled, SameKind;
      Rewritten(Now(), i, o);
      objects := objects[i := o];
    }

    // Object i has nothing left to fold.
    ghost method Settle(i: nat, n: nat)
      requires Valid() && i in objects && i in rank && rank[i] <= n && Folded(objects, i) && AllIn(Operands(objects[i]), settled)
      modifies this`settled
      ensures Valid() && i in settled && Step(old(Now()), Now(), n)
    {
      hide Ok, Step, Folded;
      SettlesOne(Now(), i, n);
      settled := settled + {i};
    }

    // Folds the constants below a term, and returns the term to use in its place. Every term keeps
    // its value at every point, whether the fold rewrites it or not; at and below the term returned
    // there are no constants left to fold.
    method AggregateConstants(i: nat) returns (r: nat)
      requires Valid() && i in objects && i in rank
      modifies this
      ensures Valid() && r in objects
      ensures ValuesKept(old(Now()), Now()) && SameTerm(old(Now()), i, Now(), r)
      ensures NothingToFold(objects, r)
    {
      hide Ok, Step, Result, NothingToFold;
      ghost var n, start := rank[i], Now();
      r := Aggregate(i);
      StepKeepsValues(start, Now(), n);
      ResultHasValue(start, Now(), n, i, r);
      SettledHasNothing(Now(), r);
    }

    // Folds the constants below object i, and returns the object to use in its place.
    method Aggregate(i: nat) returns (r: nat)
      requires Valid() && i in objects && i in rank
      modifies this
      ensures Valid() && Step(old(Now()), Now(), old(rank)[i]) && r in objects && Result(Now(), r, i)
      ensures r in settled && (i in old(settled) ==> Alike(objects, r, i))
      decreases rank[i], 4
    {
      hide Ok, Step, Result, ProductOutcome, MinOutcome, SumOutcome, PowerOutcome, Folded, Alike;
      NoStep(Now(), rank[i]);
      FoldedConstant(objects, i);
      Itself(Now(), i);
      match objects[i] {
        case SumObject(_) =>
          ghost var found, sum, rest;
          r, found, sum, rest := AggregateSum(i);
        case ProductObject(_, _) => r := AggregateProduct(i);
        case ConstPowerObject(_, _) =>
          ghost var b;
          r, b := AggregatePower(i);
        case MinObject(_, _) => r := AggregateMin(i);
        case _ =>
          r := i;
          Settle(i, rank[i]);
          Itself(Now(), i);
          AlikeSelf(objects, i);
      }
    }

    // Aggregates operand k of object i.
    method AggregateOperand(i: nat, k: nat) returns (r: nat)
      requires Valid() && i in objects && i in rank && k < |Operands(objects[i])|
      modifies this
      ensures Valid() && Step(old(Now()), Now(), old(rank)[i])
      ensures i in objects && i in rank && rank[i] == old(rank)[i] && objects[i] == old(objects)[i]
      ensures r in objects && Replaces(Now(), r, Operands(objects[i])[k], i)
      ensures r in settled && (i in settled <==> i in old(settled))
      ensures i in settled ==> Alike(objects, r, Operands(objects[i])[k])
      decreases rank[i], 0
    {
      hide Ok, Step, Alike;
      ghost var before, x := Now(), Operands(objects[i])[k];
      OperandFacts(before, i, k);
      SettledFolded(before, i);
      r := Aggregate(Operands(objects[i])[k]);
      StepAt(before, Now(), before.rank[x], before.rank[i], i);
      StepAt(before, Now(), before.rank[x], before.rank[i], x);
    }

    // Writes the operands of object i.
    method WriteOperands(i: nat, l: nat, r: nat)
      requires Valid() && i in objects && (objects[i].ProductObject? || objects[i].MinObject?)
      requires Replaces(Now(), l, objects[i].left, i) && Replaces(Now(), r, objects[i].right, i)
      requires i in settled ==> l in settled && r in settled && Alike(objects, l, objects[i].left) && Alike(objects, r, objects[i].right)
      modifies this`objects
      ensures Valid() && i in rank && Step(old(Now()), Now(), rank[i])
      ensures objects == old(objects)[i := if old(objects[i]).ProductObject? then ProductObject(l, r) else MinObject(l, r)]
      ensures l in objects && r in objects && l != i && r != i
    {
      hide Ok, Step, Replaces, CanBecome, Alike, SameKind, StaysSettled;
      PairStep(Now(), i, l, r);
      PairStaysSettled(Now(), i, l, r);
      Rewrite(i, if objects[i].ProductObject? then ProductObject(l, r) else MinObject(l, r));
    }

    // Folds the left operand of object i, in place.
    method AggregateLeft(i: nat) returns (left: nat)
      requires Valid() && i in objects && i in rank && (objects[i].ProductObject? || objects[i].MinObject?)
      modifies this
      ensures Valid() && Step(old(Now()), Now(), old(rank)[i]) && i in objects && i in rank && rank[i] == old(rank)[i]
      ensures objects[i] == if old(objects[i]).ProductObject? then ProductObject(left, old(objects[i].right)) else MinObject(left, old(objects[i].right))
      ensures Replaces(Now(), left, old(objects[i].left), i) && Replaces(Now(), left, left, i)
      ensures left in objects && left != i && left in settled && (i in settled <==> i in old(settled))
      decreases rank[i], 1
    {
      hide Ok, Step, Replaces, CanBecome, Alike, AllIn;
      ghost var n, start, x := rank[i], Now(), objects[i].left;
      left := AggregateOperand(i, 0);
      OperandFacts(Now(), i, 1);
      PairOperands(Now(), i);
      ghost var s := Now();
      WriteOperands(i, left, objects[i].right);
      StepTwice(start, s, Now(), n);
      ReplacesStays(s, Now(), n, left, x, i);
    }

    // Folds the right operand of object i, in place.
    method AggregateRight(i: nat) returns (right: nat)
      requires Valid() && i in objects && i in rank && (objects[i].ProductObject? || objects[i].MinObject?)
      modifies this
      ensures Valid() && Step(old(Now()), Now(), old(rank)[i]) && i in objects && i in rank && rank[i] == old(rank)[i]
      ensures objects[i] == if old(objects[i]).ProductObject? then ProductObject(old(objects[i].left), right) else MinObject(old(objects[i].left), right)
      ensures Replaces(Now(), right, old(objects[i].right), i) && Replaces(Now(), right, right, i)
      ensures right in objects && right != i && right in settled && (i in settled <==> i in old(settled))
      decreases rank[i], 1
    {
      hide Ok, Step, Replaces, CanBecome, Alike, AllIn;
      ghost var n, start, x := rank[i], Now(), objects[i].right;
      right := AggregateOperand(i, 1);
      OperandFacts(Now(), i, 0);
      PairOperands(Now(), i);
      ghost var s := Now();
      WriteOperands(i, objects[i].left, right);
      StepTwice(start, s, Now(), n);
      ReplacesStays(s, Now(), n, right, x, i);
    }

    // Folds both operands of object i, in place.
    method AggregateOperands(i: nat) returns (left: nat, right: nat)
      requires Valid() && i in objects && i in rank && (objects[i].ProductObject? || objects[i].MinObject?)
      modifies this
      ensures Valid() && Step(old(Now()), Now(), old(rank)[i]) && i in objects && i in rank && rank[i] == old(rank)[i]
      ensures objects[i] == if old(objects[i]).ProductObject? then ProductObject(left, right) else MinObject(left, right)
      ensures Replaces(Now(), left, old(objects[i].left), i) && Replaces(Now(), right, old(objects[i].right), i)
      ensures Replaces(Now(), left, left, i) && Replaces(Now(), right, right, i)
      ensures left in objects && right in objects && left != i && right != i
      ensures left in settled && right in settled && (i in settled <==> i in old(settled))
      decreases rank[i], 2
    {
      hide Ok, Step, Replaces;
      ghost var n, start, x := rank[i], Now(), objects[i].left;
      left := AggregateLeft(i);
      ghost var s := Now();
      right := AggregateRight(i);
      StepTwice(start, s, Now(), n);
      ReplacesStays(s, Now(), n, left, x, i);
      StillSettled(s, Now(), n, left);
    }

    method AggregateProduct(i: nat) returns (r: nat)
      requires Valid() && i in objects && i in rank && objects[i].ProductObject?
      modifies this
      ensures Valid() && Step(old(Now()), Now(), old(rank)[i]) && r in objects && Result(Now(), r, i)
      ensures ProductOutcome(objects, i, r) && OperandsFolded(old(Now()), Now(), i)
      ensures r in settled && (i in old(settled) ==> Alike(objects, r, i))
      decreases rank[i], 3
    {
      hide Ok, Step, Mul, Replaces, Result, IsConstant, SameValue, OperandsFolded, Folded, Alike, AllIn;
      ghost var n, start := rank[i], Now();
      var left, right := AggregateOperands(i);
      ghost var s := Now();
      BothFolded(start, s, n, i);
      var l, k := objects[left], objects[right];
      Facts(s, left);
      Facts(s, right);
      ProductFolds(s, i, if l.ConstantObject? then l.value else 0.0, if k.ConstantObject? then k.value else 0.0);
      if l.ConstantObject? && k.ConstantObject? {
        r := NewConstant(Mul(l.value, k.value));
        StepTwice(start, s, Now(), n);
        ConstantStays(s, Now(), n, i, Mul(l.value, k.value));
        ConstantResult(Now(), r, i, Mul(l.value, k.value));
        FoldedStays(start, s, Now(), n, i);
      } else if l.ZeroObject? {
        ReplacementResult(s, left, left, i);
        r := left;
      } else if k.ZeroObject? {
        ReplacementResult(s, right, right, i);
        r := right;
      } else if l.ConstantObject? && l.value == 1.0 {
        ReplacementResult(s, right, right, i);
        r := right;
      } else if k.ConstantObject? && k.value == 1.0 {
        ReplacementResult(s, left, left, i);
        r := left;
      } else {
        r := i;
        ProductFolded(s, i);
        PairSettles(s, i);
        Settle(i, n);
        StepTwice(start, s, Now(), n);
        Itself(Now(), i);
        FoldedStays(start, s, Now(), n, i);
      }
      if i in old(settled) {
        StillSettled(start, Now(), n, i);
        SettledProduct(Now(), i, r);
        AlikeSelf(objects, i);
      }
    }

    method AggregateMin(i: nat) returns (r: nat)
      requires Valid() && i in objects && i in rank && objects[i].MinObject?
      modifies this
      ensures Valid() && Step(old(Now()), Now(), old(rank)[i]) && r in objects && Result(Now(), r, i)
      ensures MinOutcome(objects, i, r) && OperandsFolded(old(Now()), Now(), i)
      ensures r in settled && (i in old(settled) ==> Alike(objects, r, i))
      decreases rank[i], 3
    {
      hide Ok, Step, Replaces, Result, IsConstant, SameValue, OperandsFolded, Folded, Alike, AllIn;
      ghost var n, start := rank[i], Now();
      var left, right := AggregateOperands(i);
      ghost var s := Now();
      BothFolded(start, s, n, i);
      var l, k := objects[left], objects[right];
      Facts(s, left);
      Facts(s, right);
      if l.ConstantObject? && k.ConstantObject? {
        var least := Smaller(l.value, k.value);
        MinFolds(s, i, l.value, k.value);
        r := Allocate(ConstantObject(least), least);
        StepTwice(start, s, Now(), n);
        ConstantStays(s, Now(), n, i, least);
        ConstantResult(Now(), r, i, least);
        FoldedStays(start, s, Now(), n, i);
        SettledMin(s, i);
      } else {
        r := i;
        SettledMin(s, i);
        PairSettles(s, i);
        Settle(i, n);
        StepTwice(start, s, Now(), n);
        Itself(Now(), i);
        FoldedStays(start, s, Now(), n, i);
        AlikeSelf(objects, i);
      }
    }

    // The source writes the base before it looks at it; here a merged power is written at once.
    method AggregatePower(i: nat) returns (r: nat, ghost b: nat)
      requires Valid() && i in objects && i in rank && objects[i].ConstPowerObject?
      modifies this
      ensures Valid() && Step(old(Now()), Now(), old(rank)[i]) && r in objects && Result(Now(), r, i)
      ensures PowerOutcome(objects, i, r, b, old(objects[i].exponent)) && SameValue(meaning, b, old(objects[i].base))
      ensures r in settled && (i in old(settled) ==> Alike(objects, r, i))
      decreases rank[i], 2
    {
      hide Ok, Step, Pow, Replaces, Result, CanBecome, IsConstant, SameValue, Folded, Alike, AllIn, StaysSettled;
      ghost var n, start, x := rank[i], Now(), objects[i].base;
      var exponent := objects[i].exponent;
      var base := AggregateOperand(i, 0);
      b := base;
      ghost var s := Now();
      BelowSelf(s, base, x, i);
      Facts(s, base);
      var o := objects[base];
      SettledPower(s, i, base);
      if o.ConstPowerObject? {
        PowerStaysSettled(s, i, base, exponent * o.exponent);
        NestedStep(s, i, base);
        Rewrite(i, ConstPowerObject(o.base, exponent * o.exponent));
        FinishPower(i, start, s, n, base, x);
        r := i;
      } else {
        WriteBase(i, base);
        ghost var s2 := Now();
        ReplacesStays(s, s2, n, base, x, i);
        if o.ConstantObject? || o.ZeroObject? {
          r := ConstantPower(i);
          StepTwice(s, s2, Now(), n);
          StepTwice(start, s, Now(), n);
          ReplacesStays(s2, Now(), n, base, x, i);
        } else {
          PlainPower(s2, i);
          FinishPower(i, start, s, n, base, x);
          r := i;
        }
      }
      ReplacesWorth(Now(), base, x, i);
    }

    // Writes the base of power i, which is no power itself.
    method WriteBase(i: nat, base: nat)
      requires Valid() && i in objects && objects[i].ConstPowerObject? && Replaces(Now(), base, objects[i].base, i)
      requires base != i && base in objects && base in settled && !objects[base].ConstPowerObject?
      requires i in settled ==> Alike(objects, base, objects[i].base)
      modifies this`objects
      ensures Valid() && i in rank && Step(old(Now()), Now(), rank[i])
      ensures objects == old(objects)[i := ConstPowerObject(base, old(objects[i].exponent))]
    {
      hide Ok, Step, Replaces, CanBecome, Alike, StaysSettled;
      PowerStaysSettled(Now(), i, base, objects[i].exponent);
      PowerStep(Now(), i, base);
      Rewrite(i, ConstPowerObject(base, objects[i].exponent));
    }

    // The constant that a power with a constant base is.
    method ConstantPower(i: nat) returns (r: nat)
      requires Valid() && i in objects && i in rank && objects[i].ConstPowerObject? && objects[i].base in objects
      requires IsConstantObject(objects, objects[i].base) && objects[i].base in settled
      modifies this
      ensures Valid() && Step(old(Now()), Now(), old(rank)[i]) && r in objects && Result(Now(), r, i) && r in settled
      ensures PowerOutcome(objects, i, r, old(objects[i].base), old(objects[i].exponent))
    {
      hide Ok, Step, Pow, Replaces, Result, IsConstant, SameValue;
      ghost var n, s := rank[i], Now();
      var base, exponent := objects[i].base, objects[i].exponent;
      var o := objects[base];
      Facts(s, base);
      OperandFacts(s, i, 0);
      assert Operands(objects[i])[0] == base;
      if o.ConstantObject? {
        PowerFolds(s, i, o.value);
        r := NewConstant(Pow(o.value, exponent));
        ConstantStays(s, Now(), n, i, Pow(o.value, exponent));
        ConstantResult(Now(), r, i, Pow(o.value, exponent));
      } else {
        PowerFolds(s, i, 0.0);
        ReplacementResult(s, base, base, i);
        NoStep(s, n);
        r := base;
      }
    }

    // The power written last stays, and has nothing left to fold.
    ghost method FinishPower(i: nat, start: Snapshot, s: Snapshot, n: nat, base: nat, x: nat)
      requires Valid() && Step(start, s, n) && Step(s, Now(), n) && Replaces(s, base, x, i)
      requires i in objects && i in rank && rank[i] == n && objects[i].ConstPowerObject?
      requires Folded(objects, i) && objects[i].base in settled
      modifies this`settled
      ensures Valid() && Step(start, Now(), n) && Result(Now(), i, i) && Replaces(Now(), base, x, i)
      ensures i in settled && Alike(objects, i, i)
    {
      hide Ok, Step, Pow, Replaces, Result, Folded, Alike;
      StepTwice(start, s, Now(), n);
      ghost var t := Now();
      ReplacesStays(s, t, n, base, x, i);
      assert Operands(objects[i]) == [objects[i].base];
      Settle(i, n);
      StepTwice(start, t, Now(), n);
      ReplacesStays(t, Now(), n, base, x, i);
      Itself(Now(), i);
      AlikeSelf(objects, i);
    }

    method AggregateSum(i: nat) returns (r: nat, ghost found: bool, ghost constants: real, ghost rest: seq<nat>)
      requires Valid() && i in objects && i in rank && objects[i].SumObject?
      modifies this
      ensures Valid() && Step(old(Now()), Now(), old(rank)[i]) && r in objects && Result(Now(), r, i)
      ensures SumOutcome(objects, i, r, found, constants, rest) && Known(rest, meaning) && Known(old(objects[i].terms), meaning)
      ensures r in settled && (i in old(settled) ==> Alike(objects, r, i))
      ensures forall p: Point :: Total(old(objects[i].terms), meaning, p) == constants + Total(rest, meaning, p)
      decreases rank[i], 1
    {
      hide Ok, Step, Replaces, Result, CanBecome, IsConstant, SameValue, Split, NoneConstant, SumOutcome, Total, Alike, AllIn, Folded;
      ghost var n, start := rank[i], Now();
      var ts := objects[i].terms;
      var foundConst, sum := false, 0.0;
      var nonConst: seq<nat> := [];
      NothingSplit(start, i);
      NoStep(start, n);
      NoneConstantNext(objects, []);
      NoneSettled(start);
      for k := 0 to |ts|
        invariant Valid() && Step(start, Now(), n)
        invariant i in objects && i in rank && rank[i] == n && objects[i] == SumObject(ts)
        invariant Split(Now(), ts, k, sum, nonConst, i) && NoneConstant(objects, nonConst)
        invariant !foundConst ==> sum == 0.0
        invariant AllIn(nonConst, settled) && (i in settled <==> i in start.settled)
        invariant i in settled && k > 0 ==> nonConst != []
      {
        ghost var before := Now();
        SettledSum(before, i);
        var cur := AggregateOperand(i, k);
        StillAllSettled(before, Now(), n, nonConst, cur);
        AlikeConstant(objects, cur, ts[k]);
        StepKinds(before, Now(), n, ts[k]);
        StepTwice(start, before, Now(), n);
        SplitStays(before, Now(), n, ts, k, sum, nonConst, i);
        NoneConstantStays(before, Now(), n, nonConst);
        Facts(Now(), cur);
        NoneConstantNext(objects, nonConst);
        var o := objects[cur];
        SplitNext(Now(), ts, k, sum, nonConst, i, cur, if o.ConstantObject? then o.value else 0.0);
        if o.ConstantObject? {
          sum := sum + o.value;
          foundConst := true;
        } else if !o.ZeroObject? {
          nonConst := nonConst + [cur];
        }
      }
      ghost var folded := Now();
      SettledSum(folded, i);
      r := FinishSum(i, foundConst, sum, nonConst);
      StepTwice(start, folded, Now(), n);
      SplitStays(folded, Now(), n, ts, |ts|, sum, nonConst, i);
      SplitTotals(Now(), ts, sum, nonConst, i);
      found, constants, rest := foundConst, sum, nonConst;
    }

    // A sum with its constants added up and its other terms collected.
    method FinishSum(i: nat, foundConst: bool, sum: real, nonConst: seq<nat>) returns (r: nat)
      requires Valid() && i in objects && i in rank && objects[i].SumObject?
      requires Split(Now(), objects[i].terms, |objects[i].terms|, sum, nonConst, i) && NoneConstant(objects, nonConst)
      requires !foundConst ==> sum == 0.0
      requires AllIn(nonConst, settled) && (i in settled ==> nonConst != [])
      modifies this
      ensures Valid() && Step(old(Now()), Now(), old(rank)[i]) && r in objects && Result(Now(), r, i)
      ensures SumOutcome(objects, i, r, foundConst, sum, nonConst)
      ensures r in settled && (i in old(settled) ==> Alike(objects, r, i))
    {
      hide Ok, Step, Result, CanBecome, IsConstant, Split, NoneConstant, Folded, StaysSettled, Alike;
      ghost var n, start, ts := rank[i], Now(), objects[i].terms;
      NoStep(start, n);
      SumFolds(start, i, sum, nonConst);
      NotItself(start, ts, sum, nonConst, i);
      if nonConst == [] {
        r := NewConstant(sum);
        ConstantStays(start, Now(), n, i, sum);
        ConstantResult(Now(), r, i, sum);
        NoneConstantStays(start, Now(), n, nonConst);
      } else if !foundConst && |nonConst| == 1 {
        r := nonConst[0];
        ResultExists(start, r, i);
        AlikeSum(start, i, r, nonConst);
      } else {
        r := i;
        CollectSum(i, foundConst, sum, nonConst);
      }
    }

    // Writes the terms of a sum: the collected ones, and the constant if one was found.
    method CollectSum(i: nat, foundConst: bool, sum: real, nonConst: seq<nat>)
      requires Valid() && i in objects && i in rank && objects[i].SumObject?
      requires Split(Now(), objects[i].terms, |objects[i].terms|, sum, nonConst, i) && NoneConstant(objects, nonConst)
      requires nonConst != [] && i !in nonConst && AllIn(nonConst, settled)
      requires !foundConst ==> sum == 0.0 && |nonConst| > 1
      modifies this
      ensures Valid() && Step(old(Now()), Now(), old(rank)[i]) && i in objects && Result(Now(), i, i)
      ensures SumOutcome(objects, i, i, foundConst, sum, nonConst)
      ensures i in settled && Alike(objects, i, i)
    {
      hide Ok, Step, Result, CanBecome, IsConstant, Split, NoneConstant, Folded, StaysSettled, Alike, AllIn;
      ghost var n, start, ts := rank[i], Now(), objects[i].terms;
      NoStep(start, n);
      SumFolds(start, i, sum, nonConst);
      NoneSettled(start);
      var terms := nonConst;
      ghost var last: seq<nat> := [];
      if foundConst {
        RankPositive(start, ts, sum, nonConst, i);
        var c := NewConstant(sum);
        StepAt(start, Now(), n - 1, n, i);
        SplitStays(start, Now(), n, ts, |ts|, sum, nonConst, i);
        NoneConstantStays(start, Now(), n, nonConst);
        ConstantCollected(Now(), ts, sum, nonConst, i, c);
        StillAllSettled(start, Now(), n, nonConst, c);
        StillAllSettled(start, Now(), n, [], c);
        terms := nonConst + [c];
        last := [c];
        SumFolds(Now(), i, 0.0, terms);
      }
      assert terms == nonConst + last;
      ghost var collected := Now();
      WriteSum(i, terms, nonConst, last);
      StepTwice(start, collected, Now(), n);
      NoneConstantStays(collected, Now(), n, nonConst);
      Itself(Now(), i);
      AlikeSelf(objects, i);
    }

    // Writes the terms of sum i, which then has nothing left to fold.
    method WriteSum(i: nat, terms: seq<nat>, ghost ids: seq<nat>, ghost last: seq<nat>)
      requires Valid() && i in objects && i in rank && objects[i].SumObject? && CanBecome(Now(), i, SumObject(terms))
      requires terms == ids + last && |terms| >= 2 && |last| <= 1 && i !in ids && i !in last
      requires NoneConstant(objects, ids) && AllIn(ids, settled) && AllIn(last, settled)
      modifies this`objects, this`settled
      ensures Valid() && objects == old(objects)[i := SumObject(terms)] && i in settled && Step(old(Now()), Now(), rank[i])
    {
      hide Ok, Step, CanBecome, NoneConstant, Folded, StaysSettled, AllIn, SameKind;
      ghost var n, start := rank[i], Now();
      SumStaysSettled(start, i, ids, last);
      Rewrite(i, SumObject(terms));
      ghost var written := Now();
      Settle(i, n);
      StepTwice(start, written, Now(), n);
    }
  }

  lemma BothFolded(a: Snapshot, b: Snapshot, n: nat, i: nat)
    requires i in a.objects && (a.objects[i].ProductObject? || a.objects[i].MinObject?)
    requires i in b.objects && (b.objects[i].ProductObject? || b.objects[i].MinObject?)
    requires Replaces(b, b.objects[i].left, a.objects[i].left, i) && Replaces(b, b.objects[i].right, a.objects[i].right, i)
    ensures OperandsFolded(a, b, i)
  {
  }

  lemma FoldedStays(a: Snapshot, b: Snapshot, c: Snapshot, n: nat, i: nat)
    requires OperandsFolded(a, b, i) && Step(b, c, n) && i in c.objects && c.objects[i] == b.objects[i]
    ensures OperandsFolded(a, c, i)
  {
  }

  lemma ReplacesWorth(s: Snapshot, r: nat, x: nat, i: nat)
    requires Replaces(s, r, x, i)
    ensures SameValue(s.meaning, r, x)
  {
  }

  lemma BelowSelf(s: Snapshot, r: nat, x: nat, i: nat)
    requires Replaces(s, r, x, i)
    ensures r != i
  {
  }

  lemma NotItself(s: Snapshot, ts: seq<nat>, sum: real, rest: seq<nat>, i: nat)
    requires Split(s, ts, |ts|, sum, rest, i)
    ensures i !in rest
  {
    hide Total;
    forall j | 0 <= j < |rest| ensures rest[j] != i {
      assert Operands(SumObject(rest))[j] == rest[j];
    }
  }

  lemma SplitTotals(s: Snapshot, ts: seq<nat>, sum: real, rest: seq<nat>, i: nat)
    requires Split(s, ts, |ts|, sum, rest, i)
    ensures Known(ts, s.meaning) && Known(rest, s.meaning)
    ensures forall p: Point :: Total(ts, s.meaning, p) == sum + Total(rest, s.meaning, p)
  {
    assert ts[..|ts|] == ts;
  }

  // What settled objects are like.

  lemma SettledHasNothing(s: Snapshot, i: nat)
    requires Ok(s) && i in s.settled
    ensures NothingToFold(s.objects, i)
  {
    hide Means, Ranked, AllFolded;
  }

  lemma StillSettled(a: Snapshot, b: Snapshot, n: nat, i: nat)
    requires Step(a, b, n)
    ensures i in a.settled ==> i in b.settled
  {
  }

  lemma StillAllSettled(a: Snapshot, b: Snapshot, n: nat, ids: seq<nat>, i: nat)
    requires Step(a, b, n) && AllIn(ids, a.settled) && i in b.settled
    ensures AllIn(ids, b.settled) && AllIn(ids + [i], b.settled) && [] + [i] == [i]
  {
  }

  lemma NoneSettled(s: Snapshot)
    ensures AllIn([], s.settled)
  {
  }

  lemma StepKinds(a: Snapshot, b: Snapshot, n: nat, i: nat)
    requires Step(a, b, n) && i in a.objects
    ensures IsConstantObject(a.objects, i) <==> IsConstantObject(b.objects, i)
  {
  }

  lemma AlikeConstant(objects: map<nat, Object>, r: nat, x: nat)
    ensures Alike(objects, r, x) && !IsConstantObject(objects, x) ==> !IsConstantObject(objects, r)
  {
  }

  lemma PairOperands(s: Snapshot, i: nat)
    requires Ok(s) && i in s.objects && (s.objects[i].ProductObject? || s.objects[i].MinObject?)
    ensures s.objects[i].left in s.objects && s.objects[i].right in s.objects
    ensures s.objects[i].left != i && s.objects[i].right != i
    ensures Alike(s.objects, s.objects[i].left, s.objects[i].left) && Alike(s.objects, s.objects[i].right, s.objects[i].right)
    ensures i in s.settled ==> s.objects[i].left in s.settled && s.objects[i].right in s.settled
  {
    OperandFacts(s, i, 0);
    OperandFacts(s, i, 1);
    SettledFolded(s, i);
    assert Operands(s.objects[i])[0] == s.objects[i].left && Operands(s.objects[i])[1] == s.objects[i].right;
  }

  lemma PairSettles(s: Snapshot, i: nat)
    requires i in s.objects && (s.objects[i].ProductObject? || s.objects[i].MinObject?)
    requires s.objects[i].left in s.settled && s.objects[i].right in s.settled
    ensures AllIn(Operands(s.objects[i]), s.settled)
  {
  }

  lemma SettledMin(s: Snapshot, i: nat)
    requires Ok(s) && i in s.objects && s.objects[i].MinObject? && s.objects[i].left in s.objects && s.objects[i].right in s.objects
    ensures Folded(s.objects, i) <==> !(s.objects[s.objects[i].left].ConstantObject? && s.objects[s.objects[i].right].ConstantObject?)
    ensures i in s.settled ==> Folded(s.objects, i)
  {
    hide Means, Ranked;
  }

  lemma SettledPower(s: Snapshot, i: nat, b: nat)
    requires Ok(s) && i in s.objects && s.objects[i].ConstPowerObject? && (i in s.settled ==> Alike(s.objects, b, s.objects[i].base))
    ensures i in s.settled ==> !IsConstantObject(s.objects, b)
  {
    hide Means, Ranked;
    SettledFolded(s, i);
  }

  lemma PlainPower(s: Snapshot, i: nat)
    requires i in s.objects && s.objects[i].ConstPowerObject? && s.objects[i].base in s.objects
    requires !IsConstantObject(s.objects, s.objects[i].base) && !s.objects[s.objects[i].base].ConstPowerObject?
    ensures Folded(s.objects, i)
  {
  }

  lemma SettledSum(s: Snapshot, i: nat)
    requires Ok(s) && i in s.objects && s.objects[i].SumObject?
    ensures i in s.settled ==> |s.objects[i].terms| >= 2 && s.objects[i].terms[0] in s.objects && !IsConstantObject(s.objects, s.objects[i].terms[0])
    ensures AllIn([], s.settled)
    ensures Known(s.objects[i].terms, s.meaning) && forall k :: 0 <= k < |s.objects[i].terms| ==> s.objects[i].terms[k] in s.objects
  {
    SettledFolded(s, i);
    assert Fits(s.objects[i], s.meaning);
  }

  lemma AlikeSum(s: Snapshot, i: nat, r: nat, ids: seq<nat>)
    requires i in s.objects && s.objects[i].SumObject? && NoneConstant(s.objects, ids) && r in s.objects && |ids| == 1 && r == ids[0]
    ensures Alike(s.objects, r, i)
  {
  }

  lemma SumStaysSettled(s: Snapshot, i: nat, ids: seq<nat>, last: seq<nat>)
    requires i in s.objects && s.objects[i].SumObject? && NoneConstant(s.objects, ids) && i !in ids && i !in last
    requires |last| <= 1 && |ids + last| >= 2 && AllIn(ids, s.settled) && AllIn(last, s.settled)
    ensures SameKind(s.objects[i], SumObject(ids + last)) && StaysSettled(s, i, SumObject(ids + last))
    ensures Folded(s.objects[i := SumObject(ids + last)], i) && AllIn(Operands(SumObject(ids + last)), s.settled)
  {
    assert forall k :: 0 <= k < |ids + last| - 1 ==> (ids + last)[k] == ids[k];
  }

  lemma ResultExists(s: Snapshot, r: nat, i: nat)
    requires Ok(s) && Result(s, r, i)
    ensures r in s.objects
  {
  }
}
