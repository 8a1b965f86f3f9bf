// The entities of the SAT solver (constraintsolver/src/types) and the meaning of clauses.
//
// Variables and clauses are identified by numbers: a pointer of the source is an index here.
module SatTypes {

  datatype Lit = Lit(v: nat, sign: bool)

  function Negated(l: Lit): Lit {
    Lit(l.v, !l.sign)
  }

  // A clause of the database with its two watched literals and its cached `satisfied` flag.
  datatype Clause = Clause(literals: seq<Lit>, watch0: Lit, watch1: Lit, satisfied: bool, activity: nat)

  // One of the two watchers of a clause.
  datatype Watcher = Watcher(clause: nat, first: bool)

  // A valuation is the set of the variables that are true in it.

  ghost predicate Holds(m: set<nat>, l: Lit) {
    (l.v in m) == l.sign
  }

  ghost predicate HoldsSome(m: set<nat>, ls: seq<Lit>) {
    exists l :: l in ls && Holds(m, l)
  }

  ghost predicate Models(m: set<nat>, cs: seq<seq<Lit>>) {
    forall c :: c in cs ==> HoldsSome(m, c)
  }

  ghost predicate Entails(cs: seq<seq<Lit>>, ls: seq<Lit>) {
    forall m: set<nat> :: Models(m, cs) ==> HoldsSome(m, ls)
  }

  ghost predicate Satisfiable(cs: seq<seq<Lit>>) {
    exists m: set<nat> :: Models(m, cs)
  }

  // No literal occurs together with its complement.
  ghost predicate NoComplement(ls: seq<Lit>) {
    forall l, k :: l in ls && k in ls && l.v == k.v ==> l == k
  }
}
