# Verified models of the constraint solving core

This project models, in Dafny, five parts of the repository and proves what they are for:

* **The CDCL SAT solver** (`constraintsolver/src/CNSat.cpp` with its clause, variable, literal
  and watcher types) in pure SAT mode. The solver is the class `SatSolver.CNSat`; its methods run
  the source's loops on its trail, decision levels, watch lists and cached flags. Solving always
  ends, answers `true` exactly when the clauses are satisfiable, and then leaves every clause
  satisfied. `SatProblem` reads whole problems into a solver and decides them.
* **The tape compiler and reverse-mode differentiator** (`autodiff/src/CompiledDifferentiator.cpp`).
  A shared term is compiled to a tape; the values, the local weights and the adjoints that the
  sweeps leave on it are proved to be the value and the partial derivatives of the term, and the
  latter to be derivatives in the sense of analysis (`Calculus`).
* **The transformation of formulas to clauses** (`constraintsolver/src/FormulaTransform.cpp`) on
  literals that are shared between clauses and rewritten in place. It ends and keeps the meaning
  of the formula for every truth valuation of its comparisons.
* **Interval contraction** (`constraintsolver/src/intervals`): no visit, and no run of visits,
  cuts off a value that some point takes; the narrowing of a sum is exact and takes at most two
  rounds; the queue of changed terms is a duplicate-free linked list.
* **The configuration printer and line parser** (`system_config/src/Configuration.cpp`), which
  undo each other; and **constant folding** of shared terms in place
  (`aggregateConstants` of `autodiff`).

Numbers are exact reals. A property that the source does not have everywhere is stated with the
condition under which it holds, beside a concrete case in which it does not
(`AutodiffValues.SweepsAgree` and `AutodiffValues.EvaluateAndDifferentiateDiffer`,
`IntervalTerms.MaxVisitExactly` and `IntervalTerms.MaxOfNumbersIsUnsound`, `SatWatch.UnitRuleExactly` and
`SatWatch.ComplementMisleads`, `SatProblem.SolveClauses` and `SatProblem.AnswerAloneIsWrong`).

The headline results:

| result | where |
|---|---|
| a problem is satisfiable iff the solver accepts all clauses and answers true | `SatProblem.SolveClauses`, `SatSolver.CNSat.Solve` |
| a conflict is resolved to the first implication point and minimised exactly; learnt clauses are entailed, also after literals were removed whose justification was removed too | `SatSolver.CNSat.ResolveConflict`, `SatLearn.RemovedRefuted` |
| every decision and every conflict lowers a rank, propagation does not raise it | `SatRank.ProgressLowersRank`, `SatRank.ExtendingKeepsRank` |
| reverse mode gives the partial derivatives, and they are the derivatives | `AutodiffTermUtils.Differentiate`, `AutodiffDerivative.PartialIsTheDerivative`, `AutodiffSymbolic.PolynomialSlope` |
| exactly where evaluation and differentiation agree | `AutodiffValues.SweepsAgree`, `AutodiffValues.SweepsAgreeWithoutOr` |
| a formula is true in a valuation, or at a point, iff its clauses are satisfied; clauses and formula are satisfiable together; a negation is positive exactly where the formula is not | `CnfTransform.FormulaTransform.TransformToCNF`, `CnfTransform.FormulaTransform.NegateFormula` |
| narrowing a sum gives the tightest box in at most two rounds | `IntervalPropagate.RecursivePropagate.DownSum` |
| propagation keeps every solution, an exception means there is none, and every term narrows what the initial intervals allow | `IntervalPropagate.RecursivePropagate.Propagate` |
| a text loads exactly when its tags match; loading what was printed gives the tree back | `Configurations.Configuration.Load`, `Configurations.PrintAndLoad` |
| constant folding keeps the value of every term and leaves nothing to fold | `AutodiffAggregate.TermStore.AggregateConstants` |

## Model

| member | source | states |
|---|---|---|
| `SatProblem.SolveClauses` | constraintsolver/src/CNSat.cpp:329-503 | said on the numbers of the lines: all are accepted and the answer is true iff some valuation makes a number of every line true; all are accepted iff no line is without numbers and no two lines are opposite single numbers; the answer alone is right iff this is so or the accepted clauses are unsatisfiable |
| `SatProblem.ReadClauses` | constraintsolver/src/CNSat.cpp:35-73 | every line becomes its clause over variables created on demand; what is refused is left out; all are accepted iff no line is empty and no two are opposite units, and otherwise the problem is unsatisfiable |
| `SatProblem.AcceptedExactly` | constraintsolver/src/CNSat.cpp:116-145 | which clauses clash does not depend on their order: all are accepted iff none is empty and no two are opposite units |
| `SatProblem.AnswerAloneIsWrong` | constraintsolver/src/CNSat.cpp:69 | the reader ignores a refusal: on x and not x the accepted clauses are satisfiable, the problem is not |
| `SatProblem.ReadClause` | constraintsolver/src/CNSat.cpp:48-69 | the literals of a line in order, without its zeros, over existing variables; only as many variables as the line mentions are new, and nothing else of the problem changes |
| `SatProblem.ClauseSays` | constraintsolver/src/CNSat.cpp:50-68 | a valuation satisfies the clause of a line iff it makes one of its numbers true |
| `SatProblem.ClauseOfParts` | constraintsolver/src/CNSat.cpp:50-68 | the clause of two parts of a line is the clauses of the parts in order |
| `SatProblem.LinesClashExactly` | constraintsolver/src/CNSat.cpp:116-145 | clauses clash iff, on the numbers, a line has none or two lines are opposite single numbers |
| `SatSolver.CNSat.NewVar` | constraintsolver/src/CNSat.cpp:101-109 | a new variable gets the next number and leaves all invariants of the problem intact |
| `SatSolver.CNSat.AddBasicClause` | constraintsolver/src/CNSat.cpp:111-148 | an accepted clause is appended; one is refused iff it is empty or a unit opposite to an earlier unit, and then makes the clauses unsatisfiable |
| `SatSolver.CNSat.AddUnitBasic` | constraintsolver/src/CNSat.cpp:131-145 | a unit clause is refused iff the opposite unit was added before, and then contradicts the others |
| `SatSetup.RefusedUnit` | constraintsolver/src/CNSat.cpp:133-135 | a unit clause whose literal is false at level 0 is inconsistent with the clauses so far |
| `SatSolver.CNSat.Init` | constraintsolver/src/CNSat.cpp:309-327 | starting the search at level 0 establishes every invariant that solving needs, and flags the unit clauses, which are true |
| `SatSolver.CNSat.Solve` | constraintsolver/src/CNSat.cpp:329-503 | ends on every problem; true iff the basic clauses are satisfiable, and then every clause has a satisfied literal |
| `SatSolver.CNSat.PropagateAll` | constraintsolver/src/CNSat.cpp:358-388 | resolving all conflicts ends, with everything propagated, or with a conflict at level 0, which means unsatisfiability |
| `SatSolver.CNSat.Unsatisfiable` | constraintsolver/src/CNSat.cpp:366-372 | a conflict without decisions means that no valuation satisfies the basic clauses |
| `SatSolver.CNSat.Complete` | constraintsolver/src/CNSat.cpp:449-454 | when no variable is left to decide and everything is propagated, every basic clause is satisfied |
| `SatSolver.CNSat.SatisfiedIsModel` | constraintsolver/src/types/Clause.cpp:110-120 | when every clause passes its satisfaction check the assignment is a model |
| `SatSolver.CNSat.Propagate` | constraintsolver/src/CNSat.cpp:536-677 | returns no clause only when every clause with a false watched literal has its other watched literal true at no later level; a returned clause has only false literals; earlier levels stay as they are |
| `SatSolver.CNSat.ScanWatchList` | constraintsolver/src/CNSat.cpp:554-671 | iterating over a watch list that is replaced while literals move away still visits every watcher that matters |
| `SatSolver.CNSat.VisitWatcher` | constraintsolver/src/CNSat.cpp:569-670 | a watcher is settled, moved to another literal, makes its clause's other watched literal true, or reports a false clause; no other watcher changes, and the activity grows by one exactly when there was no replacement |
| `SatSolver.CNSat.FindWatch` | constraintsolver/src/CNSat.cpp:617-621 | the first literal of another variable that is not false, or none |
| `SatSolver.CNSat.Imply` | constraintsolver/src/CNSat.cpp:650-662 | a unit clause makes its last literal true, is its reason and counts as satisfied |
| `SatWatch.UnitOrFalse` | constraintsolver/src/CNSat.cpp:645-669 | without a replacement the clause is unit on the other watched literal, or entirely false |
| `SatWatch.UnitRuleExactly` | constraintsolver/src/CNSat.cpp:617-662 | the literal implied when there is no replacement follows from the clause iff its complement is not in the clause |
| `SatWatch.ComplementMisleads` | constraintsolver/src/CNSat.cpp:617-662 | a satisfiable problem with complementary literals in a clause that the unit rule makes unsatisfiable |
| `SatWatch.MoveKeeps` | constraintsolver/src/CNSat.cpp:622-642 | moving a watcher keeps the registration of all watchers on the lists of their variables |
| `SatWatch.MoveKeepsPropagated` | constraintsolver/src/CNSat.cpp:622-642 | moving a watcher of a literal falsified at the current level keeps all earlier levels propagated |
| `SatWatch.ScanEnds` | constraintsolver/src/CNSat.cpp:552-676 | once the whole trail is scanned the current level is propagated too |
| `SatSolver.CNSat.SetReason` | constraintsolver/src/types/Var.cpp:48-64 | the guard fires iff a new reason mentions an unassigned variable; otherwise the reason is recorded. Every caller proves that it does not fire |
| `SatState.AssignKeeps` | constraintsolver/src/CNSat.cpp:652-656 | assigning an entailed unit keeps the trail, the levels, the reasons (own literal true, all others false and earlier) and their entailment |
| `SatState.DecideKeeps` | constraintsolver/src/Decider.cpp:155-167 | a decision on an unassigned variable keeps the invariants of the search |
| `SatState.TruncateKeeps` | constraintsolver/src/CNSat.cpp:936-969 | dropping decision levels keeps the invariants of the search |
| `SatState.TruncateKeepsPropagated` | constraintsolver/src/CNSat.cpp:936-969 | what was propagated below a level survives the removal of that level and all later ones |
| `SatState.RefutedAtZero` | constraintsolver/src/CNSat.cpp:743 | a literal that is false at level 0 is false in every model, which is why learning drops it |
| `SatSolver.CNSat.Analyze` | constraintsolver/src/CNSat.cpp:714-785 | the loop ends at the first unique implication point, before which no entry of the level was alone when its turn came, with what resolving the conflict clause down to it leaves: an entailed false clause with only its last literal on the current level, the others marked |
| `SatSolver.CNSat.ScanReason` | constraintsolver/src/CNSat.cpp:728-764 | all literals of a clause above level 0, except that of the resolved variable, are marked; the counter is the number of marks on the current level |
| `SatSolver.CNSat.LatestMarked` | constraintsolver/src/CNSat.cpp:768-771 | walking down the trail stops inside it, at the latest marked entry of the current level |
| `SatSolver.CNSat.TakingLatest` | constraintsolver/src/CNSat.cpp:771-778 | while the counter stays positive the entry taken has a reason to resolve with; when it reaches 0 the learnt clause is complete |
| `SatLearn.WalkDown` | constraintsolver/src/CNSat.cpp:768-769 | the index never leaves the trail, and a marked entry met belongs to the current level |
| `SatLearn.NotTheDecision` | constraintsolver/src/CNSat.cpp:772 | an entry of the current level with a marked one before it is no decision, so its reason is there |
| `SatLearn.ConflictCovered` | constraintsolver/src/CNSat.cpp:728-764 | after marking the conflict clause, the basic clauses entail that one of the marked literals fails |
| `SatLearn.ReasonCovered` | constraintsolver/src/CNSat.cpp:766-778 | resolving with the reason of an entry removes the entry from what is entailed |
| `SatLearn.LearntIsLearnable` | constraintsolver/src/CNSat.cpp:782-785 | adding the negated implication point makes the learnt clause entailed |
| `SatLearn.CutTaken` | constraintsolver/src/CNSat.cpp:766-778 | taking the latest marked entry of the level stops at the first implication point, or resolves with the reason of the entry next |
| `SatSolver.CNSat.Minimise` | constraintsolver/src/CNSat.cpp:787-828 | removes exactly the literals, other than the last, whose reasons mention only marked variables and variables of level 0; the rest is an entailed clause, and all marks are cleared |
| `SatLearn.MinimisedIsMinimal` | constraintsolver/src/CNSat.cpp:794-822 | no literal is left whose reason mentions only variables of the learnt clause and of level 0 |
| `SatSolver.CNSat.HasUnmarked` | constraintsolver/src/CNSat.cpp:808-815 | finds out whether some literal of the reason is neither marked nor of level 0 |
| `SatLearn.RemovedRefuted` | constraintsolver/src/CNSat.cpp:794-822 | in a model in which no kept literal holds no removed one does, although justifications may have been removed as well |
| `SatLearn.ShrunkIsLearnable` | constraintsolver/src/CNSat.cpp:792-822 | the shortened clause is still entailed, false, and single on the current level |
| `SatSolver.CNSat.BackLevel` | constraintsolver/src/CNSat.cpp:857-883 | finds the latest level among the other literals and swaps such a literal to the front; the clause stays entailed and minimised and its last literal last |
| `SatLearn.BackjumpUnit` | constraintsolver/src/CNSat.cpp:890-927 | after backtracking all other literals of the learnt clause are still false and its last one is unassigned |
| `SatSolver.CNSat.BackTrack` | constraintsolver/src/CNSat.cpp:936-969 | the trail, levels, assignments and reasons are those of before without the levels above the given one, clauses change only in their cached flags, and all invariants hold again: a flag that is set means a true watched literal |
| `SatSolver.CNSat.RemoveRangeOfDecisions` | constraintsolver/src/CNSat.cpp:1098-1108 | the trail without the given range |
| `SatSolver.CNSat.Reflags` | constraintsolver/src/CNSat.cpp:953-958 | after the clauses on a watch list are visited, each of their flags tells whether a watched literal is true, and no clause changed otherwise |
| `SatBacktrack.UndoIsTruncate` | constraintsolver/src/CNSat.cpp:948-968 | unassigning the entries from a level on one by one gives the truncated state |
| `SatSolver.CNSat.AddSatClause` | constraintsolver/src/CNSat.cpp:211-217 | a learnt clause is watched at its first and last literal and recorded, and all invariants hold |
| `SatSolver.CNSat.AddUnitClause` | constraintsolver/src/CNSat.cpp:179-210 | at any level, a learnt unit is inserted behind the units known so far and moves the starts of all levels by one, with all invariants of the search; it is never refused |
| `SatInsert.InsertKeeps` | constraintsolver/src/CNSat.cpp:199-208 | inserting an entailed unit into the trail keeps the invariants of the search |
| `SatInsert.EnforceKeeps` | constraintsolver/src/CNSat.cpp:914-927 | making the last literal of the learnt clause true keeps search, watches and propagation |
| `SatSolver.CNSat.ResolveConflict` | constraintsolver/src/CNSat.cpp:679-934 | learns the clause of the first implication point without exactly its redundant literals, jumps back to the latest level of its other literals, and records it as the reason of its last literal, watched at its ends; a learnt unit goes to level 0; never fails |
| `SatRank.RankDecreases` | constraintsolver/src/CNSat.cpp:355-502 | when the counts of trail entries per level first differ by growing, the rank falls |
| `SatRank.ProgressLowersRank` | constraintsolver/src/CNSat.cpp:355-502 | every conflict resolution and every decision lowers the rank, so the search ends |
| `SatRank.ExtendingKeepsRank` | constraintsolver/src/CNSat.cpp:536-677 | propagation does not raise the rank |
| `SatSolver.CNSat.DecideActivityBased` | constraintsolver/src/Decider.cpp:118-210 | returns without a decision only when every variable is assigned; otherwise opens a level with one unassigned variable on it |
| `SatSolver.CNSat.MostActive` | constraintsolver/src/Decider.cpp:133-151 | an unassigned variable of greatest activity, whatever the starting point, or none when there is none |
| `SatSolver.CNSat.ReduceDB` | constraintsolver/src/CNSat.cpp:505-534 | keeps the most active learnt clauses in stable order with a quarter of their activity, forgets exactly the others, and keeps every invariant although forgotten clauses may still be reasons |
| `SatSolver.CNSat.Tidy` | constraintsolver/src/CNSat.cpp:459-478 | every thousandth decision, and only then, learnt clauses are forgotten and the activities of variables quartered |
| `SatReduce.StableSortCorrect` | constraintsolver/src/CNSat.cpp:509 | sorted by falling activity, a permutation, and stable |
| `SatReduce.ForgettingKeepsBooks` | constraintsolver/src/CNSat.cpp:510-529 | the records of basic and learnt clauses fit the clause database after forgetting |
| `Calculus.DerivativeIsUnique` | autodiff/include/ICompiledTerm.h:37-45 | a function has at most one derivative, so the property that gradients are proved to have pins them down |
| `Calculus.OfProduct` | autodiff/src/Product.cpp:69-72 | the product rule for functions with derivatives |
| `AutodiffValues.ConstraintValue` | autodiff/src/CompiledDifferentiator.cpp:771-900 | under either visitor a constraint is worth 1 or at most 0, and is positive iff it holds; evaluation reads `<=` as `<` |
| `AutodiffValues.NumericAgree` | autodiff/src/CompiledDifferentiator.cpp:876-948 | both visitors give every arithmetic term the same value |
| `AutodiffValues.SweepsAgree` | autodiff/include/ICompiledTerm.h:43 | on a well-typed term both visitors give the same value exactly where no constraint holds by a tied `<=` alone and none fails by more for it, or where the utility of one that does is worth just what evaluation gives |
| `AutodiffValues.SweepsAgreeWithoutOr` | autodiff/src/Term.cpp:50-51 | without Or, which the operators build only in another mode, the values are the same iff the constraint holds under `<=` just when it holds under `<`, or its utility is worth 0 |
| `AutodiffValues.SameFailureExactly` | autodiff/src/CompiledDifferentiator.cpp:886-900 | a condition checked from the leaves up decides whether the ties at a point change by how much a constraint fails |
| `AutodiffValues.ConstraintWorth` | autodiff/src/CompiledDifferentiator.cpp:982-1331 | under either visitor a constraint is worth 1 where it holds and otherwise its failure, which no visitor enters |
| `AutodiffValues.UntiedSweepsAgree` | autodiff/src/CompiledDifferentiator.cpp:1216 | no `<=` with equal operands is enough for the visitors to agree |
| `AutodiffValues.TieWithoutHarm` | autodiff/src/CompiledDifferentiator.cpp:771-785 | it is not necessary: `x <= x` and false is worth -1 to both |
| `AutodiffValues.EvaluateAndDifferentiateDiffer` | autodiff/src/CompiledDifferentiator.cpp:1216 | `x <= x` with utility 5 evaluates to 0 and differentiates to 5 |
| `AutodiffValues.OrLosesTheTie` | autodiff/src/CompiledDifferentiator.cpp:1287-1331 | under an Or they differ although the constraint fails for both: -2 against -1 |
| `AutodiffDerivative.PartialIsTheDerivative` | autodiff/src/CompiledDifferentiator.cpp:982-1456 | where no branch of a well-typed term switches, the rules behind the weights give the derivative of its value along each variable, and no other number is it |
| `AutodiffDerivative.TiedSlopes` | autodiff/src/CompiledDifferentiator.cpp:1181-1285 | where a branch switches: tied operands of Max and Min pass the slope to the right one, those of `<` count as failing and those of `<=` as holding |
| `AutodiffDerivative.TrueIsFlat` | autodiff/src/CompiledDifferentiator.cpp:982-1017 | a constraint that holds has slope 0, so the weights that And leaves over from an earlier sweep do no harm |
| `AutodiffDerivative.PowerSlope` | autodiff/src/CompiledDifferentiator.cpp:1045-1060 | the rule for powers with exponent at least 1 |
| `AutodiffSymbolic.ValueOfDerivative` | autodiff/src/Sum.cpp:83-91 | the symbolic derivative exists iff the term is a polynomial, and its value is the partial derivative that reverse mode computes |
| `AutodiffSymbolic.PolynomialSlope` | autodiff/src/CompiledDifferentiator.cpp:100-161 | on polynomials the weights and adjoints give the derivative at every point, without any condition |
| `AutodiffSymbolic.ValueOfPlus` | autodiff/src/Term.cpp:111-126 | adding terms adds their values, also when an operand is dropped as Zero |
| `AutodiffCompiler.Compiler.constructor` | autodiff/src/CompiledDifferentiator.cpp:177-186 | the variables get the first slots in order |
| `AutodiffCompiler.Compiler.Compile` | autodiff/src/CompiledDifferentiator.cpp:740-759 | the slot returned stands for the term; earlier slots do not change, each id has one slot, operands are in earlier slots, and a term met first gets the last slot |
| `AutodiffCompiler.Compiler.Build` | autodiff/src/CompiledDifferentiator.cpp:202-738 | the element made is of the class of its term and refers to slots of the operands in order |
| `AutodiffDifferentiator.CompiledDifferentiator.constructor` | autodiff/src/CompiledDifferentiator.cpp:72-89 | the root is the last slot, also for a bare variable, and the variables are exactly the first slots |
| `AutodiffDifferentiator.CompiledDifferentiator.EvalVisit` | autodiff/src/CompiledDifferentiator.cpp:766-958 | with the operands valued, the element gets the value of its term and nothing else changes |
| `AutodiffDifferentiator.CompiledDifferentiator.ForwardVisit` | autodiff/src/CompiledDifferentiator.cpp:970-1456 | the element gets the value of its term, and weights that satisfy the chain rule for every variable |
| `AutodiffDifferentiator.PairVisit` | autodiff/src/CompiledDifferentiator.cpp:982-1349 | value and weights of the elements with two operands, branch by branch |
| `AutodiffSweeps.PairRule` | autodiff/src/CompiledDifferentiator.cpp:982-1349 | these weights times the slopes of the operands add up to the slope of the term, whatever weight And kept |
| `AutodiffDifferentiator.CompiledDifferentiator.EvaluateTape` | autodiff/src/CompiledDifferentiator.cpp:163-175 | every slot holds the value of its term under evaluation |
| `AutodiffDifferentiator.CompiledDifferentiator.ForwardSweep` | autodiff/src/CompiledDifferentiator.cpp:119-134 | every slot holds the value of its term, and every element carries the chain rule |
| `AutodiffDifferentiator.CompiledDifferentiator.ReverseSweep` | autodiff/src/CompiledDifferentiator.cpp:136-161 | only adjoints change, and those of the variables account for the whole slope of the root |
| `AutodiffDifferentiator.CompiledDifferentiator.PassAdjoint` | autodiff/src/CompiledDifferentiator.cpp:153-159 | passing an adjoint on adds its slope to what the operands account for, also along repeated edges |
| `AutodiffSweeps.StillAccounted` | autodiff/src/CompiledDifferentiator.cpp:151-160 | after a slot has passed its adjoint on, the slots before it account for the slope of the root |
| `AutodiffTape.WeightedUpdate` | autodiff/src/CompiledDifferentiator.cpp:158 | raising one adjoint raises the weighted sum by that slope |
| `AutodiffDifferentiator.CompiledDifferentiator.Evaluate` | autodiff/src/CompiledDifferentiator.cpp:91-98 | the value of the compiled function at the point |
| `AutodiffDifferentiator.CompiledDifferentiator.Differentiate` | autodiff/src/CompiledDifferentiator.cpp:100-117 | the partial derivatives in the order of the variables and the value; derivatives of the value where nothing switches; the value is that of evaluation exactly where the visitors agree |
| `AutodiffTermUtils.Evaluate` | autodiff/src/TermUtils.cpp:41-44 | compiling and evaluating gives the value of the term |
| `AutodiffTermUtils.Differentiate` | autodiff/src/TermUtils.cpp:57-60 | compiling and differentiating gives the partial derivatives of the term itself, which are its derivatives where nothing switches, and the value of evaluation exactly where the visitors agree |
| `AutodiffTermUtils.CompiledIsSame` | autodiff/src/CompiledDifferentiator.cpp:74-77 | wrapping a bare variable in a first power changes neither value nor slopes |
| `AutodiffAggregate.TermStore.Aggregate` | autodiff/src/Product.cpp:32-67 | folding below an object keeps the meaning of every object there was, returns one worth the same, and rewrites none that could be above it; what is returned has no constants left to fold at or below it, and objects that had none left keep none |
| `AutodiffAggregate.TermStore.AggregateConstants` | autodiff/include/Term.h:60 | after folding, every term of the store still has its value at every point under both visitors, the term returned has that of the term folded, and at and below it there are no constants left to fold |
| `AutodiffAggregate.TermsMean` | autodiff/include/Term.h:60 | the values of the terms that ranked objects stand for are a meaning of the objects |
| `AutodiffAggregate.TermStore.AggregateProduct` | autodiff/src/Product.cpp:32-67 | the operands become objects worth the same; two constants give the constant of their product, a zero is returned, a one gives way to the other operand, and any other product is returned itself |
| `AutodiffAggregate.TermStore.AggregateSum` | autodiff/src/Sum.cpp:41-81 | the constants among the folded terms are added up; only constants give their sum, a lone term without constants is returned, and otherwise the sum keeps the other terms in order with the constant last |
| `AutodiffAggregate.TermStore.AggregatePower` | autodiff/src/ConstPower.cpp:32-66 | a constant base gives the constant power, a zero base is returned, a power of a power merges with the product of the exponents, and any other power is returned over its folded base |
| `AutodiffAggregate.TermStore.AggregateMin` | autodiff/src/Min.cpp:30-44 | two constants give the constant of the lesser, and any other minimum is returned over its folded operands |
| `AutodiffAggregate.OneMeaning` | autodiff/src/Sum.cpp:41-81 | objects without cycles have one meaning only, so keeping it means keeping the value at every point |
| `AutodiffAggregate.MeaningIsValue` | autodiff/src/ConstPower.cpp:32-66 | what an object means is the value, under either visitor, of the term that it stands for |
| `AutodiffAggregate.NestedPower` | autodiff/src/ConstPower.cpp:56-63 | a power whose base is a power may become the merged power |
| `CnfStep.CheckedTrue` | constraintsolver/src/types/Clause.cpp:42-79 | adding a literal with the check is adding it to the disjunction, whether it is pushed, found again or found opposed |
| `CnfStep.CheckedOk` | constraintsolver/src/types/Clause.cpp:42-79 | the check keeps a clause free of two temporary literals with one atom and adds at most the work of the literal |
| `CnfTransform.FormulaTransform.AddChecked` | constraintsolver/src/types/Clause.cpp:42-79 | the clause is as it was, with the literal pushed, or cleared as a tautology, by what its literals repeat or oppose |
| `CnfTransform.FormulaTransform.VariableOf` | constraintsolver/src/FormulaTransform.cpp:207-217 | comparisons with one id share a variable, those with different ids do not |
| `CnfTransform.FormulaTransform.Negate` | autodiff/src/LTEConstraint.cpp:70-77 | the denying comparison with the same steepness, made once and cached at both ends; its value is positive at exactly the points where that of the comparison is not |
| `CnfTransform.FormulaTransform.NegateFormula` | autodiff/src/And.cpp:62-65 | the negation of a formula, built of the operators that the modes ask for, is true in exactly the consistent valuations in which the formula is not, and positive at exactly the points where the formula is not |
| `CnfUniverse.NegationDenies` | autodiff/src/LTConstraint.cpp:70-77 | a comparison and its negation are never both worth something positive, and never both not |
| `CnfTransform.FormulaTransform.PerformStep` | constraintsolver/src/FormulaTransform.cpp:146-265 | the clauses that replace a clause say the same together, under every consistent valuation, leave strictly less work, and no shared literal changes its meaning; fails only on an unknown formula |
| `CnfTransform.FormulaTransform.Finish` | constraintsolver/src/FormulaTransform.cpp:196-251 | a comparison literal is made final in place, in all clauses that share it, without changing what they say |
| `CnfStep.Conjoined` | constraintsolver/src/FormulaTransform.cpp:161-195 | the two clones of a clause with one operand each stand for the clause with the conjunction |
| `CnfStep.Finished` | constraintsolver/src/FormulaTransform.cpp:196-251 | finishing a literal and adding it back keeps the meaning and lowers the work |
| `CnfTypes.EvolvedClause` | constraintsolver/src/types/Clause.cpp:81-93 | a clause that shares literals with rewritten ones keeps its meaning and its invariant |
| `CnfTransform.FormulaTransform.DoTransform` | constraintsolver/src/FormulaTransform.cpp:82-144 | ends without temporary literals and with clauses equivalent to the formula; succeeds on every formula of known kind |
| `CnfStep.ReplacedWork` | constraintsolver/src/FormulaTransform.cpp:112-129 | every rewriting lowers the sum over the clauses of 3 to the size of their temporary literals |
| `CnfTransform.FormulaTransform.TransformToCNF` | constraintsolver/src/FormulaTransform.cpp:45-64 | every valuation of the strict comparisons, extended to their negations, makes the formula true iff what it induces satisfies the clauses; every assignment to the solver's variables satisfies them iff the formula is true in the valuation read back; there is a satisfying assignment iff there is a consistent valuation with the formula true; at a point, iff its value is positive |
| `CnfUniverse.TruthAtPoint` | constraintsolver/src/FormulaTransform.cpp:223-251 | the valuation that a point gives is consistent, and a constraint holds under it iff its value is positive |
| `CnfUniverse.ExtendedIsConsistent` | autodiff/src/LTConstraint.cpp:70-77 | every valuation of the strict comparisons extends to a consistent one, since negations are cached at both ends |
| `CnfUniverse.ConsistentIsExtended` | autodiff/src/LTEConstraint.cpp:70-77 | a consistent valuation is what its strict comparisons extend to |
| `TermLists.TermList.Contains` | constraintsolver/src/intervals/TermList.cpp:28-33 | membership in the queue, for every term there is |
| `TermLists.TermList.Enqueue` | constraintsolver/src/intervals/TermList.cpp:90-101 | the term goes to the end of the sequence; links and ends stay consistent |
| `TermLists.TermList.Dequeue` | constraintsolver/src/intervals/TermList.cpp:35-55 | the first term leaves the sequence unlinked |
| `TermLists.TermList.Clear` | constraintsolver/src/intervals/TermList.cpp:103-116 | the queue is empty and no term is linked |
| `TermLists.TermList.AddChanged` | constraintsolver/src/intervals/DownwardPropagator.cpp:672-678 | a term queued already is not queued again |
| `IntervalRules.CutIsSound` | constraintsolver/src/intervals/DownwardPropagator.cpp:690-710 | cutting an interval by bounds that every point inside meets loses no point; an empty interval means there is none |
| `IntervalRules.ProductWithin` | constraintsolver/src/intervals/UpwardPropagator.cpp:309-312 | a product lies between the least and the greatest product of the bounds |
| `IntervalRules.QuotientWithin` | constraintsolver/src/intervals/DownwardPropagator.cpp:440-454 | a factor lies between the least and the greatest quotient of the bounds when the other factor has a sign |
| `IntervalRules.PowerWithin` | constraintsolver/src/intervals/UpwardPropagator.cpp:80-126 | a power lies between the bounds set, whether the base changes its sign or not and whatever the parity of the exponent |
| `IntervalRules.SquareWithin` | constraintsolver/src/intervals/UpwardPropagator.cpp:300-306 | the product of a term with itself lies between the squares of its bounds, or above 0 |
| `IntervalTerms.ProductsAreTight` | constraintsolver/src/intervals/UpwardPropagator.cpp:309-312 | both bounds of a product are reached |
| `IntervalTerms.QuotientsAreTight` | constraintsolver/src/intervals/DownwardPropagator.cpp:440-454 | both bounds of a factor are reached |
| `IntervalTerms.PowersAreTight` | constraintsolver/src/intervals/UpwardPropagator.cpp:80-126 | both bounds of a power are reached |
| `IntervalTerms.SumsAreTight` | constraintsolver/src/intervals/UpwardPropagator.cpp:360-376 | both bounds of a sum are reached |
| `IntervalTerms.MagnitudeIsTight` | constraintsolver/src/intervals/UpwardPropagator.cpp:38-50 | both bounds of an absolute value are reached |
| `IntervalTerms.ComparisonUp` | constraintsolver/src/intervals/UpwardPropagator.cpp:207-249 | when the intervals of the operands decide a comparison, its value is what the visit sets |
| `IntervalTerms.ComparisonDown` | constraintsolver/src/intervals/DownwardPropagator.cpp:285-353 | a decided comparison orders the bounds of its operands |
| `IntervalTerms.MaxDown` | constraintsolver/src/intervals/DownwardPropagator.cpp:355-382 | over constraints the rule of Max is sound at every box: when a maximum holds and one operand fails, the other one is 1 |
| `IntervalTerms.MaxOfNumbersDown` | constraintsolver/src/intervals/DownwardPropagator.cpp:360-377 | over any operands the rule loses no point where the bounds leave the other operand nothing or only the number 1 |
| `IntervalTerms.MaxOfVariables` | constraintsolver/src/intervals/DownwardPropagator.cpp:360-377 | over two variables it loses no point only there, on either side |
| `IntervalTerms.MaxVisitExactly` | constraintsolver/src/intervals/DownwardPropagator.cpp:355-382 | a whole visit to a maximum of two variables loses no point iff the bounds before it say so |
| `IntervalTerms.MaxOfNumbersIsUnsound` | constraintsolver/src/intervals/DownwardPropagator.cpp:360-370 | an instance: with x at most 0, y in [0, 5] and max(x, y) in [2, 3], the visit cuts off the point with y = 2 |
| `IntervalSum.NarrowedKeeps` | constraintsolver/src/intervals/DownwardPropagator.cpp:625-640 | narrowing one term of a sum neither loses nor adds a solution |
| `IntervalSum.NarrowedIsProjection` | constraintsolver/src/intervals/DownwardPropagator.cpp:625-640 | a narrowed term has the tightest interval around its values in the solutions |
| `IntervalSum.FeasibleMeansSolution` | constraintsolver/src/intervals/DownwardPropagator.cpp:612-649 | there is a solution iff the sums of the bounds reach the interval of the sum |
| `IntervalSum.TightIsStable` | constraintsolver/src/intervals/DownwardPropagator.cpp:647 | once every term is tight nothing changes any more |
| `IntervalPropagate.RecursivePropagate.UpdateInterval` | constraintsolver/src/intervals/UpwardPropagator.cpp:425-445 | cuts the interval, tells whether it changed, and throws iff it became empty, which no point inside allows |
| `IntervalPropagate.RecursivePropagate.Up` | constraintsolver/src/intervals/UpwardPropagator.cpp:38-394 | the interval of the term is cut by exactly the bounds its operands give, and no point inside is lost; it is within what the intervals of the operands allow; on a change the term and its parents are queued; throws iff the interval got empty |
| `IntervalPropagate.RecursivePropagate.Down` | constraintsolver/src/intervals/DownwardPropagator.cpp:39-670 | the intervals of the operands are cut as the rule of the term says, and no point inside is lost; they are within what the intervals before allow, and the operands that changed are queued; for a Max of numbers where its rule is safe at the bounds |
| `IntervalPropagate.RecursivePropagate.DownSum` | constraintsolver/src/intervals/DownwardPropagator.cpp:612-649 | at most two rounds; throws iff there is no solution; otherwise every term ends with the tightest interval around its values in the solutions |
| `IntervalPropagate.RecursivePropagate.AddChanged` | constraintsolver/src/intervals/UpwardPropagator.cpp:396-412 | the term and all its parents are queued, without duplicates and behind what is queued |
| `IntervalPropagate.RecursivePropagate.Visit` | constraintsolver/src/intervals/RecursivePropagate.cpp:99-279 | every term below the root that has something to propagate is queued, and no other |
| `IntervalPropagate.RecursivePropagate.SetParents` | constraintsolver/src/intervals/SetParents.cpp:29-258 | a term becomes a parent of each of its operands, and no parent is forgotten |
| `IntervalPropagate.RecursivePropagate.Propagate` | constraintsolver/src/intervals/RecursivePropagate.cpp:41-97 | after any number of turns of the queue every point that was inside all intervals still is, and an exception means there was none; with a turn for each term queued at first, every one of them has narrowed its operands and itself at least as far as the initial intervals allow, and the run throws if that leaves an interval empty; for terms whose downward rules are sound at every box |
| `IntervalEffects.LoweredStays` | constraintsolver/src/intervals/DownwardPropagator.cpp:39-670 | what a downward visit achieved on the intervals in the middle of a run is achieved by the run: its rules are monotone |
| `IntervalEffects.RaisedStays` | constraintsolver/src/intervals/UpwardPropagator.cpp:38-394 | the same for upward visits |
| `IntervalEffects.DownLowers` | constraintsolver/src/intervals/DownwardPropagator.cpp:39-610 | a downward visit leaves both operands of an And that holds at 1, orders those of a comparison, bounds those of Min, Max and Abs, and keeps factors within the quotients |
| `IntervalEffects.UpRaises` | constraintsolver/src/intervals/UpwardPropagator.cpp:38-394 | an upward visit decides comparisons and connectives where the intervals of the operands do, and bounds the other terms |
| `IntervalEffects.HopelessEmpties` | constraintsolver/src/intervals/UpwardPropagator.cpp:425-445 | a comparison against its operands, a sum out of reach, a product or an absolute value beside its interval cannot be visited without emptying an interval |
| `ConfigRoundTrip.RoundTrip` | system_config/src/Configuration.cpp:248-279 | loading the printed children of a root appends the same trees, in order, to the root loaded into |
| `ConfigRoundTrip.LoadNode` | system_config/src/Configuration.cpp:189-221 | the lines of a node, wherever they stand, add exactly this node to the section that is open |
| `ConfigRoundTrip.LeafText` | system_config/src/Configuration.cpp:123-169 | a printed leaf line has its name and its value back |
| `Configurations.ReadElement` | system_config/src/Configuration.cpp:129-148 | copies a line; a quote is dropped and the character behind it is kept, even a quote |
| `Configurations.GetLine` | system_config/src/Configuration.cpp:34-42 | splits a text at its first newline |
| `Configurations.Configuration.ParseTag` | system_config/src/Configuration.cpp:63-120 | opens a section or closes the current one; fails on a tag without end or name and on a name that does not match |
| `Configurations.Configuration.ParseTrimmed` | system_config/src/Configuration.cpp:40-178 | the loop over a line, with its shrinking rest and its position, consumes tags, blanks, a comment or a leaf in turn and ignores rests of two characters |
| `Configurations.Configuration.Load` | system_config/src/Configuration.cpp:22-187 | loads a text line by line; a text of lines that each write one event, or nothing, loads iff its tags match, each section closed by its own name and none left open, and then the trees written are added in order |
| `ConfigEvents.LoadsExactly` | system_config/src/Configuration.cpp:22-187 | such a text loads iff the events are those of some trees read from outside in, and gives these trees |
| `ConfigEvents.LineReads` | system_config/src/Configuration.cpp:53-178 | tags in either brackets, closing marks of either kind, leaves and comments are read between any blanks; shorter pieces than three characters are not read |
| `ConfigEvents.TagThenRest` | system_config/src/Configuration.cpp:117-122 | what follows a tag on its line is read as a line of its own |
| `ConfigEvents.MismatchedTag` | system_config/src/Configuration.cpp:103-108 | a closing tag with another name than that of the innermost open section fails |
| `ConfigEvents.UnendedTag` | system_config/src/Configuration.cpp:66-78 | a tag without an end fails |
| `ConfigEvents.UnnamedTag` | system_config/src/Configuration.cpp:80-85 | a tag without a name fails |
| `ConfigEvents.LineFails` | system_config/src/Configuration.cpp:36-178 | a line that fails, fails the text around it |
| `ConfigEvents.QuotesDropped` | system_config/src/Configuration.cpp:129-148 | quotes around a text are dropped, and a quote behind a quote is kept |
| `ConfigEvents.PrintedExample` | system_config/src/Configuration.cpp:189-221 | a printed section and comment, character by character |
| `Configurations.PrintAndLoad` | system_config/src/Configuration.cpp:16-20 | printing well-formed trees and loading the text gives equal trees |

## Left out

- SatSolver.CNSat.Solve: models the solver without a theory solver; the coupling to `CNSMTGSolver`, `GSolver` and `CGSolver`, time limits, theory and interval clauses, and restarts (switched off by a constant in the source) are not modelled.
- SatProblem.SolveClauses: clauses with a literal and its complement are excluded by the precondition; the source expects none and does not check. What its unit rule implies from a clause is right exactly when the complement of the implied literal is not in the clause (`SatWatch.UnitRuleExactly`, with an input in `SatWatch.ComplementMisleads`). Parsing the characters of a file is not part of this model.
- SatSolver.CNSat.DecideActivityBased: the random starting point and the random sign are arbitrary choices; the counts of appearances that weight the sign are left out.
- SatSolver.CNSat.Init: flags of unit clauses are a set of clause numbers, since unit clauses have no watchers; the last modified variable of a clause is left out.
- SatSolver.CNSat.Tidy: that `solve` calls it once a decision is part of its body, not of its contract.
- SatSolver.CNSat.SetReason: variables, clauses, watchers and decision levels are entries of tables of the solver, addressed by numbers instead of pointers; aliasing is by equal numbers, and a forgotten clause that is still a reason is kept as its literals.
- SatSolver.CNSat.Analyze: the marks of variables start out cleared, which the constructor of a variable does not see to.
- AutodiffCompiler.Compiler.Compile: the elements of a tape are records in a list, and their fields are updated there; separate element objects behind pointers are not modelled. Terms are values with ids, where equal ids stand for one object.
- AutodiffDifferentiator.CompiledDifferentiator.Differentiate: Abs, whose weight is never set, is left out of differentiation; so are Atan2, Sigmoid, LinSigmoid, Reification, TermPower and the transcendental functions, everywhere. Exponents are natural numbers, at least 1 in differentiated terms. Rounding, infinities and NaN are left out.
- AutodiffDifferentiator.CompiledDifferentiator.constructor: every variable of the function must be among the variables; an unlisted one would silently be taken for the first.
- AutodiffValues.SweepsAgree: constants below a constraint are 1 or at most 0; `Term::FALSE` is a tiny positive number and reads as true.
- AutodiffSymbolic.ValueOfDerivative: a null derivative of a constant is taken as Zero.
- AutodiffAggregate.TermStore.Aggregate: Sum, Product, Min and ConstPower with exponents of at least 1; the folding of constraints, of Max, And and Or by the identity of `TRUE` and `FALSE`, and of other exponents, where it changes the meaning, is left out. A power of a power is written merged at once, where the source writes the base first.
- CnfTransform.FormulaTransform.TransformToCNF: literals are entries of a table that clauses refer to by number, so that sharing shows; counting the variables of a literal and extended equality of atoms are left out. That clauses without the tautology flag hold no complementary literals is not claimed: a literal finished through another clause is not checked.
- CnfTransform.FormulaTransform.NegateFormula: formulas over comparisons only; negating a constant builds a difference of numbers, which is no formula.
- IntervalPropagate.RecursivePropagate.Propagate: runs are cut off after a given number of turns, since an end of the queue is not claimed; the queue is the sequence of terms that `TermLists.TermList` is proved to represent.
- IntervalPropagate.RecursivePropagate.Up: intervals are finite; the rules of ConstraintUtility, Cos, Sin, Exp, Log and Reification are left out; exponents are natural numbers; And and Or are restricted to constraints, where their rules are meant.
- IntervalPropagate.RecursivePropagate.Down: the rules of ConstPower and of a product of a term with itself take roots and are left out, as is that of ConstraintUtility; a downward visit to an Or throws in the source.
- IntervalPropagate.RecursivePropagate.Visit: intervals that contain the values are a precondition; resetting them, and `IntervalPropagator` over the decisions of the solver, are not modelled.
- Configurations.Configuration.Load: the tree under construction is the list of open sections, the last of which is the current node; creating a node after the root was closed, which dereferences a null pointer, counts as a failure. Reading files, error messages and the queries of a configuration are left out.
