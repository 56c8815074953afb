# Verified model of the entity-core-py handlers

This project models five components of the `entity-handlers` package in Dafny and proves what they
keep over every input, every run and every reachable state.  Verify it with
`dafny verify dfyconfig.toml`.

**The compute evaluator** (`Values`, `Integers`, `NumericLaws`, `Materialize`, `StoredReferences`,
`Evaluator`, `Trampoline`, `BudgetMonotonicity`, `BigStep`, `BuiltinRules`, `FormLaws`, `Programs`,
`Exhaustion`, `Collections`, `Dependencies`, `DependencySoundness`, `DependencyLimits`, `ReadSafety`). A
content-addressed expression language: expressions are stored entities that refer to each other by hash,
closures capture their scope by storing it, tail calls reuse a depth slot, errors are values, and every
step is charged to a budget. A hash is the entity it addresses (`Hash(e)`), which makes hashing
injective and reference chains finite. `Evaluator` is the evaluator as mutually recursive functions over
an explicit state; its contracts carry termination, the operation accounting and the restored depth.
`Trampoline` is the loop of `evaluate` over mutable budget and context objects, proved equal to it.
`BigStep` derives from the trampoline, form by form, what value an expression gives, at what exact cost
in operations and depth, and what it stores; `BuiltinRules` does so for builtins, where every element of
a collection has a cost and stored entities of its own. `FormLaws` says what the forms do at their
edges: which references resolve, what a tree read sees and registers, where errors are placed and where
they stop. `NumericLaws` states comparison, division and casts in the integers, the reals and the
characters they are about, and `StoredReferences` that materialization stores what it refers to and
nothing else. `Programs` uses the rules to prove whole programs correct for every size of input.
`BudgetMonotonicity` shows that limits that are not hit do not matter, and `Exhaustion` that a limit can
be hit behind a successful array. `Dependencies` is the static walker as the loop it is,
`DependencySoundness` proves that it predicts every tree path an evaluation registers, and
`DependencyLimits` gives the two programs that escape it. `ReadSafety` proves that a whole evaluation
registers readable paths only and does not depend on what other paths bind.

**The attestation graph** (`Attestation`, `AttestationWalks`). Liveness is a mutual recursion with
negation over supersedes and self-revocation edges, guarded by an in-progress set. Content addressing
gives pointers a rank; under it the guard is idle and liveness has a closed form, stated on the fields
of the attestations. The walks are loops with queues and visited sets.

**The continuation engine** (`ChainBounds`, `Joins`, `Continuations`, `Deadlines`, `CausalChains`).
`Joins` is one join as a state machine that logs accepted values and ended rounds; the safety,
conservation and lifetime theorems are about every run of it, from any join that install accepts.
`Continuations` is the engine's mutable store of continuations with its sweep index; each method's
effect is one step of that machine, on a restarted peer too. `Deadlines` says when rounds end in the
clock readings of a run. `ChainBounds` holds the bounds a request carries and the depth brake they feed;
`CausalChains` is about chains of advances and sweeps, each caused by a dispatch of the one before.

**Clocks** (`Clock`). Advancement of the stored logical, vector and hybrid state, the comparison
functions as orders, and both together over runs.

**The discovery live index** (`Discovery`). The live index of each backend and the tree slots that
subscribers watch, kept in agreement under a ceiling by emission, departure, aging, scans and admission.

## Where a stronger claim is false

- A tree lookup is a leaf for the walker but the evaluator continues with an expression it finds there,
  and an expression can be built at run time by a construct, captured and run.  Either registers a path
  no walk predicts (`DependencyLimits`); `RegisteredIsPredicted` therefore asks for plain data at the
  predicted paths and for constructs that build no expressions.  These premises can be read off the
  program and the tree beforehand; they are sufficient, not necessary.
- A reference also resolves to what is bound at a path that may not be read, when there is no content store
  access (`FormLaws.BoundAnywhereResolves`); `ReadSafety.ReadsOnlyReadable` therefore compares trees that
  bind the same entities, or asks for access.
- Loading a captured scope is not the identity: live entities come back with hashes in their fields
  (`Materialize.CaptureIsNotIdentity`).  It is exactly when every binding is settled
  (`CaptureIsIdentityIffSettled`).  Capturing a scope that holds an error entity raises.
- `range` mints `budget_exhausted` without draining the budget, and a contained position holds errors,
  so a successful array can contain one, and a larger budget gives another array
  (`Exhaustion.ArrayHoldsExhaustion`).  Budget monotonicity therefore asks that no limit error is minted,
  not that the result is none.
- Hybrid comparison with a missing peer is not transitive, in three ways
  (`Clock.HlcNotTransitiveWithoutPeer`); `Clock.HlcCarriesOver` says exactly when it is.
- A vector advance that prunes can make a stamp that is not later; `Clock.PrunedAdvanceOrder` says
  exactly when it does.
- The docstring of `_age_join_after_fire` counts abandoned rounds as fires.  The code does not: an
  abandoned round leaves the remaining count as it was, and so does the model.
- Install does not check a join's remaining count and the sweep does not look at it, so a join installed
  with none left can still fire once (`Joins.ExhaustedFiresPartially`).  A join never fires more often than
  it was installed for exactly when its count is absent or positive or no sweep can fire it
  (`Joins.WithinCountIff`).
- Install does not check the values a join already holds.  A live join is always waiting for a slot, and
  holds no other, exactly when it was installed so (`Joins.WaitsIffInstalledWaiting`).
- The depth brake does not stop every dispatch.  The fire-partial of an expired round does not ask it:
  past the ceiling an advance dispatches exactly when a partial round is due
  (`Joins.BrakedFiresIffPartialDue`, `CausalChains.BrakeDecides`), and due partial rounds make chains of any
  depth (`PartialChain`).  Chains in which none is due past the ceiling have at most 65 advances
  (`ChainsEnd`).  What ends the others is the time to live, which each dispatch spends and no advance but
  the first raises (`TtlEnds`).
- A fire-partial made by the sweep at the start of an advance runs under the bounds of the request before
  they are seeded, so the depth does not grow at all, and a request without depth and time to live stays
  so (`SweepChainUnbounded`).  The sweep's throttle spaces such steps a minute apart on one peer.
- Candidates of different backends can share a slot.  All slots are distinct exactly when no backend's name
  is another's followed by a separator and anything (`Discovery.SlotsDistinctIffNamesOk`); otherwise index
  and slots can disagree whatever the slots hold (`SharedSlotDisagrees`).  Agreement is kept under that
  condition on the registered names, which can be checked when a backend is registered.

## Model

| member | source | states |
|---|---|---|
| `Evaluator.Evaluate` | packages/entity-handlers/src/entity_handlers/compute.py:953-983 | evaluation terminates on every program; what it returns is never a pending tail call; it only spends operations and only adds to the store, the marks and the dependencies; steps plus elements made by `range` never exceed the operations it was given; unless it aborts, depth on return is depth on entry |
| `Evaluator.Trampoline` | packages/entity-handlers/src/entity_handlers/compute.py:965-983 | the loop keeps the same accounting over all its tail calls and gives back on return the one depth slot taken on entry |
| `Evaluator.Inner` | packages/entity-handlers/src/entity_handlers/compute.py:986-1058 | every expression form keeps the operation accounting and the depth, whatever it dispatches to |
| `Evaluator.EvalOperand` | packages/entity-handlers/src/entity_handlers/compute.py:2529-2563 | an operand of a consuming position that is delivered is never an error; a failing one stops the form with a step that is not a tail call |
| `Evaluator.Invoke` | packages/entity-handlers/src/entity_handlers/compute.py:1535-1573 | applying a closure to values keeps the accounting and the depth, so every element of a collection builtin starts at the same depth |
| `Evaluator.Collect` | packages/entity-handlers/src/entity_handlers/compute.py:1578-1664 | the element loop of map, filter, fold and group-by keeps the accounting and the depth over any number of elements |
| `FormLaws.ResolvesIff` | packages/entity-handlers/src/entity_handlers/compute.py:826-875 | a reference resolves, to what it addresses, exactly under one of the three tiers: in the envelope, in the store under access or a seal, or of a type of compute and met or bound in the tree |
| `FormLaws.TreeRead` | packages/entity-handlers/src/entity_handlers/compute.py:1061-1089 | a tree read without permission reads and registers nothing; with it the path is registered whatever is there; a value comes back as it is, an expression is evaluated in its place, the rest is not found |
| `FormLaws.RelativeIsBelowRoot` | packages/entity-handlers/src/entity_handlers/compute.py:1066-1068 | a relative lookup reads below the root of its subgraph, part for part |
| `FormLaws.CleanPathKeepsParts` | packages/entity-handlers/src/entity_handlers/compute.py:646-650 | a cleaned path has the same parts, no run of slashes and none at its end |
| `FormLaws.HashRead` | packages/entity-handlers/src/entity_handlers/compute.py:1092-1109 | a hash lookup gives what the hash addresses, evaluated if it is an expression, and registers nothing |
| `FormLaws.ValuesAreThemselves` | packages/entity-handlers/src/entity_handlers/compute.py:986-1058 | closures, scopes, results and errors are their own values; what is neither a value nor an expression is an unknown type |
| `FormLaws.ErrorsAre` | packages/entity-handlers/src/entity_handlers/compute.py:483-559 | the two representations of an error value and where its data is |
| `Values.NameOfTypeNamed` | packages/entity-handlers/src/entity_handlers/compute.py:986-1058 | different type names are different types, each known by its own name |
| `FormLaws.OperandFailures` | packages/entity-handlers/src/entity_handlers/compute.py:2529-2563 | an operand that is missing, is no reference, does not resolve or is an error entity ends its form with that error and costs nothing |
| `FormLaws.TailAnswers` | packages/entity-handlers/src/entity_handlers/compute.py:2117-2152 | a tail position leads to an expression, or ends in an error entity, as not found or as malformed |
| `FormLaws.MissingArgument` | packages/entity-handlers/src/entity_handlers/compute.py:1500-1510 | a parameter without an argument stops the call |
| `FormLaws.WrongArity` | packages/entity-handlers/src/entity_handlers/compute.py:1550-1560 | a closure called with values takes as many as it has parameters |
| `FormLaws.BindsInOrder` | packages/entity-handlers/src/entity_handlers/compute.py:1550-1563 | values are bound to the parameters in order, a repeated one to its last, and other names keep theirs |
| `FormLaws.InvokedBodyAnswers` | packages/entity-handlers/src/entity_handlers/compute.py:1561-1573 | the body of a closure called with values must be a hash that resolves, and an error entity is the result |
| `FormLaws.CaptureIsMet` | packages/entity-handlers/src/entity_handlers/compute.py:2712-2762 | a lambda stores and marks what its scope leads to, so that it resolves later |
| `FormLaws.OpeningIsMet` | packages/entity-handlers/src/entity_handlers/compute.py:2765-2816 | opening a closure marks its scope and the entities in it as met, and changes nothing else |
| `FormLaws.ResultStops` | packages/entity-handlers/src/entity_handlers/compute.py:1578-1664 | an error result stops a filter or group-by, and only a limit error stops a map or fold; then it is the result |
| `FormLaws.ResultGoesOn` | packages/entity-handlers/src/entity_handlers/compute.py:1578-1664 | every other result goes on: into the output of a map, as the accumulator of a fold, or keeping its element in a filter when truthy |
| `FormLaws.LimitCodes` | packages/entity-handlers/src/entity_handlers/compute.py:509-540 | the limit errors are those with code budget_exhausted or cascade_limit |
| `FormLaws.ContainedPositions` | packages/entity-handlers/src/entity_handlers/compute.py:101-105 | an argument may be an error in the initial value of a fold and the value of assoc and store, nowhere else |
| `FormLaws.AssocReplaces` | packages/entity-handlers/src/entity_handlers/compute.py:1932-1968 | assoc replaces one element and keeps the others, and is out of range outside the array |
| `FormLaws.GroupReads` | packages/entity-handlers/src/entity_handlers/compute.py:1800-1826 | the fields of a group read back its key and its members, and there are no others |
| `FormLaws.KeysAreStored` | packages/entity-handlers/src/entity_handlers/compute.py:1800-1812 | a group-by key is materialized before it is compared: what it holds is stored |
| `FormLaws.ElementClasses` | packages/entity-handlers/src/entity_handlers/compute.py:1901-1929 | the element classes concat tells apart: integers are one class, byte strings are one, entities go by type |
| `FormLaws.RangeAnswers` | packages/entity-handlers/src/entity_handlers/compute.py:1731-1769 | range answers with 0 up to n - 1 exactly for a count that an array can have and the budget still pays for |
| `FormLaws.UnsignedIffCast` | packages/entity-handlers/src/entity_handlers/compute.py:709-718 | an operand makes its operation unsigned exactly when its expression is a cast to uint |
| `FormLaws.IfWithoutElse` | packages/entity-handlers/src/entity_handlers/compute.py:2117-2152 | an if without an else gives null when its condition is false |
| `FormLaws.AliasWithoutOperator` | packages/entity-handlers/src/entity_handlers/compute.py:2061-2110 | a builtin form without its operator is the inline form without one |
| `FormLaws.LeavesTheEvaluator` | packages/entity-handlers/src/entity_handlers/compute.py:1249-1279 | store and every path that names no builtin leave the evaluator |
| `FormLaws.UnboundName` | packages/entity-handlers/src/entity_handlers/compute.py:986-1058 | a name that is not bound is not found |
| `FormLaws.IndexFails` | packages/entity-handlers/src/entity_handlers/compute.py:2354-2401 | only an array is indexed, which is decided before the index is evaluated, and only by an integer |
| `FormLaws.LengthFails` | packages/entity-handlers/src/entity_handlers/compute.py:2404-2430 | only an array has a length |
| `FormLaws.FieldFails` | packages/entity-handlers/src/entity_handlers/compute.py:2288-2318 | a field is read of a record or of the data of an entity, and is not found when it is not there |
| `FormLaws.NamelessBinding` | packages/entity-handlers/src/entity_handlers/compute.py:2155-2190 | a let binding without a name stops the let, whatever its value |
| `FormLaws.PathBeforeFunction` | packages/entity-handlers/src/entity_handlers/compute.py:1112-1130 | an apply with a path is a handler call, whatever else it carries; with neither path nor function it is malformed |
| `FormLaws.MalformedHandlerCalls` | packages/entity-handlers/src/entity_handlers/compute.py:1200-1248 | a handler call names its operation, and a builtin carries neither capability nor resource |
| `FormLaws.AliasTakesReferences` | packages/entity-handlers/src/entity_handlers/compute.py:2061-2110 | a builtin form of an operation takes references only and evaluates none when one is not |
| `FormLaws.CollectionFails` | packages/entity-handlers/src/entity_handlers/compute.py:1578-1664 | the collection builtins work on arrays |
| `FormLaws.FoldInitial` | packages/entity-handlers/src/entity_handlers/compute.py:1636-1650 | a fold whose initial value is a limit error is that error; another error is folded |
| `FormLaws.AssocFails` | packages/entity-handlers/src/entity_handlers/compute.py:1955-1973 | assoc needs an array, an integer and a value |
| `FormLaws.KeysCompared` | packages/entity-handlers/src/entity_handlers/compute.py:1800-1812 | a group-by key can be compared exactly when it is no entity and raises nothing |
| `FormLaws.RecordClasses` | packages/entity-handlers/src/entity_handlers/compute.py:1901-1929 | a record is of the class of the entities of the type it names, and a plain one only of its like |
| `FormLaws.OnlyClosuresOpen` | packages/entity-handlers/src/entity_handlers/compute.py:1465-1490 | only closures can be called |
| `FormLaws.ErrorScopeRaises` | packages/entity-handlers/src/entity_handlers/compute.py:2712-2762 | a scope that holds an error entity cannot be captured |
| `FormLaws.UnloadedScope` | packages/entity-handlers/src/entity_handlers/compute.py:2765-2816 | a closure whose scope does not load does not open, but what was loaded is met all the same |
| `FormLaws.BodyAnswers` | packages/entity-handlers/src/entity_handlers/compute.py:1518-1532 | a called closure without a body is malformed, and a body that is no hash is not found |
| `FormLaws.ContainedErrorIsDelivered` | packages/entity-handlers/src/entity_handlers/compute.py:1249-1279 | an argument in a contained position is delivered as the error it evaluates to |
| `Trampoline.Evaluate` | packages/entity-handlers/src/entity_handlers/compute.py:953-983 | the imperative loop over a shared budget object and a growing context ends in exactly the step and state of the recursive evaluator |
| `BudgetMonotonicity.BudgetMonotone` | packages/entity-handlers/src/entity_handlers/compute.py:953-983 | a run that mints neither budget_exhausted nor depth_exceeded gives the same outcome, store, marks and dependencies under every larger budget and depth, and consumes exactly as many operations |
| `BudgetMonotonicity.OperandsUp` | packages/entity-handlers/src/entity_handlers/compute.py:2155-2190 | the same for operands evaluated in sequence, also where later ones see earlier ones |
| `BudgetMonotonicity.CollectUp` | packages/entity-handlers/src/entity_handlers/compute.py:1578-1664 | the same for the element loop of the collection builtins |
| `Exhaustion.ArrayHoldsExhaustion` | packages/entity-handlers/src/entity_handlers/compute.py:1750-1769 | an assoc whose value is a refused range: with little budget the result is a successful array that holds budget_exhausted, with more it is a different successful array, so that the result is no error is not enough for monotonicity |
| `BigStep.LiteralRule` | packages/entity-handlers/src/entity_handlers/compute.py:986-1030 | a literal gives its value for one operation and one level of depth |
| `BigStep.VarRule` | packages/entity-handlers/src/entity_handlers/compute.py:986-1058 | a scope lookup gives the binding for one operation |
| `BigStep.StrictRule` | packages/entity-handlers/src/entity_handlers/compute.py:2529-2563 | a strict form evaluates its operands in order in the same scope and gives what their values combine to; costs add up, depth is one more than the deepest operand |
| `BigStep.BinaryRule` | packages/entity-handlers/src/entity_handlers/compute.py:2217-2285 | arithmetic, comparison and logic give the operation applied to the left and the right value, unsigned exactly where an operand is a direct cast to uint |
| `BigStep.NotRule` | packages/entity-handlers/src/entity_handlers/compute.py:2247-2285 | negation gives the opposite of the operand's truth value |
| `BigStep.CastRule` | packages/entity-handlers/src/entity_handlers/compute.py:2433-2526 | a cast gives the cast of its operand's value |
| `BigStep.FirstErrorWins` | packages/entity-handlers/src/entity_handlers/compute.py:2529-2563 | a strict form whose operands give values up to one that gives an error gives that very error, and the operands after it are neither evaluated nor paid for |
| `BuiltinRules.FirstErrorStopsBuiltin` | packages/entity-handlers/src/entity_handlers/compute.py:1249-1275 | the first argument of a builtin that gives an error, in canonical key order and not in a contained position, is the result |
| `BigStep.LengthRule` | packages/entity-handlers/src/entity_handlers/compute.py:2404-2430 | length gives the number of elements |
| `BigStep.IndexRule` | packages/entity-handlers/src/entity_handlers/compute.py:2354-2401 | index gives the element at the position, and index_out_of_range exactly when the position is outside |
| `BigStep.IfRule` | packages/entity-handlers/src/entity_handlers/compute.py:2117-2152 | an if gives what the branch selected by its condition gives, the other branch is not evaluated, and the branch costs no depth of its own |
| `BigStep.LetRule` | packages/entity-handlers/src/entity_handlers/compute.py:2155-2190 | bindings are evaluated in order, each in sight of the earlier ones, and the body in tail position in the scope they build |
| `BigStep.LambdaRule` | packages/entity-handlers/src/entity_handlers/compute.py:2193-2214 | a lambda gives the closure over its scope, storing what the captured scope needs |
| `BigStep.OpenRule` | packages/entity-handlers/src/entity_handlers/compute.py:2765-2816 | a stored closure opens to its parameters, its body and the materialized scope it was made in |
| `BigStep.CallRule` | packages/entity-handlers/src/entity_handlers/compute.py:1465-1532 | applying a closure made in scope s: arguments are evaluated where the call is, the body in the materialized s extended with them by name, in tail position |
| `BuiltinRules.InvokeRule` | packages/entity-handlers/src/entity_handlers/compute.py:1535-1573 | calling a closure on values in hand gives what its body gives with the values bound to its parameters in order on top of the materialized scope, at that cost and storing what that stores |
| `BuiltinRules.MapRule` | packages/entity-handlers/src/entity_handlers/compute.py:1578-1607 | map gives the results of the closure in element order, contained errors in place; each element may cost and store something of its own and rely on what earlier ones stored; the cost is their sum and the store gains all they store |
| `BuiltinRules.FilterRule` | packages/entity-handlers/src/entity_handlers/compute.py:1609-1634 | filter gives exactly the elements whose result is truthy, in order, for the sum of per-element costs, storing what they store |
| `BuiltinRules.FoldRule` | packages/entity-handlers/src/entity_handlers/compute.py:1636-1664 | fold threads the accumulator from the left and gives its last value for the sum of per-element costs; an accumulator may be a closure that an earlier element captured |
| `BuiltinRules.BuiltinRule` | packages/entity-handlers/src/entity_handlers/compute.py:1249-1279 | a builtin path gets its arguments evaluated in canonical key order and bound by name, errors included in contained positions, and gives what the builtin makes of them |
| `BuiltinRules.RangeRule` | packages/entity-handlers/src/entity_handlers/compute.py:1731-1769 | range(n) gives 0 up to n - 1 for n operations |
| `BuiltinRules.FieldOfConstruct` | packages/entity-handlers/src/entity_handlers/compute.py:2288-2351 | reading a field of a constructed entity gives the value the field was built from |
| `BuiltinRules.AliasIsInline` | packages/entity-handlers/src/entity_handlers/compute.py:2061-2110 | the builtin form of arithmetic, comparison, logic (also not), field and construct gives exactly what the inline form gives, in the same depth slot, for the cost of its scalar argument and one operation more |
| `BuiltinRules.InlineForms` | packages/entity-handlers/src/entity_handlers/compute.py:2061-2110 | the inline forms that lemma is about are the very expressions the binary, not, field and construct rules are about |
| `BigStep.UntrippedCost` | packages/entity-handlers/src/entity_handlers/compute.py:953-983 | whatever the budget, an evaluation that hits no limit costs the same and leaves no negative budget |
| `BigStep.SmallerBudgetTrips` | packages/entity-handlers/src/entity_handlers/compute.py:953-983 | with fewer operations than an evaluation costs it hits a limit |
| `Programs.SumByFold` | tests/test_compute.py:1457-1464 | for every n, folding addition over range(n) gives the sum of the numbers below n modulo 2^64 for exactly 5 + 4n operations in depth 3 |
| `Programs.SumByTailCalls` | tests/test_compute.py:3278-3325 | for every n, a self-applying tail-recursive loop gives the same sum for exactly 12 + 15n operations in depth 4: the depth does not grow with n |
| `Programs.ScaleByMap` | tests/test_compute.py:560-587 | for every n and factor, a mapped closure sees the variable it captured from a let: element i is i times the factor modulo 2^64 |
| `Programs.FoldAndLoopAgree` | tests/test_compute.py:3278-3325 | in any state with room for both, the fold and the loop evaluate to the same number, at their exact costs |
| `Collections.ConcatIsFlatten` | packages/entity-handlers/src/entity_handlers/compute.py:1841-1898 | concat succeeds exactly when every part is an array and all elements that are not errors share one element class; then it is the flattening, errors in place; otherwise the result is an error |
| `Collections.ConcatStopsAt` | packages/entity-handlers/src/entity_handlers/compute.py:1861-1898 | a part that is an error is the result, if the parts before it join, and one that is no array does not fit |
| `Collections.Concat` | packages/entity-handlers/src/entity_handlers/compute.py:1861-1898 | the nested loops compute that function |
| `Collections.GroupByPartitions` | packages/entity-handlers/src/entity_handlers/compute.py:1772-1826 | unless an element stops it, group-by gives one group per distinct key in order of first appearance, each with exactly the elements of that key in input order, together a partition; an element that stops it makes the whole result an error or raises; a positive and a negative zero are one key here, two in the source |
| `Collections.PartitionStep` | packages/entity-handlers/src/entity_handlers/compute.py:1803-1818 | adding one more keyed element keeps the partition |
| `Collections.GroupByLoop` | packages/entity-handlers/src/entity_handlers/compute.py:1800-1826 | the loop with an order list and two dictionaries refines the element loop of the evaluator |
| `Dependencies.WalkDeps` | packages/entity-handlers/src/entity_handlers/compute.py:3107-3128 | the depth-first walk with its visited set collects exactly the paths of the tree lookups reachable from the node, on top of what it was given |
| `Dependencies.WalkTreeLookups` | packages/entity-handlers/src/entity_handlers/compute.py:3098-3105 | the walk returns exactly the paths of the reachable tree lookups |
| `Dependencies.ClosedIsCovered` | packages/entity-handlers/src/entity_handlers/compute.py:3131-3193 | a reference-closed program whose reachable lookups read only given paths refers, at any container depth, to no lookup of another path |
| `DependencySoundness.CovEvaluate` | packages/entity-handlers/src/entity_handlers/compute.py:953-983 | an evaluation of a covered program in a covered scope gives a covered result, stores and captures only covered things and registers only covered paths, through closures, scopes, arrays, fields and builtins |
| `DependencySoundness.RegisteredIsPredicted` | packages/entity-handlers/src/entity_handlers/compute.py:3098-3193 | every path an evaluation of a reference-closed program registers is one the walk finds, when what is bound at those paths is covered too |
| `DependencySoundness.WalkPredicts` | packages/entity-handlers/src/entity_handlers/compute.py:3098-3193 | walking first and evaluating later, in another state: the evaluation registers only paths the walk returned, when those paths hold plain data |
| `ReadSafety.ReadsOnlyReadable` | packages/entity-handlers/src/entity_handlers/compute.py:1061-1089 | over any whole evaluation: every path it registers is readable, and its outcome, store, marks, dependencies and costs are the same in any tree that agrees on the readable paths and, without content store access, binds the same entities |
| `FormLaws.BoundAnywhereResolves` | packages/entity-handlers/src/entity_handlers/compute.py:845-875 | that last premise is needed: without access a reference to a stored literal resolves because some path binds it, readable or not |
| `DependencyLimits.TreeExpressionEscapesTheWalk` | packages/entity-handlers/src/entity_handlers/compute.py:1086-1089 | an expression bound in the tree is a leaf for the walk but is evaluated: a path is registered that no reachable lookup names |
| `DependencyLimits.BuiltCodeEscapesTheWalk` | packages/entity-handlers/src/entity_handlers/compute.py:2321-2351 | a program that constructs a tree lookup and runs it after capture registers a path although no lookup is reachable from it at all |
| `Integers.RingOperationsAreModular` | packages/entity-handlers/src/entity_handlers/compute.py:2616-2623 | add, sub and mul return the one integer in [-2^63, 2^63) congruent to the true result modulo 2^64 and depend only on the bit patterns of the operands |
| `Integers.RingLaws` | packages/entity-handlers/src/entity_handlers/compute.py:2616-2623 | the ring laws hold for the wrapped operations |
| `Integers.SignedIsCanonicalRepresentative` | packages/entity-handlers/src/entity_handlers/compute.py:698-706 | the signed reading of a pattern is the one canonical integer congruent to it |
| `Integers.DivThenMul` | packages/entity-handlers/src/entity_handlers/compute.py:2625-2635 | exact division followed by multiplication gives back every canonical dividend, also -2^63 by -1 |
| `Integers.SignedModIsTruncated` | packages/entity-handlers/src/entity_handlers/compute.py:2625-2638 | signed mod is smaller in magnitude than the divisor, has the sign of the dividend, and differs from it by a multiple of the divisor |
| `Integers.CastRoundTrip` | packages/entity-handlers/src/entity_handlers/compute.py:2462-2526 | int to uint to int is the identity on canonical integers |
| `NumericLaws.IntegersCompare` | packages/entity-handlers/src/entity_handlers/compute.py:2643-2700 | integers compare as the numbers they are read as: without a sign where the operand is a cast to uint, with one elsewhere |
| `NumericLaws.FloatsCompare` | packages/entity-handlers/src/entity_handlers/compute.py:2643-2700 | finite floats compare with each other and with integers as reals |
| `NumericLaws.NaNCompares` | packages/entity-handlers/src/entity_handlers/compute.py:2643-2700 | NaN is neither before, after nor equal to any number |
| `NumericLaws.InfiniteCompares` | packages/entity-handlers/src/entity_handlers/compute.py:2643-2700 | the infinities lie around all finite numbers |
| `NumericLaws.InfinitiesCompare` | packages/entity-handlers/src/entity_handlers/compute.py:2643-2700 | the negative infinity is before the positive, each equal to itself |
| `NumericLaws.StringsCompare` | packages/entity-handlers/src/entity_handlers/compute.py:2677-2686 | strings compare at their first differing code point, a proper prefix before what it begins |
| `NumericLaws.OthersCompare` | packages/entity-handlers/src/entity_handlers/compute.py:2657-2664 | values that are not both numbers are equal exactly when they are the same value |
| `NumericLaws.CompareFails` | packages/entity-handlers/src/entity_handlers/compute.py:2643-2691 | a comparison fails, as a type mismatch, exactly on an unknown operator and on an ordering of neither two numbers nor two strings; else it is a boolean |
| `NumericLaws.DivisionOfRead` | packages/entity-handlers/src/entity_handlers/compute.py:2628-2635 | division is of the numbers read, signed or unsigned: an exact quotient is the canonical integer congruent to it, another the real quotient, and a zero divisor fails |
| `NumericLaws.RemainderOfRead` | packages/entity-handlers/src/entity_handlers/compute.py:2628-2638 | the remainder, signed or unsigned, is congruent to the truncated one of the numbers read |
| `NumericLaws.RemainderUnique` | packages/entity-handlers/src/entity_handlers/compute.py:2636-2638 | there is only one truncated remainder |
| `NumericLaws.FloatArithmeticIsReal` | packages/entity-handlers/src/entity_handlers/compute.py:2597-2610 | with a float on either side arithmetic is that of the reals, and only a zero divisor leaves them, for NaN or the infinity of the dividend's sign |
| `NumericLaws.ArithmeticFails` | packages/entity-handlers/src/entity_handlers/compute.py:2589-2640 | arithmetic fails on what is no number, on an unknown operator and on a remainder of floats |
| `NumericLaws.FloatCast` | packages/entity-handlers/src/entity_handlers/compute.py:2497-2514 | a float casts to the integer next to it toward zero, exactly when the target type has it |
| `NumericLaws.OtherCasts` | packages/entity-handlers/src/entity_handlers/compute.py:2478-2496 | every number casts to a float as it is; NaN, the infinities, other values and other types do not cast |
| `NumericLaws.FalseValues` | packages/entity-handlers/src/entity_handlers/compute.py:620-632 | the false values are null, false, zero, the empty string and the empty array |
| `NumericLaws.KeysOrdered` | packages/entity-handlers/src/entity_handlers/compute.py:635-643 | keys go by the length of their encoding, and those of one length by their first difference |
| `Materialize.BareIsEncodable` | packages/entity-handlers/src/entity_handlers/compute.py:336-402 | below its top the bare form holds no in-flight entity, and neither does anything materialization stores |
| `Materialize.BareIsIdempotent` | packages/entity-handlers/src/entity_handlers/compute.py:336-402 | materializing twice is materializing once |
| `Materialize.SameMaterializes` | packages/entity-handlers/src/entity_handlers/compute.py:405-448 | values that differ only in the diagnostics of errors in array positions materialize to the same value, store the same entities and raise alike |
| `Materialize.LoadOfCapture` | packages/entity-handlers/src/entity_handlers/compute.py:2712-2816 | loading a captured scope gives the pointwise materialized scope, whatever else is in the store, with its entities in the store or the envelope, and marks the scope and its entities as met |
| `Materialize.CaptureIsIdentityIffSettled` | packages/entity-handlers/src/entity_handlers/compute.py:2712-2816 | a captured scope loads back as itself exactly when every binding is settled: no live entity below its top and no error in an array position |
| `Materialize.BareFixedIffSettled` | packages/entity-handlers/src/entity_handlers/compute.py:336-402 | the bare form of a value is the value itself exactly when the value is settled |
| `Materialize.CaptureIsNotIdentity` | packages/entity-handlers/src/entity_handlers/compute.py:2712-2816 | a scope with an entity that holds another live entity in a field loads back as a different scope |
| `Materialize.CapturedBindingLoads` | packages/entity-handlers/src/entity_handlers/compute.py:2739-2816 | one captured binding comes back in bare form, and fails to load exactly when it is an entity that is not available |
| `Materialize.CaptureLoadsIff` | packages/entity-handlers/src/entity_handlers/compute.py:2765-2816 | a captured scope loads exactly when its entity is stored and every entity bound in it is stored or in the envelope; otherwise it fails as not found, or as unreachable |
| `Materialize.ForeignBindings` | packages/entity-handlers/src/entity_handlers/compute.py:2786-2814 | a stored binding without a kind is its own value, and one of an unknown kind fails |
| `Materialize.ForeignScopes` | packages/entity-handlers/src/entity_handlers/compute.py:2776-2787 | a stored scope without data or bindings is empty |
| `StoredReferences.BareIsComplete` | packages/entity-handlers/src/entity_handlers/compute.py:336-402 | everything the bare form refers to was held by the value or is stored with it, and so is everything that what is stored refers to |
| `StoredReferences.BareStoresNoMore` | packages/entity-handlers/src/entity_handlers/compute.py:336-402 | nothing is stored that neither the bare form nor another stored entity refers to |
| `StoredReferences.CaptureIsComplete` | packages/entity-handlers/src/entity_handlers/compute.py:2712-2816 | a capture leaves nothing dangling: every reference of the stored scope, and of what is stored with it, was in a binding already or is stored |
| `StoredReferences.CaptureStoresNoMore` | packages/entity-handlers/src/entity_handlers/compute.py:2712-2816 | a capture stores nothing that the stored scope does not lead to |
| `StoredReferences.LambdaIsComplete` | packages/entity-handlers/src/entity_handlers/compute.py:2193-2214 | a lambda in a scope that holds nothing dangling makes a closure and a store that hold nothing dangling |
| `StoredReferences.StoredErrorsAreCodes` | packages/entity-handlers/src/entity_handlers/compute.py:336-402 | what does not raise stores its errors as their code alone, so that no diagnostic gets into a hash |
| `StoredReferences.ContainedErrorKeepsItsCode` | packages/entity-handlers/src/entity_handlers/compute.py:336-402 | an error in an array position is referred to by an entity with its code, in either of its representations |
| `StoredReferences.WhereErrorsRaise` | packages/entity-handlers/src/entity_handlers/compute.py:336-402 | errors in array positions do not raise, an error entity anywhere else does |
| `Values.CanonicalKeysSorted` | packages/entity-handlers/src/entity_handlers/compute.py:635-643 | canonical key order is strictly increasing in encoded byte length, then in code points, which is byte order |
| `Values.CanonicalKeysUnique` | packages/entity-handlers/src/entity_handlers/compute.py:635-643 | there is exactly one such listing of a set of keys, so every peer evaluates arguments in the same order |
| `Attestation.GuardIdle` | packages/entity-handlers/src/entity_handlers/attestation.py:354-419 | on an acyclic graph the in-progress set never changes an answer: the guarded liveness equals the guard-free recursion; the guarded one terminates on any graph |
| `Attestation.LiveClosedForm` | packages/entity-handlers/src/entity_handlers/attestation.py:374-419 | an attestation is live exactly when it is not terminally dead and everything that supersedes it, directly or transitively, is terminally dead |
| `Attestation.LiveAntichain` | packages/entity-handlers/src/entity_handlers/attestation.py:388-419 | no live attestation supersedes another, directly or transitively |
| `Attestation.LiveByFields` | packages/entity-handlers/src/entity_handlers/attestation.py:354-419 | live, on the fields: the instant is in the window of not-before and expiry, no live bound revocation of the same attester names it, and every line of supersedes pointers to it comes from what is out of its window or so revoked |
| `Attestation.OwnRevocationKills` | packages/entity-handlers/src/entity_handlers/attestation.py:354-371 | on an acyclic graph a live bound revocation that names an attestation and has its attester makes it not live |
| `Attestation.ForeignRevocationIsIdle` | packages/entity-handlers/src/entity_handlers/attestation.py:354-371 | binding a new attestation that supersedes nothing, and whose attester is not that of the one it names, changes the liveness of no other, on any graph |
| `Attestation.RevocationParity` | packages/entity-handlers/src/entity_handlers/attestation.py:354-371 | when a linear chain of n self-revocations of revocations hangs on an attestation, and nothing else supersedes or revokes a member, the attestation is live if and only if n is even, whatever else the graph holds |
| `Attestation.Expand` | packages/entity-handlers/src/entity_handlers/attestation.py:481-490 | the unvisited successors of an attestation, each once |
| `Attestation.ForwardClosure` | packages/entity-handlers/src/entity_handlers/attestation.py:475-490 | the breadth-first walk collects exactly the start and everything that descends from it |
| `Attestation.FindLiveHead` | packages/entity-handlers/src/entity_handlers/attestation.py:469-498 | a head that is returned is the greatest live member of the forward closure in the tie-break order; none is returned only when no member is live |
| `Attestation.HeadBeganLast` | packages/entity-handlers/src/entity_handlers/attestation.py:491-498 | of the live members the head began last, one that does not say so having begun at 0, and of those it has the largest hash |
| `Attestation.NoHeadIffAllDead` | packages/entity-handlers/src/entity_handlers/attestation.py:469-498 | there is no live head exactly when the whole forward closure of the start is terminally dead |
| `Attestation.HeadOfLive` | packages/entity-handlers/src/entity_handlers/attestation.py:469-498 | a live attestation is its own head and the only one |
| `Attestation.DefaultFindAuthorizing` | packages/entity-handlers/src/entity_handlers/attestation.py:501-546 | the default authorizer returns the lowest-hash live attestation that targets the peer, and nothing exactly when there is none |
| `AttestationWalks.WalkSupersedesChain` | packages/entity-handlers/src/entity_handlers/attestation.py:444-466 | the walk stops on any store and returns a duplicate-free history that ends where it must: complete, broken, or at a cycle |
| `AttestationWalks.AcyclicHistoryIsComplete` | packages/entity-handlers/src/entity_handlers/attestation.py:444-466 | when pointers are acyclic the history never ends for a cycle |
| `AttestationWalks.WalkAttestingChain` | packages/entity-handlers/src/entity_handlers/attestation.py:549-590 | the walk returns the terminated chain of authorizers within the depth bound if there is one, for any authorizer function and termination test |
| `AttestationWalks.ChainsAgree` | packages/entity-handlers/src/entity_handlers/attestation.py:549-590 | authorized chains are determined by their length, so there is at most one result |
| `AttestationWalks.NoWayOn` | packages/entity-handlers/src/entity_handlers/attestation.py:573-590 | a chain that meets no terminating entry and cannot be extended rules out every result |
| `Joins.JoinSafety` | packages/entity-handlers/src/entity_handlers/continuation.py:1710-2030 | over every run of arrivals and sweeps, from any install: a slot is filled only when expected and free; a completing dispatch carries exactly the expected slots, all of them accepted since the round before it ended or given at install; a tagged value enters only the round it names; the round id is the number of rounds ended; an ended round delivers exactly what it held |
| `Joins.WaitsIffInstalledWaiting` | packages/entity-handlers/src/entity_handlers/continuation.py:1710-2030 | a live join holds a proper subset of its expected slots (nothing, when it expects nothing) in every reachable state exactly when it was installed so |
| `Joins.ValuesConserved` | packages/entity-handlers/src/entity_handlers/continuation.py:1836-2018 | over every run each slot value, accepted or given at install, lies exactly once in the current round or in one completed, fire-partial or abandoned round |
| `Joins.ArrivalsConserved` | packages/entity-handlers/src/entity_handlers/continuation.py:1710-2030 | what callers were told matches what the join holds or let go: the values given at install and those of all arrivals answered as accepted are exactly those in ended rounds and in the current one |
| `Joins.LifetimeConserved` | packages/entity-handlers/src/entity_handlers/continuation.py:1673-1707 | a finite join never fires more often than max(1, its count at install), is deleted exactly then, and until then its count has gone down by one a fire; abandoned rounds, failed dispatches and brakes do not count; a standing join is never deleted |
| `Joins.ExhaustedFiresPartially` | packages/entity-handlers/src/entity_handlers/continuation.py:1555-1603 | a deadline join installed with a count below one and the fire-partial policy, incomplete, fires once when a sweep finds it expired |
| `Joins.WithinCountIff` | packages/entity-handlers/src/entity_handlers/continuation.py:1555-1707 | over every run a join fires at most as often as it was installed for if and only if its count is absent or positive, or it has no deadline, or it abandons, or its round cannot be incomplete |
| `Joins.BrakedFiresIffPartialDue` | packages/entity-handlers/src/entity_handlers/continuation.py:1606-1670 | past the ceiling an advance fires a round if and only if a fire-partial is due: the join is live, its round expired and its policy fire-partial; it makes a dispatch if and only if, besides, its capability is found, and then only that one |
| `Joins.StepKeeps` | packages/entity-handlers/src/entity_handlers/continuation.py:1710-2030 | each single arrival or sweep keeps the invariant of a run |
| `Joins.ReapOnlyAtDeadline` | packages/entity-handlers/src/entity_handlers/continuation.py:1555-1603 | a round is never ended by a reap before its deadline, and a join without one is never changed by it |
| `Joins.ReapedIsNotExpired` | packages/entity-handlers/src/entity_handlers/continuation.py:1555-1603 | after a reap nothing is left to reap at that time |
| `Deadlines.EndsAtDeadline` | packages/entity-handlers/src/entity_handlers/continuation.py:1555-1707 | over every run of an installed deadline join, in the clock readings of its moves: a move ends the round incomplete, with what it holds and by the policy, if and only if it looks at it a deadline or more after the install, fire or abandonment that began it, slots are missing, and it is a sweep or the join has executions left |
| `Deadlines.RunBegins` | packages/entity-handlers/src/entity_handlers/continuation.py:1673-1707 | the stored start of a round is the reading of the move that began it, in every reachable state |
| `Joins.DispatchesCarry` | packages/entity-handlers/src/entity_handlers/continuation.py:1836-2018 | an arrival dispatches a full round with exactly the expected slots, or the values of a round that has run out |
| `Joins.Rejections` | packages/entity-handlers/src/entity_handlers/continuation.py:1797-1833 | why an arrival is turned away: an unknown or empty slot before a stale round before a filled slot |
| `Continuations.ForwardLifetime` | packages/entity-handlers/src/entity_handlers/continuation.py:1312-1326 | for a forward continuation installed with N > 0 executions, completed dispatches plus what remains is N in every reachable state and it is deleted exactly at the N-th; with N < 1 it never dispatches and stays; a standing one never changes |
| `Continuations.ForwardAnswers` | packages/entity-handlers/src/entity_handlers/continuation.py:1008-1130 | what becomes of a forward advance, by the fields: the brake first, then the address, the count, the routing of an error, the form of the dispatch and the capability |
| `Continuations.Peer.InstallJoin` | packages/entity-handlers/src/entity_handlers/continuation.py:453-634 | a malformed join is rejected and changes nothing; otherwise it is stored, a deadline join in round 0 at the install time and tracked |
| `Continuations.InstallTakes` | packages/entity-handlers/src/entity_handlers/continuation.py:453-634 | install takes a join exactly when it is addressed, its policy fits its deadline and its capability is found |
| `Continuations.Peer.NoteJoinPath` | packages/entity-handlers/src/entity_handlers/continuation.py:1463-1472 | exactly the joins with a deadline enter the sweep index |
| `Continuations.Peer.AgeJoinAfterFire` | packages/entity-handlers/src/entity_handlers/continuation.py:1673-1707 | the stored join after any fire: counted down and emptied for the next round, or deleted with the last execution |
| `Continuations.Peer.ReapExpiredRound` | packages/entity-handlers/src/entity_handlers/continuation.py:1537-1603 | acts exactly when the round is expired; a fire-partial makes its dispatch if it can and ages the join either way, an abandoned round does neither |
| `Continuations.Peer.FillSlot` | packages/entity-handlers/src/entity_handlers/continuation.py:1797-2018 | slot and round checks, accumulation, the depth brake on the seeded bounds and the terminal dispatch leave the store as the join state machine says, answer alike and make the same dispatches |
| `Continuations.Peer.AdvanceJoin` | packages/entity-handlers/src/entity_handlers/continuation.py:1710-2030 | one arrival at a stored join, on any store and any index, is one step of the join state machine, with its answer and its dispatches; a touched join with a deadline is tracked afterwards, also on a restarted peer whose index is empty |
| `Continuations.Peer.AdvanceForward` | packages/entity-handlers/src/entity_handlers/continuation.py:978-1326 | one forward trigger: the brake is asked of its seeded bounds; only a delivered dispatch ages the continuation, every other answer leaves it as it was |
| `Continuations.Peer.SweepOneJoin` | packages/entity-handlers/src/entity_handlers/continuation.py:1505-1534 | a tracked path is reaped, with the dispatch that makes, or dropped from the index when no join with a deadline is there |
| `Continuations.Peer.MaybeSweepJoins` | packages/entity-handlers/src/entity_handlers/continuation.py:1475-1502 | on any store and any index, a sweep that is not throttled reaps every tracked path at its own reading, makes the dispatches of those reaps, touches nothing else, and keeps exactly those tracked paths that hold a deadline join |
| `Continuations.SweepLeavesNothingDue` | packages/entity-handlers/src/entity_handlers/continuation.py:1475-1534 | after an unthrottled sweep no tracked join with expected slots is incomplete past its deadline, and what has no deadline is unchanged, on any peer |
| `CausalChains.BrakeDecides` | packages/entity-handlers/src/entity_handlers/continuation.py:894-907 | a step is suspended if and only if it is an advance past the ceiling that comes to a dispatch that asks the brake; past the ceiling an advance dispatches if and only if a partial round is due |
| `CausalChains.UnstoppableIffPartial` | packages/entity-handlers/src/entity_handlers/continuation.py:1606-1670 | a step dispatches under all bounds if and only if it is the fire-partial of a due round, in an arrival or in a sweep |
| `CausalChains.ChainBrake` | packages/entity-handlers/src/entity_handlers/continuation.py:821-907 | over every chain of steps, each caused by a dispatch of the one before, from a request without depth: an advance with at least 64 others before it dispatches if and only if a partial round is due, and a step is suspended if and only if it is such an advance and asks the brake; sweeps do not count |
| `CausalChains.ChainsEnd` | packages/entity-handlers/src/entity_handlers/continuation.py:821-907 | a chain in which no advance past the ceiling has a partial round due has at most 65 advances, and at most 65 steps if none is a sweep |
| `CausalChains.ForwardChain` | packages/entity-handlers/src/entity_handlers/continuation.py:821-907 | the bound is reached: a forward continuation that can be dispatched on makes a chain of any length up to 65 |
| `CausalChains.PartialChain` | packages/entity-handlers/src/entity_handlers/continuation.py:1606-1670 | due partial rounds make chains of any length, whatever the costs: no depth ends them |
| `CausalChains.TtlLeft` | packages/entity-handlers/src/entity_handlers/continuation.py:880-891 | if no step spends more than 7 units, some time to live is left at every advance among the first 65 steps, so that depth is the first to end a chain |
| `CausalChains.SeedingRaises` | packages/entity-handlers/src/entity_handlers/continuation.py:870-891 | seeding counts one more advance, raises the time to live of an origin to 512 and lowers none |
| `CausalChains.TtlEnds` | packages/entity-core/src/entity_core/peer/peer.py:5529-5536 | where a dispatch spends at least one unit and one that has none left is refused, a chain goes on after an advance for at most as many steps as that advance hands on units: this ends fire-partial chains too |
| `CausalChains.PartialChainWithinTtl` | packages/entity-core/src/entity_core/peer/peer.py:5529-5536 | that bound is reached by the fire-partials of arrivals |
| `CausalChains.SweepChainUnbounded` | packages/entity-handlers/src/entity_handlers/continuation.py:1475-1534 | fire-partials of sweeps run under the bounds of the request as they are: without depth and time to live on it a chain of them has any length, and none of its steps counts |
| `Clock.CompareVector` | packages/entity-handlers/src/entity_handlers/clock.py:191-220 | the flag loop over the union of keys computes the pointwise order with missing counters read as 0 |
| `Clock.VectorIsPartialOrder` | packages/entity-handlers/src/entity_handlers/clock.py:191-220 | equal means every counter agrees, before and after are converses, and before is transitive, also through equal vectors |
| `Clock.MissingCounterIsZero` | packages/entity-handlers/src/entity_handlers/clock.py:191-220 | a counter that is not there reads as 0, and a larger one is later |
| `Clock.LogicalIsTotalOrder` | packages/entity-handlers/src/entity_handlers/clock.py:177-188 | logical clocks compare as the numbers they are |
| `Clock.HlcIsTotalOrder` | packages/entity-handlers/src/entity_handlers/clock.py:223-251 | with peers present hybrid comparison is a total order |
| `Clock.HlcIsLexicographic` | packages/entity-handlers/src/entity_handlers/clock.py:223-251 | hybrid stamps compare by time, then count, then the peers where both name one, smaller first |
| `Clock.HlcCarriesOver` | packages/entity-handlers/src/entity_handlers/clock.py:223-251 | for all stamps with the first before or equal to the second and the second before or equal to the third, the outer comparison is the one transitivity asks for exactly under the stated condition on physical parts, counters and which stamps name a peer |
| `Clock.HlcNotTransitiveWithoutPeer` | packages/entity-handlers/src/entity_handlers/clock.py:245-251 | with a missing peer comparing is not transitive, in each of three ways: equal then equal, before then equal, equal then before |
| `Clock.LowestEntry` | packages/entity-handlers/src/entity_handlers/clock.py:504-507 | the pruning victim has the lowest counter |
| `Clock.ClockStore.Advance` | packages/entity-handlers/src/entity_handlers/clock.py:431-561 | each mode advances exactly the clocks it keeps and reports them, with a timestamp in wall mode or when configured; writes to the clock's own paths advance nothing |
| `Clock.HlcMonotone` | packages/entity-handlers/src/entity_handlers/clock.py:515-555 | over any wall readings, backward jumps included, every hybrid stamp compares after all earlier ones and its physical part is the largest of the initial value and the readings so far |
| `Clock.MaxReadingIsMax` | packages/entity-handlers/src/entity_handlers/clock.py:520-540 | that largest reading is an upper bound of all of them and one of them |
| `Clock.LogicalCounts` | packages/entity-handlers/src/entity_handlers/clock.py:520-555 | the logical part of a hybrid stamp counts the writes since its physical part last rose, and the stamp bears the peer of its own write |
| `Clock.UnprunedAdvanceIsLater` | packages/entity-handlers/src/entity_handlers/clock.py:485-512 | a vector advance that prunes nothing makes a later stamp |
| `Clock.PrunedAdvanceOrder` | packages/entity-handlers/src/entity_handlers/clock.py:504-507 | an advance that prunes makes a later stamp exactly when what it drops is another peer's entry that counted nothing |
| `Clock.VectorRunRises` | packages/entity-handlers/src/entity_handlers/clock.py:485-512 | over unpruned runs every vector stamp compares after all earlier ones |
| `Clock.VectorRunIsUnpruned` | packages/entity-handlers/src/entity_handlers/clock.py:504-507 | as long as the peers fit the limit, the run that only raises the own counter is the one the clock takes: no advance prunes |
| `Discovery.UriInjective` | packages/entity-handlers/src/entity_handlers/discovery.py:464-465 | slots of different candidates differ, as long as no registered name is another one followed by a separator and more |
| `Discovery.SlotsDistinctIffNamesOk` | packages/entity-handlers/src/entity_handlers/discovery.py:464-465 | the slots of all candidates of a set of backends are distinct if and only if no name is another name followed by a separator and anything |
| `Discovery.SharedSlotDisagrees` | packages/entity-handlers/src/entity_handlers/discovery.py:464-465 | with two such names there are two live candidates for one slot, and no slots agree with an index that holds both |
| `Discovery.AgreeWrite` | packages/entity-handlers/src/entity_handlers/discovery.py:519-527 | writing a slot and its live entry together keeps index and slots in agreement |
| `Discovery.AgreeDrop` | packages/entity-handlers/src/entity_handlers/discovery.py:529-540 | removing both together keeps them in agreement |
| `Discovery.SlotsMirrorIndex` | packages/entity-handlers/src/entity_handlers/discovery.py:519-540 | agreement leaves no freedom: a slot is there exactly for a live candidate, and the index determines all slots |
| `Discovery.UnturnedIsComplete` | packages/entity-handlers/src/entity_handlers/discovery.py:698-713 | when no observation met a full index, every one within the payload bound is written: hashes in order, each id holding its last one, other ids untouched |
| `Discovery.AdmissionPins` | packages/entity-handlers/src/entity_handlers/discovery.py:591-603 | a successor can be admitted again as the peer it was admitted for and as no other; it records that peer and the time; admission fails closed |
| `Discovery.ChainLeadsBack` | packages/entity-handlers/src/entity_handlers/discovery.py:605-613 | over any run of admissions the successor leads back to the first observation, one step an admission, and keeps its backend and endpoint |
| `Discovery.Extension.EmitCandidate` | packages/entity-handlers/src/entity_handlers/discovery.py:484-527 | one observation is written with its identity hint, unless it is oversized or new at the ceiling |
| `Discovery.Extension.RemoveCandidate` | packages/entity-handlers/src/entity_handlers/discovery.py:529-540 | a departure removes exactly the slot and the live entry and leaves the entity stored |
| `Discovery.Extension.OnBrowseArrive` | packages/entity-handlers/src/entity_handlers/discovery.py:735-740 | an arrival is written under the same ceiling and payload rules |
| `Discovery.Extension.Reap` | packages/entity-handlers/src/entity_handlers/discovery.py:542-562 | on the fields: a live entry is gone exactly when it has a TTL and the time is past its last sighting by more than the grace multiple of it; the others, and all other backends, are as they were, and the answer names those gone |
| `Discovery.ObservationLasts` | packages/entity-handlers/src/entity_handlers/discovery.py:484-562 | a reap keeps an observation exactly when it has no TTL or the time is not past its sighting by more than the grace multiple of it; the sighting is what the backend reports or the time of the report |
| `Discovery.ObservationWritten` | packages/entity-handlers/src/entity_handlers/discovery.py:484-527 | what is written for an observation: its own fields, superseding nothing, with the hint it brings or else one made from a well-formed peer id |
| `Discovery.Extension.Scan` | packages/entity-handlers/src/entity_handlers/discovery.py:694-713 | the hashes and the index are those of the observations looked at; truncated is set exactly when a new one met a full index or the count reached the ceiling with more observations than results; a scan not marked truncated wrote every observation within the payload bound |
| `Discovery.Extension.AdmitIdentified` | packages/entity-handlers/src/entity_handlers/discovery.py:566-637 | a live entry that shows the candidate moves to the successor and keeps its TTL, otherwise the successor is only stored; a refusal changes nothing |
| `Discovery.Extension.FindLive` | packages/entity-handlers/src/entity_handlers/discovery.py:618-625 | finds a live entry with the hash if there is one |

## Left out

Compute:

- Handler dispatch and the `store` builtin: an apply that reaches either ends the evaluation as
  `Dispatched`, so capability, resource and write checks are not modelled, and no theorem speaks of what
  follows.
- The expression forms are functions that thread budget and context as values; only the trampoline,
  the walker, `concat` and the group-by loop are methods. Sharing of the budget object between nested
  calls is not captured beyond that threading, nor is what a raised exception leaves in the objects,
  except in the trampoline.
- Floats are exact reals, NaN and two infinities; rounding, overflow to an infinity, signed zero and the
  sign of NaN are not modelled. Non-exact division gives the exact quotient.
- Strings are sequences of code points.
- Diagnostic messages are fixed labels; laws that depend on them say so.
- Malformed fields the source trips over (a non-string parameter, an unhashable key, a record where an
  array is iterated) are one outcome, `Raised`; the kind of exception is not modelled.
- Python's cross-type equality inside containers (`1 == 1.0`, `True == 1`) and cyclic Python objects.
- The order in which the walker lists its paths, and its exception on an entity whose data is not a record.
- The read permission check is a fixed predicate on paths.
- DependencyIndex, install and uninstall, the audit walker, freezing, reactive re-evaluation,
  `init_budget` and the thread bridge.
- Collections.GroupByPartitions: keys a positive and a negative zero alike, because floats are reals here;
  their encodings, by which the source groups, differ.
- BigStep.Gives: covers evaluations that end in a value, errors included, without reading the tree; what a
  tree or a hash lookup leads to is in `FormLaws`, and group-by has its own theorem.
- Materialize.CaptureLoadsIff: the order in which a failing load meets the bindings is canonical here and
  that of the stored map in the source, so what else it marked as met can differ.
- Materialize.CapturePuts: what a capture that raises half-way has stored by then.

Attestations:

- Signatures, peer resolution, creation and the handler operations. The scan over bound attestations is
  a map by hash, iterated in any order. The instant is one parameter, where the source reads the clock
  once per liveness question when none is given.
- Attestation.DefaultFindAuthorizing: the rank that witnesses acyclicity is a ghost parameter.

Continuations:

- Each advance is one atomic step. The source reads, awaits the dispatch and then writes, so a target
  that advances the same continuation again sees the old count; that interleaving is not modelled.
- Dispatch payloads beyond the slot values (a fire-partial adds an `incomplete` field), delivery of
  results and errors, markers, transforms, cross-peer bundles, resume and abandon operations, and the
  slot taken from the path when a request names none.
- Continuations.Peer.InstallJoin: the checks of transforms, of result merging, of the writer's authority
  and of an explicit `abandon` without a deadline.
- Continuations.Peer.AdvanceForward: the environment's answers (status, bounds, delivered) come with the
  trigger.
- Continuations.SweepLeavesNothingDue: asks that tracked joins have positive deadlines, which install
  validates, and for a clock that does not run backwards between the reap and the aging of one join.
- CausalChains.TtlEnds: how many units a dispatch spends is a parameter; the operation budget of a request,
  which ends chains too, is not modelled.

Clocks:

- How state is stored and configured, the read, compare and tick operations, and clock-type detection.
  When several entries share the lowest counter, pruning may drop any of them.

Discovery:

- Announcing, decisions, backends and session handling, registration order, and an extension without an
  emit pathway, where the index grows without slots. No other writer touches the candidate slots.
- Discovery.Extension.Reap: the reaped ids are a set, not a list.
- Discovery.Extension.FindLive: the source takes the first match in insertion order; the model may take
  any entry that shows the hash.
- Discovery.Extension.EmitCandidate: asks its callers for the ceiling answer they compute in the source. The
  emit pathway can refuse a write at its cascade limit, and the source tracks the candidate all the same;
  writes always succeed here.
- Stored candidates with fields of the wrong type.

Not modelled at all: `auto_version.py`, `capability.py`, `history.py`, `route.py`, inbox, registries,
manifests, conformance and the command line, which would add plumbing or single-branch checks.
