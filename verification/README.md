# GTDynamics: verified models

Dafny models of the parts of GTDynamics that are data-structure or algebra code, with proofs of what
they promise. The numerical solvers underneath (Levenberg-Marquardt on a fixed graph, elimination,
factorizations) are arbitrary functions, so the results hold whatever those return. Numbers are exact
reals; tolerances the code branches on are parameters.

| file | models |
|---|---|
| `Prelude`, `LinearAlgebra`, `Powers`, `Factors`, `Triangular` | keys and results, vectors and matrices, factors and values, triangular solves |
| `Components` | splitting equality constraints into connected components |
| `Substitute`, `ManifoldProblem`, `ManifoldOptimizer`, `ManifoldRun`, `Linearize` | rewriting a constrained problem over constraint manifolds, its meaning and derivatives, and a whole run |
| `ConstVar` | factors with variables held constant, partial evaluation of factor graphs |
| `MultiJacobian`, `BayesNet`, `TangentBasis` | back-substitution through an eliminated graph, the tangent basis |
| `WalkDrift` | how far pruning can move the Jacobians of the whole walk |
| `Retraction`, `DynamicsRetraction`, `StagedRetraction` | retraction onto a manifold, in one stage and in three, and what the three stages achieve |
| `TangentLift` | manifold points as rewritten factors see them |
| `LieGroups`, `Joints`, `Chains`, `ForwardKinematics` | joint transforms, products of exponentials, the search that places links |
| `LevenbergMarquardt`, `AugmentedLagrangian` | the optimizer loops |
| `MultiPhase` | time indices of trajectories with several phases |

Poses and twists are a group acting on a vector space with an exponential map (`LieGroups.LieGroup`),
as a record of functions with named laws; `LieGroups.HeisenbergIsLieGroup` gives a noncommutative
instance. A factor is a key sequence, an error function, Jacobian blocks and a noise function; that it
looks at its own keys only is `Factors.Local`. A factor graph, `Values` and an optimizer's state are
fields or variables that methods reassign, as in the original; factors with constants are shared objects.

## Model

| member | source | states |
|---|---|---|
| Components.FindConnectedComponent | gtdynamics/manifold/ManifoldOptimizer.cpp:35-66 | the stack search returns exactly the keys linked to the start key and exactly the constraints touching them, erases exactly those keys from the shared set, and terminates |
| Components.IdentifyConnectedComponents | gtdynamics/manifold/ManifoldOptimizer.cpp:70-94 | the components are a decomposition: disjoint, each a whole component, together covering every constraint key; what was erased is always a union of whole components |
| Components.SearchIsComplete | gtdynamics/manifold/ManifoldOptimizer.cpp:43-59 | when the stack is empty, every key linked to the start has been erased and every constraint touching one is listed |
| Components.VisitKeepsSearching | gtdynamics/manifold/ManifoldOptimizer.cpp:44-58 | popping one key and erasing its neighbours keeps the search invariant |
| Components.SameComponentIffChainLinked | gtdynamics/manifold/ManifoldOptimizer.cpp:35-94 | two constraints with keys are in the same component exactly when a chain of constraints sharing keys links them |
| Components.EveryConstraintInExactlyOneComponent | gtdynamics/manifold/ManifoldOptimizer.cpp:70-94 | a constraint with at least one key is in exactly one component |
| Components.ComponentKeysComeFromItsConstraints | gtdynamics/manifold/ManifoldOptimizer.cpp:61-65 | a component's keys are the keys of its constraints |
| Substitute.ComputeNewKeys | gtdynamics/manifold/SubstituteFactor.cpp:20-40 | the loop computes the new key sequence |
| Substitute.NewKeysAreTheVariables | gtdynamics/manifold/SubstituteFactor.cpp:20-40 | the new keys are the unconstrained keys and the free manifold keys of the factor, nothing else |
| Substitute.NewKeysAreDistinct | gtdynamics/manifold/SubstituteFactor.cpp:29-37 | distinct base keys give distinct new keys when no manifold key carries the name of an unconstrained key |
| Substitute.NewKeysInOrder | gtdynamics/manifold/SubstituteFactor.cpp:20-40 | each new key stands where it was first needed |
| Substitute.InactiveIffAllFixed | gtdynamics/manifold/SubstituteFactor.cpp:20-40 | a factor loses all its keys exactly when every variable is fully constrained |
| Substitute.ComputeBaseKeyIndex | gtdynamics/manifold/SubstituteFactor.cpp:43-49 | every key is mapped to a position that holds it |
| Substitute.ClassifyKeys | gtdynamics/manifold/SubstituteFactor.cpp:52-68 | succeeds exactly when fixed keys have values and none is listed twice; the three groups are the fixed values, the manifold keys and the unconstrained keys |
| Substitute.MakeSubstituteFactor | gtdynamics/manifold/SubstituteFactor.cpp:20-68 | the constructed factor, and exactly when construction fails |
| Substitute.InsertSelected | gtdynamics/manifold/SubstituteFactor.cpp:72-79 | adds the selected values; fails exactly when a selected key is already present or is listed twice |
| Substitute.Rebuild | gtdynamics/manifold/SubstituteFactor.cpp:82-92 | the rebuilt assignment has exactly the base factor's keys, each with the fixed, free or manifold value it stands for; fails exactly when a variable that moves with a manifold is listed twice |
| Substitute.UnwhitenedError | gtdynamics/manifold/SubstituteFactor.cpp:82-92 | the base factor sees exactly its keys, each with the fixed, free or manifold value it stands for; fails exactly when a variable that moves with a manifold is listed twice |
| Substitute.RepeatedMovingKeyFails | gtdynamics/manifold/SubstituteFactor.cpp:72-92 | a concrete factor that is rewritten without error and then fails when it is evaluated |
| Linearize.ManifoldSlot | gtdynamics/manifold/SubstituteFactor.cpp:107-121 | the accumulation loop: the first product starts the block, later ones are added |
| Linearize.SlotSumsContributions | gtdynamics/manifold/SubstituteFactor.cpp:108-121 | a slot applied to a manifold step is the sum of the contributions of the base variables on that manifold |
| Linearize.ComputeSlots | gtdynamics/manifold/SubstituteFactor.cpp:101-123 | one slot per new key, the base block for an unconstrained key and the accumulated block for a manifold key |
| Linearize.ErrorAndSlots | gtdynamics/manifold/SubstituteFactor.cpp:82-124 | evaluation with Jacobians: error and slots are both those of the base factor at the rebuilt assignment, and every slot is written |
| Linearize.LinearizationCommutes | gtdynamics/manifold/SubstituteFactor.cpp:95-124 | the slots applied to any step of the new variables sum to the base blocks applied to the lifted step (recover Jacobians on manifold keys, the step itself on free keys, zero on fixed keys) |
| Linearize.ConstructedMatches | gtdynamics/manifold/SubstituteFactor.cpp:20-68 | every constructed active factor, with any suitable assignment and base blocks that fit, meets the conditions under which linearization commutes with substitution |
| Linearize.ConstructedFactorLinearizes | gtdynamics/manifold/SubstituteFactor.cpp:95-124 | linearization commutes with substitution for every factor as constructed, summing over the base keys in order |
| Linearize.SlotWrittenIff | gtdynamics/manifold/SubstituteFactor.cpp:107-121 | a manifold variable's block is written exactly if the factor looks at one of its variables |
| Linearize.ConstructedSlotsAreWritten | gtdynamics/manifold/SubstituteFactor.cpp:108-121 | every slot of a constructed factor is written, whatever step it is later applied to |
| TangentLift.PointOf | gtdynamics/manifold/ConstraintManifold.cpp:37-45 | what a factor reads at a manifold: its values, and for each variable a matrix that maps coordinates to the variable's part of the tangent vector |
| TangentLift.JacobianFollowsTangents | gtdynamics/manifold/SubstituteFactor.cpp:95-124 | the Jacobian of a constructed factor, applied to a step of the new variables, is the base Jacobian applied to the tangent vectors of the manifolds, for every pruning tolerance |
| TangentLift.BasisRetractorsKeepKeys | gtdynamics/manifold/Retractor.cpp:170-202 | basis retractors whose merit graph and basis have their component's variables keep them, as the transform asks of its retraction, whatever the inner optimizer returns |
| ManifoldProblem.TransformPreservesCost | gtdynamics/manifold/ManifoldOptimizerType1.cpp:166-185 | for every assignment, every factor of the rewritten graph can be evaluated exactly if no cost lists a moving variable twice; then rewritten error plus the constant errors of the dropped factors is the original cost at the base values |
| ManifoldProblem.OneCostPreserved | gtdynamics/manifold/ManifoldOptimizerType1.cpp:167-184 | the same for one factor, in its three cases: untouched, rewritten, dropped |
| ManifoldProblem.MovesDistinctIffEvaluable | gtdynamics/manifold/ManifoldOptimizerType1.cpp:167-184 | a rewritten cost never throws exactly if the original lists no variable twice whose manifold can move; kept and dropped costs list none |
| ManifoldProblem.CostsInOrder | gtdynamics/manifold/ManifoldOptimizerType1.cpp:166-185 | the rewritten costs keep the order of the costs |
| ManifoldProblem.RewrittenSeesBaseValues | gtdynamics/manifold/SubstituteFactor.cpp:84-92 | a rewritten factor evaluates its base factor at the base values |
| ManifoldProblem.DroppedSeesFixedValues | gtdynamics/manifold/ManifoldOptimizerType1.cpp:179-181 | a dropped factor's error does not depend on the assignment |
| ManifoldOptimizer.ManifoldOptProblem.ConstructManifoldValues | gtdynamics/manifold/ManifoldOptimizerType1.cpp:102-124 | one manifold per component under its first key, free or fixed by dimension; fails exactly when a component variable has no value |
| ManifoldOptimizer.ManifoldOptProblem.ConstructUnconstrainedValues | gtdynamics/manifold/ManifoldOptimizerType1.cpp:127-144 | the unconstrained keys are the cost keys outside all components; their insertion never meets a manifold key |
| ManifoldOptimizer.ManifoldOptProblem.ConstructGraph | gtdynamics/manifold/ManifoldOptimizerType1.cpp:147-186 | the graph is the rewriting of the costs; building it fails exactly when some cost that is not dropped lists a fully constrained variable twice |
| ManifoldOptimizer.BuildHome | gtdynamics/manifold/ManifoldOptimizerType1.cpp:151-164 | every base key of a manifold is mapped to that manifold's key |
| ManifoldOptimizer.OneMoreVariable | gtdynamics/manifold/ConstraintManifold.h:79 | the embedding dimension of no variables is zero, and each variable adds its own dimension, in any order |
| ManifoldOptimizer.OneMoreConstraint | gtdynamics/manifold/ConstraintManifold.h:80 | the constraint dimension of no constraints is zero, and each constraint adds its own |
| ManifoldOptimizer.PointsAreTheComponents | gtdynamics/manifold/ManifoldOptimizerType1.cpp:105-123 | the manifolds are exactly those of the components, under pairwise different keys |
| ManifoldOptimizer.ProblemTransform | gtdynamics/manifold/ManifoldOptimizerType1.cpp:83-91 | the whole transform; fails exactly when a variable of a cost or constraint has no initial value, or a cost that is not dropped lists a fully constrained variable twice |
| ManifoldOptimizer.ComponentsArePlaced | gtdynamics/manifold/ManifoldOptimizerType1.cpp:102-124 | each component is in the problem under its first key: as a variable if and only if its variables' dimensions sum to more than its constraints', with the difference as dimension, and else as fixed with dimension zero; its values are the initial ones, retracted exactly if asked for, with the recover Jacobians at these values; there are no other manifolds |
| ManifoldOptimizer.CircleCanMove | gtdynamics/manifold/ConstraintManifold.h:79-82 | an instance: one constraint on two variables, all of dimension one, leaves dimension one |
| ManifoldOptimizer.TransformGivesLayout | gtdynamics/manifold/ManifoldOptimizerType1.cpp:102-144 | manifold keys never coincide with unconstrained keys, and each manifold holds exactly the variables mapped to it |
| ManifoldOptimizer.InitialValuesFit | gtdynamics/manifold/ManifoldOptimizerType1.cpp:94-99 | the transform's initial values are an assignment of the right shape |
| ManifoldOptimizer.TransformedProblemHasSameCost | gtdynamics/manifold/ManifoldOptimizerType1.cpp:83-186 | for every problem and every assignment of the transformed problem: its graph can be evaluated exactly if no cost lists a moving variable twice, and then its error plus the dropped costs is the original cost at the base values |
| ManifoldOptimizer.SameOrder | gtdynamics/manifold/ManifoldOptimizerType1.cpp:83-186 | where the graph can be evaluated, one assignment is at least as good as another in the transformed problem exactly when its base values are in the original |
| ManifoldOptimizer.BaseValues | gtdynamics/manifold/ManifoldOptimizerType1.cpp:50-71 | its three groups of insertions never collide if the final retraction keeps the variables of each manifold it is given; every variable of a fixed manifold has the manifold's value, every unconstrained one its own, and every variable of a free manifold the manifold's value, finally retracted exactly if asked for; without final retraction the result is the point at which the cost is preserved |
| ManifoldOptimizer.AnswerCoversTheProblem | gtdynamics/manifold/ManifoldOptimizerType1.cpp:50-71 | the answer's variables are exactly those of the costs and constraints |
| ManifoldRun.Optimize | gtdynamics/manifold/ManifoldOptimizerType1.cpp:25-47 | the whole run: the answer has exactly the problem's variables and is read from what the optimizer returned; if the optimizer ends no worse than it starts, the answer costs, without a final retraction, no more by the original costs than the start, which is the initial values if they are not retracted |
| ManifoldRun.StartsAtInitialValues | gtdynamics/manifold/ManifoldOptimizerType1.cpp:94-144 | the initial assignment of the transformed problem stands for the problem's initial values, each component's retracted if they are to be |
| ConstVar.FreeKeysMatchIndices | gtdynamics/factors/ConstVarFactor.cpp:7-41 | new keys and base positions correspond, positions increase, and a position is listed exactly when its key is free |
| ConstVar.FreeKeysAreTheOthers | gtdynamics/factors/ConstVarFactor.cpp:7-16 | the new keys are the keys that are not fixed |
| ConstVar.ConstVarFactor.constructor | gtdynamics/factors/ConstVarFactor.cpp:7-41 | the split of the keys, with no value stored yet |
| ConstVar.ConstVarFactor.SetFixedValues | gtdynamics/factors/ConstVarFactor.cpp:44-54 | known fixed keys are overwritten or added, all others ignored, earlier values kept |
| ConstVar.ConstVarFactor.UnwhitenedError | gtdynamics/factors/ConstVarFactor.cpp:57-77 | exactly when evaluation fails; otherwise the base error at the joint assignment, and slot i is the base slot at position i of the index |
| ConstVar.ConstVarGraph | gtdynamics/factors/ConstVarFactor.cpp:79-107 | the partially evaluated graph and the list of its factors with constants |
| ConstVar.ConstVarGraphAt | gtdynamics/factors/ConstVarFactor.cpp:109-121 | the same with every factor holding the given values |
| ConstVar.SetAllFixedValues | gtdynamics/factors/ConstVarFactor.cpp:117-119 | every listed factor gets its values, also when a factor is listed twice |
| ConstVar.PartialEvaluationIsExact | gtdynamics/factors/ConstVarFactor.cpp:57-107 | for every fixed assignment and every assignment of the rest, the new graph's error plus the dropped factors' errors is the original error at the joint assignment |
| ConstVar.PartialEvaluationKeys | gtdynamics/factors/ConstVarFactor.cpp:79-107 | the new graph mentions exactly the free keys |
| MultiJacobian.MultiJacobian.AddJacobian | gtdynamics/manifold/MultiJacobian.cpp:31-42 | the new map after adding and pruning |
| MultiJacobian.MultiJacobian.AddJacobianChainRule | gtdynamics/manifold/MultiJacobian.cpp:45-50 | the new map after adding every product |
| MultiJacobian.PruningDrift | gtdynamics/manifold/MultiJacobian.cpp:31-42 | after any sequence of additions, each entry differs from the exact sum by at most the tolerance times the number of additions to its key |
| MultiJacobian.NoToleranceNoDrift | gtdynamics/manifold/MultiJacobian.cpp:31-42 | with tolerance zero the entries are the exact sums |
| MultiJacobian.ChainRuleActs | gtdynamics/manifold/MultiJacobian.cpp:45-50 | with tolerance zero, the result acts on a step as the old map plus the relative matrix after the parent's map |
| MultiJacobian.ChainRuleDrift | gtdynamics/manifold/MultiJacobian.cpp:45-50 | the drift bound through the chain rule: the parent's drift times the row's absolute sum, plus one tolerance |
| Triangular.SolveUpperSolves | gtdynamics/manifold/MultiJacobian.cpp:111 | the back-substituted matrix solves the upper triangular system |
| Triangular.ConditionalIffSolved | gtdynamics/manifold/MultiJacobian.cpp:111 | a conditional holds exactly when its frontals are the solved matrix applied to its parents |
| BayesNet.FrontalJacobian | gtdynamics/manifold/MultiJacobian.cpp:117-145 | the loop over a frontal's parents with running positions; a parent looked up without a Jacobian gets an empty one |
| BayesNet.ComputeBayesNetJacobian | gtdynamics/manifold/MultiJacobian.cpp:97-148 | identities for the basis, then the conditionals in reverse, with an empty entry for every unknown parent looked up; never fails on well-formed conditionals |
| BayesNet.FrontalActs | gtdynamics/manifold/MultiJacobian.cpp:120-144 | a frontal's map applied to a basis step is its rows of the dependence matrix applied to the stacked steps of its parents |
| BayesNet.BackSubstitutionIsSound | gtdynamics/manifold/MultiJacobian.cpp:97-148 | the steps computed from any basis step satisfy every conditional and move the basis as told |
| BayesNet.BackSubstitutionIsComplete | gtdynamics/manifold/MultiJacobian.cpp:97-148 | any step that satisfies all conditionals is the one computed from its own basis part |
| BayesNet.WalkOnBasis | gtdynamics/manifold/MultiJacobian.cpp:110-147 | for every tolerance and every order of conditionals: the Jacobians mention basis variables only, and exactly the known variables, the frontals and the parents looked up have one |
| BayesNet.OrderedMentions | gtdynamics/manifold/MultiJacobian.cpp:110-147 | in elimination order every parent is known when it is looked up, so no empty entry appears |
| BayesNet.WalkKeepsBasis | gtdynamics/manifold/MultiJacobian.cpp:103-147 | a variable that is no frontal keeps its Jacobian, so the basis keeps its identities |
| WalkDrift.PrunedWalkDrift | gtdynamics/manifold/MultiJacobian.cpp:31-148 | for every net in any order and every tolerance, each entry of the pruned walk differs from the unpruned one by at most the tolerance times a number the net alone determines: each parent adds its own number times the largest absolute row sum of its block of the dependence, and one |
| WalkDrift.PrunedJacobiansDrift | gtdynamics/manifold/TspaceBasis.cpp:268-276 | so each entry of a tangent basis is that near to the one whose tangent vectors satisfy the linearized constraints |
| TangentBasis.FixedVarBasis.constructor | gtdynamics/manifold/TspaceBasis.cpp:220-253 | locations are running offsets; the Jacobians are built at once exactly when asked for, and only then must the elimination determine all variables at these values |
| TangentBasis.LocationsInOrder | gtdynamics/manifold/TspaceBasis.cpp:225-231 | the first basis variable's coordinates come first, and each next one's right after |
| TangentBasis.FixedVarBasis.WithNewValues | gtdynamics/manifold/TspaceBasis.cpp:256-265 | the same shape, and whatever is built belongs to the new values |
| TangentBasis.FixedVarBasis.Construct | gtdynamics/manifold/TspaceBasis.cpp:268-276 | where the elimination determines all variables, the Jacobians become those at the given values |
| TangentBasis.FixedVarBasis.ComputeTangentVector | gtdynamics/manifold/TspaceBasis.cpp:279-298 | the loops compute the tangent vector of the coordinates |
| TangentBasis.FixedVarBasis.RecoverJacobian | gtdynamics/manifold/TspaceBasis.cpp:301-309 | applied to any coordinates, the placed blocks give the variable's own sum of block products |
| TangentBasis.FixedVarBasis.LocalCoordinates | gtdynamics/manifold/TspaceBasis.cpp:312-320 | the coordinates are the stacked chart differences of the basis variables |
| TangentBasis.TangentVectorsAreTangent | gtdynamics/manifold/TspaceBasis.cpp:268-309 | without pruning, at every point where the elimination determines all variables, every tangent vector satisfies the linearized constraints and moves the basis by its segments |
| TangentBasis.RecoveredAgreesWithStep | gtdynamics/manifold/TspaceBasis.cpp:279-309 | whatever the pruning tolerance, every variable's recovered Jacobian applied to coordinates is its part of the tangent vector |
| TangentBasis.EveryTangentHasCoordinates | gtdynamics/manifold/TspaceBasis.cpp:268-298 | at such a point, every step that satisfies the linearized constraints is the tangent vector of its basis part |
| TangentBasis.CircleBasis | gtdynamics/manifold/TspaceBasis.cpp:268-276 | an instance: x is a basis of the unit circle exactly at the points with y not zero |
| Retraction.BasisRetractor.constructor | gtdynamics/manifold/Retractor.cpp:133-167 | the optimizer's graph is the merit graph with the basis held constant |
| Retraction.BasisRetractor.RetractConstraints | gtdynamics/manifold/Retractor.cpp:170-202 | exactly when it succeeds; then the result has the component's variables, the basis is untouched, and both at the answer and where it starts the optimizer sees the merit error up to one constant |
| Retraction.ConstraintManifold.MakeSureBasisConstructed | gtdynamics/manifold/ConstraintManifold.h:155-159 | the lazily built basis belongs to the manifold's values |
| Retraction.ConstraintManifold.Retract | gtdynamics/manifold/ConstraintManifold.cpp:48-67 | at every point where the basis determines all variables it never fails, whatever the inner optimizer returns; the new point has the same variables and its basis variables moved by their segments; the inner optimizer holds the moved basis and starts from every other variable moved by its tangent step, and its answer is the new point's |
| Retraction.ConstraintManifold.RetractMoved | gtdynamics/manifold/Retractor.h:95-117 | for any steps: what the inner optimizer holds and starts from, and that its answer and the moved basis are the result |
| Retraction.StepIsTangent | gtdynamics/manifold/ConstraintManifold.cpp:48-67 | without pruning, the steps by which a point is moved before it is retracted satisfy the constraints linearized there |
| Retraction.ConstraintManifold.LocalCoordinates | gtdynamics/manifold/ConstraintManifold.cpp:70-85 | the coordinates are the stacked differences of the basis variables |
| Retraction.ConstraintManifold.Recover | gtdynamics/manifold/ConstraintManifold.cpp:37-45 | the variable's value and its Jacobian in manifold coordinates, building the basis first |
| Retraction.LocalUndoesRetractIff | gtdynamics/manifold/TspaceBasis.cpp:279-320 | local coordinates give back the step exactly when each basis variable's own chart does |
| Retraction.LocalUndoesRetract | gtdynamics/manifold/ConstraintManifold.cpp:48-85 | local coordinates undo retraction for every step whose segments lie where the charts round-trip |
| Retraction.RetractThenLocal | gtdynamics/manifold/ConstraintManifold.cpp:48-85 | through the mutable objects and whatever the inner optimizer returns: the coordinates come back exactly if every basis variable's own chart undoes its own segment |
| Retraction.VectorChartRoundTrips | gtdynamics/manifold/TspaceBasis.cpp:316 | vector-valued variables round-trip for every step |
| Retraction.AngleChartRoundTripsIff | gtdynamics/manifold/TspaceBasis.cpp:312-320 | an instance of a chart that wraps, angles about one axis in turns: it round-trips exactly for steps of at least minus half a turn and less than half a turn |
| DynamicsRetraction.FactorLevel | gtdynamics/manifold/Retractor.cpp:289-298 | a factor's level bounds the levels of its keys and is one of them |
| DynamicsRetraction.ClassifyKeys | gtdynamics/manifold/Retractor.cpp:239-250 | the keys are sorted into exactly the three levels |
| DynamicsRetraction.SplitFactors | gtdynamics/manifold/Retractor.cpp:286-306 | each graph gets the factors of its level, in order |
| DynamicsRetraction.LevelInOrder | gtdynamics/manifold/Retractor.cpp:286-306 | the factors of a level keep their order |
| DynamicsRetraction.LevelsAddUp | gtdynamics/manifold/Retractor.cpp:286-306 | every factor is in exactly one of the three graphs, so their errors add up |
| DynamicsRetraction.NothingDropped | gtdynamics/manifold/Retractor.cpp:308-310 | holding the lower levels constant drops no factor |
| DynamicsRetraction.UpdatePriors | gtdynamics/manifold/Retractor.cpp:335-339 | the graph left behind in every case: the tail erased, then a prior on the given value of each basis key in order, up to the first key without a value, which is reported |
| DynamicsRetraction.AddPriors | gtdynamics/manifold/GeneralPriorFactor.h:107-114 | priors are appended key by key, up to the first key without a value |
| DynamicsRetraction.ShapeKept | gtdynamics/manifold/Retractor.cpp:335-339 | a graph that is its prefix followed by one prior per basis key stays so exactly when every basis key has a value |
| DynamicsRetraction.FailureCostsFactors | gtdynamics/manifold/Retractor.cpp:335-339 | after an update that stopped early the next one erases, from the end of the prefix, as many factors as keys were left without a prior |
| DynamicsRetraction.FailureLosesTheFactor | gtdynamics/manifold/Retractor.cpp:335-339 | a concrete input on which the second update erases the only constraint factor |
| DynamicsRetraction.ShapeOverRun | gtdynamics/manifold/Retractor.cpp:335-339 | over any run of updates the shape survives exactly when every update had values for all basis keys; once lost it never returns |
| DynamicsRetraction.ConstantsAreMentioned | gtdynamics/manifold/Retractor.cpp:308-310 | the variables held constant at a level are exactly the lower-level variables its factors mention |
| DynamicsRetraction.DynamicsRetractor.constructor | gtdynamics/manifold/Retractor.cpp:254-322 | the prior-free graphs are the levels, lower levels held constant; the graphs with priors share their factors |
| DynamicsRetraction.MakeRetractor | gtdynamics/manifold/Retractor.cpp:270-282 | fails exactly when basis keys are to be used and none are given; otherwise the basis of the later levels is the given keys or all keys, by level |
| DynamicsRetraction.DynamicsRetractor.SolveLevel | gtdynamics/manifold/Retractor.cpp:347-351 | one level once its priors are updated: exactly when it fails; the result is optimized without priors from what is optimized with them, and that from the given values |
| DynamicsRetraction.DynamicsRetractor.RetractConstraints | gtdynamics/manifold/Retractor.cpp:342-381 | for every outcome, the exact graphs with priors left behind; from graphs in shape it succeeds exactly when every solved variable has an initial value and every velocity held at the last level was solved before, and leaves them in shape exactly when the basis keys of the levels it reaches have values; on success no insertion collides, the merit error of the combined values is the sum of the three prior-free graphs' errors, and the variables are the component's exactly when its velocities and the basis are covered; each level's values come from its prior-free solve, with the earlier levels at the values just found, and that from the solve with the updated priors |
| DynamicsRetraction.DynamicsRetractor.FromGraphsInPlace | gtdynamics/manifold/Retractor.cpp:335-381 | from graphs in shape only missing values make a level fail; the condition under which all three graphs keep their shape |
| DynamicsRetraction.DynamicsRetractor.ShapeOverCalls | gtdynamics/manifold/Retractor.cpp:335-381 | over any run of calls of retraction the three graphs are in shape afterwards exactly if every call had the values its priors needed; otherwise some graph is too short for good |
| DynamicsRetraction.DynamicsRetractor.AnswerKeys | gtdynamics/manifold/Retractor.cpp:342-381 | the answer has exactly the component's variables if and only if every velocity is in a velocity-level factor or the basis and the basis lies within the component; then no held velocity is missing |
| DynamicsRetraction.UncoveredVelocityFails | gtdynamics/manifold/Retractor.cpp:367-375 | a concrete component on which retraction fails for all values: one factor on a velocity and an acceleration, with an empty basis |
| StagedRetraction.RetractionDescends | gtdynamics/manifold/Retractor.cpp:342-377 | from graphs in shape, if no solve ends worse than it starts, every level's own factors have at the answer at most the error they have at the given values, with the earlier levels at their solved values |
| StagedRetraction.RetractionIsMinimal | gtdynamics/manifold/Retractor.cpp:342-377 | if solves find minima, every level's own factors are at a minimum over the level's variables, given the earlier levels, whenever they have one |
| StagedRetraction.UpdatedError | gtdynamics/manifold/Retractor.cpp:335-339 | a graph in shape with updated priors costs its level's factors plus what moving the basis away from the given values costs |
| StagedRetraction.StagesByLabel | gtdynamics/manifold/Retractor.cpp:204-212 | the first level solves for exactly the variables labelled p or q, the second for variables labelled V or v, the last for others |
| LieGroups.HeisenbergIsLieGroup | gtdynamics/universal_robot/Joint.cpp:37-65 | the laws of poses and twists used here hold in a concrete noncommutative group |
| Joints.MadeJointsAgree | gtdynamics/universal_robot/Joint.cpp:30-41 | the constructor's two screw axes describe one motion seen from the two links |
| Joints.MadeJointRestPose | gtdynamics/universal_robot/Joint.cpp:37-38 | the rest pose of child in parent does not depend on the joint frame |
| Joints.MadeJointPose | gtdynamics/universal_robot/Joint.cpp:37-57 | at every angle the child stands in the parent at the inverse of the parent's rest pose, times the motion about the joint axis in the base frame, times the child's rest pose |
| Joints.MadeJointAxis | gtdynamics/universal_robot/Joint.cpp:40 | the child's screw axis is the joint's, seen from the child at rest |
| Joints.AxesAgreeAtEveryAngle | gtdynamics/universal_robot/Joint.cpp:39-65 | the parent axis is minus the adjoint of the child axis at every joint angle |
| Joints.ParentUndoesChild | gtdynamics/universal_robot/Joint.h:410-423 | parentPoseTwist undoes childPoseTwist for every pose, twist, angle and velocity |
| Joints.ChildUndoesParent | gtdynamics/universal_robot/Joint.h:410-423 | and conversely |
| Joints.CrossingBack | gtdynamics/universal_robot/Joint.h:426-431 | crossing a joint and crossing it back is the identity from either side |
| Joints.CrossingIsJointMotion | gtdynamics/universal_robot/Joint.h:410-431 | for a joint as constructed, from either side: the other link's pose and twist are computed exactly if the two links stand as at rest but for the motion about the joint axis and the child moves in the world as the parent does and about the axis besides |
| Joints.TransformsAgree | gtdynamics/universal_robot/Joint.h:318-332 | poseOf, transformTwistTo and otherPoseTwist agree |
| Chains.Compose | gtdynamics/dynamics/Chain.cpp:38-47 | the loop computes the monoid product |
| Chains.ThenIsAssociative | gtdynamics/dynamics/Chain.cpp:19-36 | operator* is associative |
| Chains.EmptyChainIsIdentity | gtdynamics/dynamics/Chain.cpp:19-36 | Chain() is its identity on both sides |
| Chains.ComposedSplits | gtdynamics/dynamics/Chain.cpp:38-47 | composing a concatenation composes the compositions |
| Chains.Poe | gtdynamics/dynamics/Chain.cpp:49-88 | fails exactly on a size mismatch; the pose is the same on both paths; column j of the Jacobian is the adjoint of the inverse of everything after joint j, including the tool |
| Chains.EndPoseOfThen | gtdynamics/dynamics/Chain.cpp:19-73 | the end pose of a product of chains is the product of their end poses |
| Chains.JacobianOfThen | gtdynamics/dynamics/Chain.cpp:73-86 | the Jacobian of a product: the first part's seen past the second, then the second's |
| Chains.ToolSeesTheTwist | gtdynamics/dynamics/Chain.cpp:73-86 | with a tool, the Jacobian times the joint velocities is the end's twist seen from the tool |
| Chains.CompositionPreservesKinematics | gtdynamics/dynamics/Chain.cpp:19-88 | for any number of joints, the composed chain's end pose is where crossing the joints one by one leads, and its Jacobian times the joint velocities is the twist that crossing them produces |
| Chains.BuildChain | gtdynamics/dynamics/ChainDynamicsGraph.cpp:59-84 | the three-joint instance, at all angles |
| ForwardKinematics.Robot.FindRootLink | gtdynamics/universal_robot/Robot.cpp:149-174 | the named link, else the last fixed link in name order; an error exactly when there is none |
| ForwardKinematics.Robot.InsertFixedLinks | gtdynamics/universal_robot/Robot.cpp:177-185 | fails exactly when a fixed link already has a pose or twist |
| ForwardKinematics.InsertZeroDefaults | gtdynamics/universal_robot/Robot.cpp:189-195 | missing angle and velocity become zero, nothing else changes |
| ForwardKinematics.Robot.StartIs | gtdynamics/universal_robot/Robot.cpp:176-235 | what the search starts from has these properties and nothing else has: it extends what is given, fixed links stand at their fixed poses at rest, the root is at the origin or at rest only where it is neither given nor fixed, and nothing else is placed |
| ForwardKinematics.Robot.InsertWithCheck | gtdynamics/universal_robot/Robot.cpp:200-221 | places an unplaced link, checks a placed one, with every error case |
| ForwardKinematics.Robot.CrossJoint | gtdynamics/universal_robot/Robot.cpp:253-259 | one joint keeps the search invariant and afterwards relates its two links |
| ForwardKinematics.Robot.Search | gtdynamics/universal_robot/Robot.cpp:240-264 | the whole search keeps the invariant; its loop bound is never reached |
| ForwardKinematics.Robot.ReachIsExact | gtdynamics/universal_robot/Robot.cpp:240-264 | at the end, a link has a pose exactly when it had one at the start or is reachable over links that had none; the links followed are exactly the root and the newly placed |
| ForwardKinematics.Robot.SearchSolves | gtdynamics/universal_robot/Robot.cpp:240-266 | at the end, every joint of a followed link relates its two links, and nothing known has changed |
| ForwardKinematics.Robot.ForwardKinematics | gtdynamics/universal_robot/Robot.cpp:223-267 | for the whole call from its inputs: poses exactly for the links known, fixed, root or reachable over links that had none; every joint of a followed link relates its two links; nothing known changes; on a robot without loops of which only the root is given, it never fails; on any robot, with exact comparison, it succeeds exactly when no fixed link is given, no reachable link is given by half, and some configuration that extends what is known satisfies all those joints; on success the answer extends what was given, fixed links stand at their fixed poses at rest, and the root has the identity pose or zero twist only where it is neither given nor fixed |
| ForwardKinematics.Robot.JointTowardGoal | gtdynamics/universal_robot/Robot.cpp:200-221 | if some configuration satisfies the joints, a link placed or met again stands where that configuration has it, so no check fails |
| ForwardKinematics.Robot.SolutionIsForced | gtdynamics/universal_robot/Robot.cpp:240-266 | every configuration that extends what is known and satisfies the followed links' joints has the answer's poses and twists |
| ForwardKinematics.Robot.JointWasUsed | gtdynamics/universal_robot/Robot.cpp:250-259 | without loops, a joint between two visited links is the last one on the route to one of them |
| ForwardKinematics.Robot.MetAgain | gtdynamics/universal_robot/Robot.cpp:212-218 | without loops, a link met again is met exactly where it stands, so the consistency check passes |
| ForwardKinematics.TwoLinksAreATree | gtdynamics/universal_robot/Robot.cpp:223-267 | a concrete robot meets the conditions under which forward kinematics cannot fail |
| LevenbergMarquardt.AcceptedIffCostFalls | gtdynamics/optimizer/MutableLMOptimizer.cpp:161-212 | a step is accepted exactly when the predicted decrease is real and the cost falls by more than the required share of it |
| LevenbergMarquardt.VerdictIs | gtdynamics/optimizer/MutableLMOptimizer.cpp:161-264 | a try accepts a real enough decrease, gives up when the model does not increase and the cost hardly changes, and else raises the damping; the fidelity is the share of the predicted decrease that was found |
| LevenbergMarquardt.MutableLMOptimizer.TryLambda | gtdynamics/optimizer/MutableLMOptimizer.cpp:126-265 | the new state in each of the three outcomes, by what the proposal does to model and cost, and whether the search for a damping is over |
| LevenbergMarquardt.MutableLMOptimizer.Iterate | gtdynamics/optimizer/MutableLMOptimizer.cpp:268-307 | terminates; the cached error never rises and strictly falls on acceptance; afterwards it is right exactly when it was right before or a step was accepted; at most n tries when n raises would lift the damping to its bound; the states on the way are the ones a chain of tries leads through, none but the last of which ends the search |
| LevenbergMarquardt.EnoughTriesReach | gtdynamics/optimizer/MutableLMOptimizer.cpp:240-256 | a computable number of raises that suffices |
| LevenbergMarquardt.MultiplyingIsAdmissible | gtdynamics/optimizer/MutableLMOptimizer.cpp:218-256 | the assumptions on the damping functions hold for multiplying by the stored factor, which is kept or doubled, if the damping stays positive when lowered; the lower bound may be zero |
| LevenbergMarquardt.MutableLMOptimizer.SetGraph | gtdynamics/optimizer/MutableLMOptimizer.cpp:326-329 | the state is kept, so the cached error is right exactly when the new graph has the old graph's error there |
| LevenbergMarquardt.MutableLMOptimizer.SetValues | gtdynamics/optimizer/MutableLMOptimizer.cpp:339-350 | cached error and values agree again, damping starts afresh |
| LevenbergMarquardt.MutableLMOptimizer.WithoutValues | gtdynamics/optimizer/MutableLMOptimizer.cpp:310-323 | without values the cached error is zero, right only if the graph's error there is |
| LevenbergMarquardt.MutableLMOptimizer.Optimize | gtdynamics/manifold/Retractor.cpp:347-351 | values set and then iterated, round after round, until the stopping rule or the round limit says so and no sooner; they end no worse than they started, with the right cached error |
| AugmentedLagrangian.FactorIsPenalty | gtdynamics/optimizer/EqualityConstraint-inl.h:21-30 | the created factor's error is half the penalty times the squared norm of the scaled, biased violation |
| AugmentedLagrangian.PenaltyIsLagrangian | gtdynamics/optimizer/AugmentedLagrangianOptimizer.cpp:70-71 | with the multipliers over the penalty as bias, that is the augmented Lagrangian term plus a constant |
| AugmentedLagrangian.MeritIsLagrangian | gtdynamics/optimizer/AugmentedLagrangianOptimizer.cpp:63-72 | the error of the graph optimized in a round is the augmented Lagrangian, up to a constant that penalty and multipliers determine |
| AugmentedLagrangian.IteratesMinimizeLagrangian | gtdynamics/optimizer/AugmentedLagrangianOptimizer.cpp:62-77 | in every round of a run, what the optimizer is given is the augmented Lagrangian of the round's penalty and multipliers, and it starts from the last iterate |
| AugmentedLagrangian.ExactIteratesAreMinima | gtdynamics/optimizer/AugmentedLagrangianOptimizer.cpp:62-83 | with an optimizer that finds minima, every iterate is a minimum of its round's augmented Lagrangian, if it has one |
| AugmentedLagrangian.Feasible | gtdynamics/optimizer/EqualityConstraint-inl.h:33-41 | feasible exactly when no entry of the scaled violation exceeds one |
| AugmentedLagrangian.ToleranceScaledViolation | gtdynamics/optimizer/EqualityConstraint-inl.h:50-59 | the violation divided entry by entry |
| AugmentedLagrangian.ComparesNorms | gtdynamics/optimizer/AugmentedLagrangianOptimizer.cpp:42 | comparing squared norms is the original's comparison of norms |
| AugmentedLagrangian.TotalIsSquaredNorm | gtdynamics/optimizer/AugmentedLagrangianOptimizer.cpp:34-38 | the total is the squared norm of all violations, each divided by its tolerance |
| AugmentedLagrangian.UpdateParameters | gtdynamics/optimizer/AugmentedLagrangianOptimizer.cpp:20-45 | the multipliers in place and the next penalty |
| AugmentedLagrangian.Optimize | gtdynamics/optimizer/AugmentedLagrangianOptimizer.cpp:47-93 | the loop, which minimizes the costs plus the errors of the created factors, produces a run, and reports its iterates and penalties |
| AugmentedLagrangian.MultiplierIsWeightedSum | gtdynamics/optimizer/AugmentedLagrangianOptimizer.cpp:30-32 | after n rounds a multiplier is the sum of penalty times violation over the rounds |
| AugmentedLagrangian.PenaltyIsPowerOfTwo | gtdynamics/optimizer/AugmentedLagrangianOptimizer.cpp:41-44 | the penalty is two to the number of doublings |
| AugmentedLagrangian.PenaltyNeverFalls | gtdynamics/optimizer/AugmentedLagrangianOptimizer.cpp:41-44 | the penalty never decreases over a run |
| AugmentedLagrangian.ViolationFallsGeometrically | gtdynamics/optimizer/AugmentedLagrangianOptimizer.cpp:34-44 | over k rounds that leave the penalty unchanged, the squared violation falls by more than sixteen to the k |
| AugmentedLagrangian.NormFallsGeometrically | gtdynamics/optimizer/AugmentedLagrangianOptimizer.cpp:34-44 | in norms, by more than four to the k |
| MultiPhase.AddSlices | gtdynamics/dynamics/DynamicsGraph.cpp:377-395 | for every list of step counts, part k of the graph is slice k: dynamics of its phase, or the transition that ends the phase |
| MultiPhase.AddCollocations | gtdynamics/dynamics/DynamicsGraph.cpp:397-403 | collocation k belongs to the phase whose interval contains k |
| MultiPhase.MultiPhaseTrajectoryFG | gtdynamics/dynamics/DynamicsGraph.cpp:361-405 | the whole graph: all slices, then all collocations |
| MultiPhase.LineUpIffPositive | gtdynamics/dynamics/DynamicsGraph.cpp:380-403 | slices and collocations line up exactly when every phase has at least one step; then both are counted by the prefix sums |
| MultiPhase.EmptyPhasesAreTheGap | gtdynamics/dynamics/DynamicsGraph.cpp:380-403 | for any number of leading phases, the slices exceed the collocations by exactly the number of phases without steps |
| MultiPhase.SlicesAreInOrder | gtdynamics/utils/Trajectory.cpp:50-58 | when every phase has a step, slice k of the trajectory's graph is about time k, in the one phase whose time range contains k, and transitions sit at the prefix sums |
| MultiPhase.CollocationsAreInOrder | gtdynamics/utils/Trajectory.cpp:50-58 | and collocation k is in the phase whose prefix-sum interval contains k |
| MultiPhase.MultiPhaseFactorGraph | gtdynamics/utils/Trajectory.cpp:50-58 | the trajectory's graph is the multi-phase graph with its own transitions |
| MultiPhase.FinalTimeSteps | gtdynamics/utils/Trajectory.h:149-158 | the running sums are the prefix sums |
| MultiPhase.GetStartTimeStep | gtdynamics/utils/Trajectory.h:172-177 | the first slice of a phase |
| MultiPhase.GetEndTimeStep | gtdynamics/utils/Trajectory.h:184 | the last slice of a phase |
| MultiPhase.GetTransitionGraphs | gtdynamics/utils/Trajectory.cpp:38-48 | one transition per pair of consecutive phases, at the first one's last slice |
| MultiPhase.TrajectoryFG | gtdynamics/dynamics/DynamicsGraph.cpp:346-359 | the one-phase graph alternates slices and collocations |

## Findings

What the proofs show the code not to do, with the exact condition.

- A dynamics retraction that fails while updating priors truncates the graph it was updating; the next call erases real factors in place of the missing priors, silently, and nothing restores them (`DynamicsRetraction.FailureCostsFactors`, `FailureLosesTheFactor`). The graphs survive a call exactly under `DynamicsRetraction.DynamicsRetractor.PriorsSurvive`, and a run of calls exactly when each of them met it (`ShapeOverCalls`).
- A velocity that only last-level factors mention and that is not in the basis makes every dynamics retraction fail; the exact condition is `DynamicsRetraction.DynamicsRetractor.VelocitiesCovered`, and `DynamicsRetraction.UncoveredVelocityFails` is an input.
- Local coordinates undo retraction exactly where the chart of each basis variable undoes its own step (`Retraction.RetractThenLocal`). For angles, which wrap, that is from minus half a turn up to but not including half a turn (`Retraction.AngleChartRoundTripsIff`). GTSAM's rotation and pose charts are not part of this model.
- A factor may be rewritten without error and then fail at every evaluation: exactly when it lists a variable twice that moves with a manifold (`Substitute.UnwhitenedError`); `Substitute.RepeatedMovingKeyFails` is an input, the transformed problem can be evaluated, with the original cost, exactly where no cost does this (`ManifoldProblem.TransformPreservesCost`).
- Replacing the optimizer's graph leaves the cached error stale unless both graphs have the same error there; `LevenbergMarquardt.StaleErrorExists` gives an input, and only an accepted step repairs it (`LevenbergMarquardt.MutableLMOptimizer.Iterate`).
- A phase without steps gets a slice but no collocation (`MultiPhase.EmptyPhasesAreTheGap`; `MultiPhase.EmptyPhaseLeavesGap` is an instance).

## Left out

- GTSAM and Eigen: linear solves, QR, noise models and orderings are arbitrary functions; elimination is a given Bayes net. Where it is used, at the current values, its R must be invertible and upper triangular and its parents basis variables or frontals of later conditionals (`TangentBasis.GoodElimination`).
- Floating point: rounding is not modelled. The tolerances 1e-8 (pruning) and 1e-4 (consistency of poses and twists) are parameters.
- MatrixBasis, SparseMatrixBasis, the projection and unconstrained retractors, and the ELIMINATION basis type: their results come from hidden libraries, or they have no branch in the factory.
- Retraction.BasisRetractor.RetractConstraints: does not model the recompute branch (gtdynamics/manifold/Retractor.cpp:184-195), which optimizes the basis variables too, so the round trip is not promised there.
- ManifoldOptimizer.ProblemTransform: assumes that retraction keeps the variables of each component of the constraints (`TangentLift.BasisRetractorsKeepKeys` for BasisRetractor; DynamicsRetractor does so exactly under `CoversMerit`).
- Linearize.ConstructedFactorLinearizes: assumes that the base factor lists no key twice. With a repeated key the original sizes the list of base blocks by the number of distinct keys (gtdynamics/manifold/SubstituteFactor.cpp:98), so the base factor has too few slots to write to, and the position index keeps the last position only.
- TangentBasis.FixedVarBasis.Construct: what the elimination does at a point where the basis does not determine all variables is not part of this model.
- TangentBasis.FixedVarBasis.constructor: does not model a repeated basis key, a basis key without a value or a basis of the wrong dimension.
- Retraction.ConstraintManifold.Retract: only from points where the basis determines all variables; a basis that is always built at once needs the same of the new point.
- Retraction.ConstraintManifold.constructor: only stores its fields; the dimension rule is in `ManifoldOptimizer.MakePoint`.
- DynamicsRetraction.DynamicsRetractor.constructor: takes the values of the first priors as a parameter; whether a list of basis keys is needed is decided in `DynamicsRetraction.MakeRetractor`.
- DynamicsRetraction.DynamicsRetractor.RetractConstraints: leaves out the printed feasibility check of the result, and requires that each graph with priors has at least as many factors as basis keys; with fewer, which takes earlier failures, the original's erasure is undefined.
- ForwardKinematics.Robot.ForwardKinematics: covers one time step, with links known by their ids, which are unique and have eight bits.
- LevenbergMarquardt.MutableLMOptimizer.Iterate: raising the damping is any function that multiplies it by at least a number above one while the stored factor is at least that number, and minModelFidelity is not negative; logging, ordering parameters and diagonal damping are part of the arbitrary solver.
- AugmentedLagrangian.Optimize: the norm comparison is done on squares and the square root of the penalty is a parameter; inner iteration counts are not reported.
- LevenbergMarquardt.MutableLMOptimizer.Optimize: the driver itself is GTSAM's; any limit on the rounds and any stopping rule on the errors stand for it.
- ManifoldRun.Optimize: the optimizer of the transformed problem is any function that keeps the kinds of the variables; the choice among GTSAM's optimizers and the reported iteration counts are left out.
- The penalty-method optimizer, scalar and factor-based equality constraints: the same formulas as the vector constraint.
- Contact, wrench and goal factors, collocation errors, joint limits, Coriolis terms: loop-free formulas.
- Renaming, reassigning and removing links and joints; inverse kinematics and interpolation; linearDynamicsGraph.
- SDF loading, JSON and file output, printing, timing, benchmarks, examples and wrappers.
