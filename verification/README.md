# A verified model of the sipc compiler's solvers and code generator

`sipc` compiles the teaching language SIP/TIP to LLVM. This project models the parts of it that
work with invariants that the code relies on but does not write down, and proves what they compute.
Line numbers are those of the C++ sources.

1. **Control-flow analysis** (`Cubic*.dfy`): the cubic constraint solver, a mutable graph that is
   solved as constraints arrive and in which cycles are collapsed while a propagation is under way.
   `CubicSolver` holds the class with the fields of the original, node by node; `CubicGraph` has the graph as a value and the
   invariant; `CubicMerge`, `CubicChanges`, `CubicFields`, `CubicSearch` and `CubicRun` what single
   steps do to it; `CubicAsk` what the invariant says about the answer; `CubicCircle` which nodes
   share, and when none is merged; `CubicWalk` and `CubicCalm` what two loops do as written, see below.
   Main results: after any sequence of constraints the reported sets are the least solution of all of
   them; nodes share if and only if they are on one circle of flows; the mutual recursion ends.
2. **Type inference** (`TipTypes`, `UnionFind`, `Unification`, `Unifier`, `Substituter`, `RegularTypes`,
   `TypeInference`, `TopologicalSort`, and the laws in `TypeLaws` and `TypePositions`): unification without an occurs check on a union-find keyed by
   structure, reading types back with mu binders, and the drivers. An equivalence on terms is
   given by the function to its classes. Main results: `solve` succeeds if and only if some
   clash-free, decomposition-closed equivalence holds all constraints, and leaves the least one;
   a type that is read back unfolds, at every depth, to the tree of the solved partition.
3. **Code generation** (`TipLanguage`, `Persistence`, `Ir`, `Emission`, `CodeShape`, `MachineState`,
   `ExprPreservation`, `StmtPreservation`, `Preservation`, `CfgGrowth`, `CfgShape`, `CodeGen`, `Arithmetic`): a fragment with numbers, booleans,
   variables, all binary operators, ternaries, arrays, cells, assignment, update, blocks, `if`, `while`, both
   `for` loops, `output` and `error`. `CodeGen` appends to blocks at an insertion point
   under the l-value flag, as the original does; `Emission` is the same code as a function; `Ir` has the
   block-structured code and a machine that runs it. Main results: the emitted blocks return, print and
   fail exactly as the source says, and keep running while it does; every block has one
   terminator, and each phi has its block's predecessors.
4. **SHA-256** (`Words`, `Sha256`, `PicoSha2`, `Hash256`, and the laws in `Sha256Constants`, `WordBits` and
   `Sha256Laws`): the streaming hasher, against FIPS 180-4, sections
   4.1.2 to 6.2.2. 64-bit words are numbers below 2^64 with wrap-around written out.
5. **Syntax trees** (`PreOrderIterator`, `ASTVisualizer`): the stack-based iterator and the drawing that
   keeps a second stack in step with it.

Where a reference and the code share a definition (a table of constants, an operator, an accessor, the match
of two constructors), a law says what it is without naming it: `Sha256Constants`, `WordBits`, `Sha256Laws`, `Arithmetic`,
`TypeLaws` and `TypePositions` hold these.

Where the code departs from what it is evidently meant to do:

* `findPath` walks back from the target (src/semantic/cfa/CubicSolver.cpp:200-211) and stops looking at the first subset
  that was reached, even if that one is not a step nearer; it then stays where it is, and the walk never ends.
  `CubicWalk.LiteralWalkEnds` says exactly when this cannot happen, in terms of the graph and the distances that the
  search computes: the sets are ordered by the addresses of the nodes, and the walk ends for all addresses if and only
  if every node on a way back from the target, but the source, has no reached subset other than those one step nearer.
  That fails in runs of the solver: after Subseteq(1, 2), Subseteq(0, 1) and Subseteq(0, 2), which
  `CubicSolver.CallThree` asks of a solver, the walk of Subseteq(2, 0) ends just in those orders of the subsets of node 2 that begin with node 0
  (`CubicWalk.FourthCanSpin`). `CubicSearch.FindPath` picks a subset that is one step nearer, and the results
  about the solver are about that choice.
* `propagateNodeChanges` goes over `supsets` while the calls in the loop may edit that set
  (src/semantic/cfa/CubicSolver.cpp:73). `GoThrough` is that loop as written, over the set in use in the order of
  addresses. Insertions do it no harm. A superset of a live node is lost exactly if it was merged away
  (`CubicRun.SupersetLost`), and then there are two ways to go wrong. The element that the loop stands on may be erased, and
  the original has nowhere defined to go on from: after Subseteq(0, 1), Subseteq(2, 1) and Conditional(5, 1, 1, 2), asked in
  `CubicSolver.CallBeforeErasure`, the arrival of function 5 at node 0 does this (`CubicCalm.VisitErases`). Or an element
  still ahead may be folded into one behind, which the loop then never visits: after Subseteq(0, 1), Subseteq(0, 2),
  Subseteq(3, 2) and Conditional(5, 1, 2, 3), asked in `CubicSolver.CallBeforeMissing`, the arrival of function 5 at
  node 0 leaves an answer that breaks Subseteq(0, 2), if the graph nodes of 3, 1 and 2 have rising addresses
  (`CubicCalm.VisitMisses`). In these two cases the model sets the ghost field `strayed`, visits what was missed, and so
  still gets the least solution; the original does not do this. While `strayed` is not set, the steps of the two are the same
  where `findPath` returns, so the least-solution result holds of the original. A call can set it only if the new
  constraint puts two AST nodes on one circle of flows that were on none before, which depends on the least solutions
  before and after only
  (`NewCircle`, in the contracts of the three public operations). Within one propagation, no node dies if and only if
  all circles of flows awake under the new least solution were collapsed before (`CubicCircle.NoneDieIff`).
* The buffered hash never ends when the buffer size is 0 and there is input
  (externals/PicoSHA2/picosha2.h:302-312): `Hash256.BufferedEnds`. A negative size is an allocation error.
* The drawing gives a node that is met twice one number for two vertices
  (src/frontend/prettyprint/ASTVisualizer.cpp:15-20): it is the picture of the tree exactly for distinct nodes.

## Model

| member | source | states |
|---|---|---|
| CubicSolver.CubicSolver.constructor | src/semantic/cfa/CubicSolver.cpp:15-19 | the new solver is valid, knows exactly the given functions and has been asked nothing |
| CubicSolver.CubicSolver.AddEmptyVariableIfNecessary | src/semantic/cfa/CubicSolver.cpp:21-26 | a known node changes nothing; an unknown one gets a graph node not used before, without edges, functions or waiting constraints, and the rest of the graph stays as it was |
| CubicSolver.CubicSolver.AddElementofConstraint | src/semantic/cfa/CubicSolver.cpp:28-34 | the solver is valid again, for the constraints so far and this one; no loop on the way strays unless a new circle of awake flows arises |
| CubicSolver.CubicSolver.AddConditionalConstraint | src/semantic/cfa/CubicSolver.cpp:36-47 | the same for a conditional constraint, whether or not its condition holds already |
| CubicSolver.CubicSolver.AddSubseteqConstraint | src/semantic/cfa/CubicSolver.cpp:49-61 | the same for a subset constraint, also between nodes that share a graph node; circles that its own flow closes with those awake before do not count as new |
| CubicSolver.CubicSolver.GetPossibleFunctionsForExpr | src/semantic/cfa/CubicSolver.cpp:216-228 | reports, without repetition, exactly the functions that the least solution of all constraints so far has at the node |
| CubicSolver.CubicSolver.SetFunctions | src/semantic/cfa/CubicSolver.cpp:222-226 | lists exactly the functions whose bit is set, each once |
| CubicSolver.CubicSolver.PropagateNodeChanges | src/semantic/cfa/CubicSolver.cpp:63-80 | ends (lexicographically in live nodes, pending conditional constraints, rank in the acyclic graph of live and stale edges) with the node settled, even if it was merged away meanwhile, and everything settled before still settled; strays only if a node died |
| CubicSolver.CubicSolver.GoThrough | src/semantic/cfa/CubicSolver.cpp:73-79 | the loop as written, over the set in use by address: it misses members of the set it began with only if they died, or if the element under it was erased; if nothing died, it goes through all of them |
| CubicSolver.CubicSolver.Visit | src/semantic/cfa/CubicSolver.cpp:73-79 | one superset takes the functions of the node and is settled, and counts as visited, whatever was merged on the way; if the node is live after, the superset was erased from its set exactly if it was merged away |
| CubicCalm.CalmIff | src/semantic/cfa/CubicSolver.cpp:63-90 | from a live node with all others settled, propagation takes out no waiting constraint and edits no edge set, both, if and only if no waiting constraint above the node is for a function that can arrive there |
| CubicCalm.VisitErases | src/semantic/cfa/CubicSolver.cpp:73-79 | after three constraints, the arrival of a function makes the visit of a superset fold this superset away, out of the set that is being gone through |
| CubicSolver.CallBeforeErasure | src/semantic/cfa/CubicSolver.cpp:28-61 | a solver that was asked these three constraints is in such a state |
| CubicCalm.VisitMisses | src/semantic/cfa/CubicSolver.cpp:73-79 | after four constraints, the arrival of a function makes a visit fold a superset into another graph node; the loop as written ends without visiting that one exactly if it has a lower address than the superset being visited, and the answer breaks a constraint |
| CubicSolver.CallBeforeMissing | src/semantic/cfa/CubicSolver.cpp:28-61 | a solver that was asked these four constraints is in such a state |
| CubicRun.SupersetLost | src/semantic/cfa/CubicSolver.cpp:139-161 | a superset of a node that is live later on is gone from its set if and only if it was merged away; a node that was merged away loses none |
| CubicRun.PassedAll | src/semantic/cfa/CubicSolver.cpp:73-79 | when nothing is ahead in the set in use, all supersets from the start were visited, or died |
| CubicSolver.CubicSolver.ActivateTriggered | src/semantic/cfa/CubicSolver.cpp:64-72 | every conditional constraint waiting at the node for a function it holds has been taken out and activated |
| CubicSolver.CubicSolver.TakeOut | src/semantic/cfa/CubicSolver.cpp:65-67 | hands out all constraints waiting for one function and clears them before any is activated |
| CubicSolver.CubicSolver.AddBitsFrom | src/semantic/cfa/CubicSolver.cpp:74-76 | the superset holds the union of both sets, and nothing else changes |
| CubicSolver.CubicSolver.ActivateConditionalConstraint | src/semantic/cfa/CubicSolver.cpp:82-90 | the flow is in the graph from now on and all that was settled is settled again, with fewer live nodes or fewer pending constraints below it |
| CubicSolver.CubicSolver.AddEdge | src/semantic/cfa/CubicSolver.cpp:57-58 | the edge is entered in both directions; only edges at its source may now run in a circle |
| CubicSolver.CubicSolver.KillCyclesAt | src/semantic/cfa/CubicSolver.cpp:92-108 | restores acyclicity, and returns the live node that stands for the given one |
| CubicSolver.CubicSolver.MergePath | src/semantic/cfa/CubicSolver.cpp:110-123 | folds the cycle into the node that the path ends in, from that end, so that the invariant holds after each merge but for the node just absorbed |
| CubicSolver.CubicSolver.MergeNodes | src/semantic/cfa/CubicSolver.cpp:125-162 | the graph is the old one with the second node merged into the first: mapping, functions, pending constraints, and both edge sets |
| CubicSearch.PopulateDistances | src/semantic/cfa/CubicSolver.cpp:171-180 | enters every new superset one step further away, and queues exactly these |
| CubicSearch.Search | src/semantic/cfa/CubicSolver.cpp:165-191 | breadth-first: every distance but that of the source is one more than that of a subset, no reached superset is more than one step further, and the search stops at the target or with all that can be reached |
| CubicSearch.FindPath | src/semantic/cfa/CubicSolver.cpp:164-214 | returns a path of live edges from source to target, than which no way along edges is shorter, or else a set closed under edges that has the source and not the target |
| CubicSearch.NoShorter | src/semantic/cfa/CubicSolver.cpp:165-191 | the distance found for the target is at most the length of any way to it |
| CubicSearch.WalkBack | src/semantic/cfa/CubicSolver.cpp:198-212 | the walk over nearer and nearer nodes is a path from target back to source |
| CubicWalk.LiteralWalkEnds | src/semantic/cfa/CubicSolver.cpp:200-211 | for sets ordered by address, the walk as it is written arrives at the source for all addresses of the nodes if and only if every node on a way back from the target, but the source, has no reached subset other than those one step nearer |
| CubicWalk.StuckForever | src/semantic/cfa/CubicSolver.cpp:200-211 | once it does not advance, the literal walk stays there for any number of further rounds |
| CubicWalk.StepAt | src/semantic/cfa/CubicSolver.cpp:202-210 | a round is decided by the first reached subset: it is taken if one step nearer, and otherwise the walk stays |
| CubicWalk.FourthCanSpin | src/semantic/cfa/CubicSolver.cpp:198-212 | in every solver state after three given constraints, the walk of the fourth arrives if and only if the subsets of its target begin with its source; the distances are those that the search computes |
| CubicSolver.CallThree | src/semantic/cfa/CubicSolver.cpp:49-61 | a solver that was asked these three constraints is in such a state |
| CubicAsk.AnswerIsLeast | src/semantic/cfa/CubicSolver.cpp:28-90 | where the invariant holds and every node is settled, the answer satisfies all constraints asked and is contained in every other solution |
| CubicAsk.LeastIsUnique | src/semantic/cfa/CubicSolver.cpp:216-228 | hence the answer does not depend on the order in which the constraints arrived |
| CubicAsk.AnswerHolds | src/semantic/cfa/CubicSolver.cpp:28-61 | each constraint asked, of any of the three kinds, holds of the answer |
| CubicAsk.SharedOnlyIfEqual | src/semantic/cfa/CubicSolver.cpp:92-162 | two AST nodes share a graph node only if every solution gives them the same functions |
| CubicAsk.CirclesCollapse | src/semantic/cfa/CubicSolver.cpp:92-162 | conversely, AST nodes on a circle of active flows share one graph node |
| CubicCircle.SharedIffCircle | src/semantic/cfa/CubicSolver.cpp:92-162 | between calls, two AST nodes share a graph node if and only if they are on one circle of flows that the constraints call for under their least solution |
| CubicCircle.SharedIffEqual | src/semantic/cfa/CubicSolver.cpp:92-162 | and if and only if every solution gives them the same functions |
| CubicCircle.NoneDieIff | src/semantic/cfa/CubicSolver.cpp:63-90 | from a moment to the next in which all is settled, no node is merged away if and only if all circles of flows awake under the least solution of the constraints asked by then were collapsed before |
| CubicCircle.DeathIsNewCircle | src/semantic/cfa/CubicSolver.cpp:28-47 | a node merged away since the last call was put on a circle by the new constraint |
| CubicCircle.ToldApart | src/semantic/cfa/CubicSolver.cpp:97-104 | where one AST node does not flow to another, some solution tells them apart |
| CubicAsk.NoCycle | src/semantic/cfa/CubicSolver.cpp:92-108 | no walk along edges, live or stale, returns to where it began |
| CubicAsk.DeadReaches | src/semantic/cfa/CubicSolver.cpp:73-79 | a merged-away node still reaches, through its old supsets, the live node that stands for it |
| CubicAsk.LiveAreMapped | src/semantic/cfa/CubicSolver.cpp:128-132 | the live nodes are exactly those that some AST node is mapped to |
| CubicAsk.SubseteqIsEdge | src/semantic/cfa/CubicSolver.cpp:49-61 | a subset constraint asked for is an edge between the graph nodes of its two sides, or these are one |
| CubicAsk.EdgeOnlyIfBelow | src/semantic/cfa/CubicSolver.cpp:82-90 | conversely, there is an edge, or one shared graph node, only where every solution has the one side within the other |
| CubicMerge.CycleAlike | src/semantic/cfa/CubicSolver.cpp:97-104 | all nodes on a cycle have the same functions in every solution, so merging them loses nothing |
| CubicMerge.MergedShape | src/semantic/cfa/CubicSolver.cpp:139-161 | merging keeps the edge sets converse, free of self-loops, and among live nodes |
| CubicMerge.MergedSound | src/semantic/cfa/CubicSolver.cpp:133-161 | merging two nodes that every solution makes equal keeps the graph below every solution |
| CubicMerge.MergedCarries | src/semantic/cfa/CubicSolver.cpp:139-161 | no activated flow is lost in a merge |
| CubicRun.SpreadDone | src/semantic/cfa/CubicSolver.cpp:73-79 | when all supsets of the snapshot were visited, the node is settled, whatever was merged in between |
| TipTypes.LeastIsUnique | src/semantic/types/solver/Unifier.cpp:96-100 | two least solutions of the same constraints equate the same terms: the order of constraints and stages does not matter |
| UnionFind.UnionFind.constructor | src/semantic/types/solver/UnionFind.cpp:47-52 | the empty forest, in which every term is alone |
| UnionFind.UnionFind.Seed | src/semantic/types/solver/UnionFind.cpp:54-59 | inserts the terms and changes no class |
| UnionFind.UnionFind.Lookup | src/semantic/types/solver/UnionFind.cpp:38-45 | the parent of a term that is in the table, by structure, and nothing for the others |
| UnionFind.UnionFind.SmartInsert | src/semantic/types/solver/UnionFind.cpp:151-166 | a new term becomes its own parent, a known one keeps its edge; there is one edge for each distinct term |
| UnionFind.UnionFind.GetParent | src/semantic/types/solver/UnionFind.cpp:135-146 | the parent, after inserting a new term |
| UnionFind.UnionFind.Find | src/semantic/types/solver/UnionFind.cpp:81-96 | ends at the root of the term's class, which is its own root, and changes no class |
| UnionFind.UnionFind.QuickUnion | src/semantic/types/solver/UnionFind.cpp:98-121 | joins exactly the classes of the two terms, under the second one's root, and keeps a forest |
| UnionFind.UnionFind.Connected | src/semantic/types/solver/UnionFind.cpp:123-126 | says whether the two terms are in one class |
| UnionFind.UnionFind.Invariant | src/semantic/types/solver/UnionFind.cpp:18-36 | the check for two edges from one term never fails |
| UnionFind.LinkKeeps | src/semantic/types/solver/UnionFind.cpp:107-118 | relinking a root keeps every chain of parents finite |
| UnionFind.LinkJoins | src/semantic/types/solver/UnionFind.cpp:107-118 | relinking a root merges two classes and leaves all others as they were |
| Unifier.Unifier.constructor | src/semantic/types/solver/Unifier.cpp:43-43 | the unifier without constraints is valid |
| Unifier.Unifier.Seeded | src/semantic/types/solver/Unifier.cpp:45-67 | holds the constraints, both their sides and the direct arguments of these, with nothing solved |
| Unifier.Unifier.Add | src/semantic/types/solver/Unifier.cpp:69-94 | appends the constraints and inserts their terms; what was solved stays solved |
| Unifier.Unifier.Solve | src/semantic/types/solver/Unifier.cpp:96-100 | succeeds if and only if some clash-free, decomposition-closed equivalence contains every constraint, then leaves the least such equivalence, and every class with a proper type has a proper root |
| Unifier.Unifier.Unify | src/semantic/types/solver/Unifier.cpp:121-159 | ends, with fewer classes over the subterms at each descent; on success the two terms are together and nothing is equated that some solution keeps apart; it fails only if there is no solution |
| Unification.GoodIsLeast | src/semantic/types/solver/Unifier.cpp:96-159 | the partition that unification maintains is a solution, and the least |
| Unification.GoodIsSolution | src/semantic/types/solver/Unifier.cpp:139-152 | any two proper types in one class are equal, or match with equivalent arguments |
| Unification.ClashUnsatisfiable | src/semantic/types/solver/Unifier.cpp:141-156 | when two proper roots do not match, no solution exists |
| Unification.JoinVar | src/semantic/types/solver/Unifier.cpp:133-138 | a class whose root is a variable may join any class |
| Unification.JoinCons | src/semantic/types/solver/Unifier.cpp:147-152 | two classes with matching roots may join first and have their arguments unified after |
| Unification.ProperRoot | src/semantic/types/solver/Unifier.cpp:102-113 | a class that holds a proper type is represented by one, equal to it or matching it |
| Unification.NoOccursCheck | src/semantic/types/solver/Unifier.cpp:121-159 | equating a variable with a pointer to itself is satisfiable: there is no occurs check |
| TypeLaws.SameConstructor | src/semantic/types/concrete/TipCons.cpp:19-31 | two functions, integers, pointers, arrays or records of the same arity over variables can be equated, and every solution equates their arguments pairwise |
| TypeLaws.SameConstructorLeast | src/semantic/types/concrete/TipCons.cpp:19-31 | with distinct variables the least solution equates those of each pair, and no others |
| TypeLaws.OtherConstructor | src/semantic/types/concrete/TipCons.cpp:19-31 | terms of different constructors, or of different arities, cannot be equated |
| TypeLaws.UnmatchedConstructor | src/semantic/types/concrete/TipCons.cpp:19-31 | two unequal booleans or absent fields cannot be equated |
| TypeLaws.MuClashes | src/semantic/types/solver/Unifier.cpp:139-158 | a mu type cannot be equated with another proper type |
| TypeLaws.VariableTakesAll | src/semantic/types/solver/Unifier.cpp:133-138 | a variable or an alpha can be equated with any term |
| Unification.TermsAre | src/semantic/types/solver/Unifier.cpp:45-67 | the terms inserted are the two sides of each constraint and their direct arguments |
| Unifier.Unifier.Close | src/semantic/types/solver/Unifier.cpp:171-289 | ends (unvisited variables, then the kind of term); the result denotes the same tree, has no variables, and its free alphas are named after visited or unknown variables |
| Unifier.Unifier.Inferred | src/semantic/types/solver/Unifier.cpp:299-303 | for constraints without alphas: a closed type that unfolds at every depth to the tree of the partition, with alphas only for variables that are their own root |
| RegularTypes.MuDenotes | src/semantic/types/solver/Unifier.cpp:203-214 | a mu over a type that denotes its variable denotes it too, at every depth |
| RegularTypes.ConsDenotes | src/semantic/types/solver/Unifier.cpp:230-270 | a constructor denotes a term if its arguments denote the term's arguments |
| RegularTypes.VarCloses | src/semantic/types/solver/Unifier.cpp:183-220 | with or without the mu binder, the closed root of a variable is a closed form of the variable |
| RegularTypes.ConsCloses | src/semantic/types/solver/Unifier.cpp:242-270 | replacing the variables of the arguments by closed types, one at a time, closes the whole term |
| RegularTypes.SubstituteFills | src/semantic/types/solver/Unifier.cpp:242-254 | one round of substitution fills in one more variable, and does not touch what was filled in before |
| RegularTypes.PlainRootsOf | src/semantic/types/solver/Unifier.cpp:183-192 | solving constraints without alphas and mus never makes one of those a root |
| RegularTypes.ClosedAlone | src/semantic/types/solver/Unifier.cpp:299-303 | a closed form with nothing visited is a closed type with the tree of the term, to any depth |
| Substituter.Visitor.Accept | src/semantic/types/solver/Substituter.cpp:18-109 | the post-order visit pushes exactly one type: the recursive substitution, argument order kept |
| Substituter.Visitor.EndVisitCons | src/semantic/types/solver/Substituter.cpp:18-32 | pops as many types as the constructor has arguments and pushes the constructor on them, in their order |
| Substituter.Visitor.EndVisitVar | src/semantic/types/solver/Substituter.cpp:80-97 | pushes a copy of the substitution for the target, and the variable itself otherwise |
| Substituter.Substitute | src/semantic/types/solver/Substituter.cpp:7-16 | the result on the stack is the recursive substitution |
| Substituter.SubstituteAll | src/semantic/types/solver/Substituter.cpp:78-97 | the target no longer occurs, if it does not occur in what replaces it |
| Substituter.SubstituteNothing | src/semantic/types/solver/Substituter.cpp:78-97 | a type in which the target does not occur comes back as it was |
| Substituter.CopyIsSame | src/semantic/types/solver/Copier.cpp:7-11 | copying a type whose alphas have no context gives an equal type |
| TypePositions.SubstitutedAt | src/semantic/types/solver/Substituter.cpp:18-109 | at every place where the target stood, variable or alpha, there is the substitute; at every other place the same constructor or variable as before, alphas without their contexts |
| TypePositions.OccursAt | src/semantic/types/solver/Substituter.cpp:78-97 | a term occurs in another if and only if it stands at some place of it |
| TypePositions.CollectedIffOccurs | src/semantic/types/solver/TypeVars.cpp:3-19 | the variables collected from a term are those that stand somewhere in it, binders included |
| TypePositions.PlainAt | src/semantic/types/solver/TypeVars.cpp:8-19 | a plain term has variables and constructors in all its places and nothing else |
| TypeInference.RunMono | src/semantic/types/TypeInference.cpp:169-183 | accepts exactly the satisfiable constraints and leaves their least solution; without the check for absent fields at the end |
| TypeInference.RunPoly | src/semantic/types/TypeInference.cpp:116-164 | solving given stages one by one on one unifier accepts the same constraints, and leaves the same classes, as all of them at once; without the check for absent fields |
| TopologicalSort.TopologicalSort.TopoVisit | src/semantic/types/TypeInference.cpp:20-38 | ends on every graph; moves functions from unmarked to sorted, the given one among them, and keeps callees before callers where that is possible |
| TopologicalSort.TopologicalSort.TopoSort | src/semantic/types/TypeInference.cpp:57-68 | returns a permutation of the functions; for each function that the graph has, those it calls are earlier in the list, if and only if some rank falls with each call among them |
| TopologicalSort.OrderedOnMap | src/semantic/cfa/CallGraph.cpp:39-46 | read off the call graph itself: the order has each called function before its caller, and acyclic means that some rank falls with each call |
| TopologicalSort.OrderedIsAcyclic | src/semantic/types/TypeInference.cpp:57-68 | an order with callees first exists only for an acyclic call graph |
| Preservation.EmittedPreserves | src/codegen/CodeGenFunctions.cpp:432-1602 | for every function of the fragment and all arguments the emitted code returns the same value and prints the same, or stops with the same error; while the source runs on, so does the machine; a register read before it is written would get the machine stuck, so on these runs none is |
| Preservation.StoppedAsMeant | src/codegen/CodeGenFunctions.cpp:432-1602 | conversely, for the fragment: when the machine stops, the source is done, with the same result, output or error, unless what it does is undefined |
| Preservation.VariablesStart | src/codegen/CodeGenFunctions.cpp:384-401 | each parameter starts as its argument and each local variable as 0, in the source and in its stack slot, and there are no others |
| Emission.DeclaredOnce | src/codegen/CodeGenFunctions.cpp:384-401 | a function is declared properly if and only if no name occurs twice among its parameters and local variables |
| Arithmetic.DivisionIs | src/codegen/CodeGenFunctions.cpp:627-658 | division and remainder, in the language and in the machine: the dividend is divisor times quotient plus remainder, which is smaller than the divisor and has the sign of the dividend; undefined exactly for 0 and where the quotient does not fit |
| Arithmetic.DivisionIsUnique | src/codegen/CodeGenFunctions.cpp:627-658 | only one quotient and one remainder are like that |
| Arithmetic.WordSize | src/codegen/CodeGenFunctions.cpp:629-632 | numbers have 64 bits: twice the bound of the signed ones is 2^64 |
| Arithmetic.SumsAre | src/codegen/CodeGenFunctions.cpp:621-626 | sum, difference and product are within 64 bits and differ from the exact ones by a multiple of 2^64 |
| Arithmetic.ComparisonsAre | src/codegen/CodeGenFunctions.cpp:629-652 | a comparison is 1 where it holds and 0 elsewhere |
| Arithmetic.ConnectivesAre | src/codegen/CodeGenFunctions.cpp:653-656 | on truth values, conjunction is the minimum and disjunction the maximum |
| Arithmetic.BitwiseIs | src/codegen/CodeGenFunctions.cpp:653-656 | the bitwise operations of the machine, digit by digit of 64 |
| ExprPreservation.GenRuns | src/codegen/CodeGenFunctions.cpp:418-987 | the code of every expression of the fragment reaches its end with the expression's value, the state it leaves, and its error behaviour |
| ExprPreservation.BinaryRuns | src/codegen/CodeGenFunctions.cpp:612-662 | left before right; wrap-around, truncating division, comparisons as 0 or 1, and bitwise logic on truth values |
| ExprPreservation.TernaryRuns | src/codegen/CodeGenFunctions.cpp:915-987 | only the chosen branch runs, and the phi takes its value, also when a branch has opened blocks of its own |
| ExprPreservation.ArrayRuns | src/codegen/CodeGenFunctions.cpp:858-887 | an array literal has its length in word 0 and its elements, evaluated in order, after it |
| ExprPreservation.ArrayOfRuns | src/codegen/CodeGenFunctions.cpp:432-522 | evaluates the length once and the element once for every item, in the same layout |
| ExprPreservation.FillLoop | src/codegen/CodeGenFunctions.cpp:470-516 | the loop from item i on fills exactly the items from i on |
| ExprPreservation.ArrayLenRuns | src/codegen/CodeGenFunctions.cpp:893-908 | the length is read from word 0 |
| ExprPreservation.CheckRuns | src/codegen/CodeGenFunctions.cpp:551-597 | in bounds, the address of the item; out of bounds, below or above, the run stops with error 0 |
| ExprPreservation.ElementRuns | src/codegen/CodeGenFunctions.cpp:524-609 | the address of an item, after array and index were evaluated in this order, the length in between |
| ExprPreservation.IndexingRuns | src/codegen/CodeGenFunctions.cpp:524-610 | the value of an item, or the error |
| ExprPreservation.AllocRuns | src/codegen/CodeGenFunctions.cpp:768-792 | a new cell with the value, at an address not used before |
| ExprPreservation.DeRefRuns | src/codegen/CodeGenFunctions.cpp:829-856 | the content of the cell |
| ExprPreservation.NotRuns | src/codegen/CodeGenFunctions.cpp:1584-1593 | the exclusive or with 1 negates a truth value |
| ExprPreservation.NegRuns | src/codegen/CodeGenFunctions.cpp:1595-1602 | the negative, with wrap-around |
| TipLanguage.TargetValue | src/codegen/CodeGenFunctions.cpp:524-610 | the value of an expression with a place is what is at its place, with the same effects and errors on the way |
| StmtPreservation.TargetRuns | src/codegen/CodeGenFunctions.cpp:671-856 | l-value generation yields the address of the target's place |
| StmtPreservation.AddressHoldsValue | src/semantic/weeding/CheckAssignable.cpp:12-49 | for every target of the fragment that weeding accepts (variables, items and cells; record fields are left out), a load from the address that l-value generation yields gives the value of the expression |
| TipLanguage.TargetsAre | src/semantic/weeding/CheckAssignable.cpp:11-49 | of the fragment, weeding accepts variables, what pointers lead to, and items of arrays that are named by either |
| StmtPreservation.StmtRuns | src/codegen/CodeGenFunctions.cpp:1137-1575 | the code of every statement reaches its end in the state the statement leaves, stops with its error, or keeps running |
| StmtPreservation.AssignRuns | src/codegen/CodeGenFunctions.cpp:1137-1157 | the target is located before the right-hand side is evaluated |
| StmtPreservation.UpdateRuns | src/codegen/CodeGenFunctions.cpp:1172-1197 | the target is located once, read, and set to one more or one less |
| StmtPreservation.AllRun | src/codegen/CodeGenFunctions.cpp:1159-1170 | the statements of a block run in order |
| StmtPreservation.IfRuns | src/codegen/CodeGenFunctions.cpp:1457-1530 | one branch runs, with or without an else |
| StmtPreservation.WhileRuns | src/codegen/CodeGenFunctions.cpp:1215-1267 | the condition is evaluated again before every round |
| StmtPreservation.RangeRuns | src/codegen/CodeGenFunctions.cpp:1269-1366 | place, start, end and step are evaluated once, in this order; the item is read again from its place |
| StmtPreservation.RangeLoop | src/codegen/CodeGenFunctions.cpp:1327-1361 | the rounds from any item on, up to the end evaluated before the loop |
| StmtPreservation.EachRuns | src/codegen/CodeGenFunctions.cpp:1367-1440 | every item of the array, in the layout of literals and array-of, is put in the item's place; the length is read once |
| StmtPreservation.EachLoop | src/codegen/CodeGenFunctions.cpp:1387-1434 | the rounds from item i on, also when the body changes the array |
| StmtPreservation.OutputRuns | src/codegen/CodeGenFunctions.cpp:1532-1553 | the value is printed |
| StmtPreservation.ErrorRuns | src/codegen/CodeGenFunctions.cpp:1555-1575 | the run stops with the value as error code |
| CfgShape.EmittedIsProper | src/codegen/CodeGenFunctions.cpp:432-1602 | for every function of the fragment, every emitted block is placed and ends in one terminator that leads to existing blocks, and each phi stands first and has one operand for each predecessor and no other |
| CfgShape.EdgesAreExits | src/codegen/CodeGenFunctions.cpp:432-1602 | the edges of the graph are the ways in which runs leave a block |
| CfgShape.PhisAreFed | src/codegen/CodeGenFunctions.cpp:939-986 | whatever the source does, no run of the emitted code leaves its blocks, or comes to a phi from a block that the phi does not list |
| CfgShape.GenFinished | src/codegen/CodeGenFunctions.cpp:418-987 | every expression of the fragment leaves only the block it ends in open, however its parts are nested |
| CfgShape.StmtFinished | src/codegen/CodeGenFunctions.cpp:1137-1575 | the same for every statement of the fragment |
| CfgGrowth.BranchFinished | src/codegen/CodeGenFunctions.cpp:939-986 | the merge block of a ternary has the blocks in which the branches end as its two predecessors |
| CfgGrowth.CheckFinished | src/codegen/CodeGenFunctions.cpp:557-609 | the block after a bounds check has the in-bounds block as its only predecessor |
| CodeGen.CodeGen.Codegen | src/codegen/CodeGenFunctions.cpp:418-987 | for every expression of the fragment: with the flag set its address is compiled, without it the value; sub-expressions are always compiled for their value, and the flag is not set by an expression |
| CodeGen.CodeGen.CodegenIndexing | src/codegen/CodeGenFunctions.cpp:524-610 | the flag is reset for the array and the index and restored for the item |
| CodeGen.CodeGen.CodegenTernary | src/codegen/CodeGenFunctions.cpp:915-987 | emits the scheme of which preservation is proved |
| CodeGen.CodeGen.CodegenArray | src/codegen/CodeGenFunctions.cpp:858-887 | emits the scheme, element by element |
| CodeGen.CodeGen.CodegenArrayOf | src/codegen/CodeGenFunctions.cpp:432-522 | emits the scheme with its loop |
| CodeGen.CodeGen.CheckIndex | src/codegen/CodeGenFunctions.cpp:551-597 | emits the bounds check with its three blocks |
| CodeGen.CodeGen.CodegenOp | src/codegen/CodeGenFunctions.cpp:630-662 | one instruction, or a comparison widened to a word |
| CodeGen.CodeGen.CodegenStmt | src/codegen/CodeGenFunctions.cpp:1137-1575 | every statement is compiled with the flag unset, and leaves it unset |
| CodeGen.CodeGen.CodegenTarget | src/codegen/CodeGenFunctions.cpp:1137-1145 | the flag is set for the target and unset right after it |
| CodeGen.CodeGen.CodegenIf | src/codegen/CodeGenFunctions.cpp:1457-1530 | emits the scheme of an if statement |
| CodeGen.CodeGen.CodegenWhile | src/codegen/CodeGenFunctions.cpp:1215-1267 | emits the scheme of a while loop |
| CodeGen.CodeGen.CodegenForRange | src/codegen/CodeGenFunctions.cpp:1269-1366 | emits the scheme of a loop over a range |
| CodeGen.CodeGen.CodegenForEach | src/codegen/CodeGenFunctions.cpp:1367-1440 | emits the scheme of a loop over an array |
| CodeGen.CodegenFunction | src/codegen/CodeGenFunctions.cpp:335-416 | appending the body statement by statement gives exactly the code that the preservation and shape theorems are about; the slots are there before |
| PicoSha2.RotrIs | externals/PicoSHA2/picosha2.h:73-76 | the masked wide rotation is the 32-bit rotation on words below 2^32 |
| PicoSha2.SigmasAre | externals/PicoSHA2/picosha2.h:78-89 | the four sigma functions are those of section 4.1.2 of FIPS 180-4 |
| PicoSha2.ChIs | externals/PicoSHA2/picosha2.h:67-67 | choice with a 64-bit complement is the 32-bit choice |
| PicoSha2.MajIs | externals/PicoSHA2/picosha2.h:69-71 | majority is that of the standard |
| PicoSha2.BytesAre | externals/PicoSHA2/picosha2.h:98-101 | four shifted and joined bytes are the big-endian word |
| PicoSha2.Schedule | externals/PicoSHA2/picosha2.h:95-106 | the 64 words are the message schedule of section 6.2.2 of FIPS 180-4, all below 2^32 |
| PicoSha2.RoundIs | externals/PicoSHA2/picosha2.h:118-127 | one round with unmasked sums, masked late, is one round of the standard, and the sums fit 64 bits |
| PicoSha2.AddBack | externals/PicoSHA2/picosha2.h:129-139 | adding the working variables and masking afterwards is addition modulo 2^32 |
| PicoSha2.Hash256Block | externals/PicoSHA2/picosha2.h:91-140 | the digest words become the compression of the block |
| Sha256Constants.KIsCubeRoot | externals/PicoSHA2/picosha2.h:50-61 | constant t is, by section 4.2.2 of FIPS 180-4, the first 32 bits of the fraction of the cube root of the t-th prime, a prime being a number without divisors that has t primes below it |
| Sha256Constants.InitialIsSquareRoot | externals/PicoSHA2/picosha2.h:63-65 | the initial words are, by section 5.3.3, those of the square roots of the first eight primes |
| WordBits.BitSigmas | externals/PicoSHA2/picosha2.h:78-89 | each sigma function adds three digits of its argument modulo 2, at the places of section 4.1.2 |
| WordBits.BitCh32 | externals/PicoSHA2/picosha2.h:67-67 | a digit of the first word chooses between those of the other two |
| WordBits.BitMaj32 | externals/PicoSHA2/picosha2.h:69-71 | a digit is 1 where at least two of three are |
| WordBits.BitRotr32 | externals/PicoSHA2/picosha2.h:73-76 | digit i of a rotated word is digit i + n of the word, round the end |
| WordBits.SameBits | externals/PicoSHA2/picosha2.h:67-89 | a number is determined by its digits, so these laws leave no choice |
| Sha256Laws.RoundsUndone | externals/PicoSHA2/picosha2.h:117-127 | each round can be undone with its constant and its word, so nothing is lost in 64 rounds |
| Sha256Laws.ScheduleUndone | externals/PicoSHA2/picosha2.h:103-106 | sixteen words of the schedule in a row give the one before them |
| Sha256Laws.BlockWords | externals/PicoSHA2/picosha2.h:97-102 | the first sixteen words are the numbers that the bytes of the block write |
| Sha256Laws.CompressUndone | externals/PicoSHA2/picosha2.h:129-139 | what compression adds to each word is that word after 64 rounds |
| Sha256.HashedPrefix | externals/PicoSHA2/picosha2.h:193-201 | the hash after n blocks depends on these blocks only, so it may be computed before the rest is known |
| Hash256.Hash256OneByOne.constructor | externals/PicoSHA2/picosha2.h:184-191 | a valid hasher of the empty message |
| Hash256.Hash256OneByOne.Process | externals/PicoSHA2/picosha2.h:193-201 | the message grows by the chunk, whatever chunks came before: full blocks are hashed, the rest is kept, the length counted |
| Hash256.Hash256OneByOne.AddToDataLength | externals/PicoSHA2/picosha2.h:233-245 | the four 16-bit digits hold the sum modulo 2^64, for any 64-bit summand |
| Hash256.Hash256OneByOne.WriteDataBitLength | externals/PicoSHA2/picosha2.h:246-266 | writes the bit length modulo 2^64 as eight big-endian bytes |
| Hash256.Hash256OneByOne.Finish | externals/PicoSHA2/picosha2.h:203-220 | the words are the hash of the message padded as in section 5.1.1 of FIPS 180-4 |
| Hash256.Hash256OneByOne.HashFilled | externals/PicoSHA2/picosha2.h:210-216 | with more than 55 bytes left an extra block is hashed; either way only the length is missing in the last one |
| Hash256.Hash256OneByOne.GetHashBytes | externals/PicoSHA2/picosha2.h:222-230 | the digest bytes in big-endian order, as many as there is room for |
| Hash256.Hash256Whole | externals/PicoSHA2/picosha2.h:286-294 | the message digest of the input |
| Hash256.Hash256Buffered | externals/PicoSHA2/picosha2.h:296-315 | the same digest, through a buffer of any size but 0, or of size 0 when there is no input; an error for a negative size |
| Hash256.BufferedEnds | externals/PicoSHA2/picosha2.h:302-312 | some round of the loop reaches the end of the input if and only if the buffer is not empty or the input is; with both an empty buffer and input, no round moves |
| Hash256.PositionIs | externals/PicoSHA2/picosha2.h:303-310 | after k rounds k buffers have been read, or all of the input |
| Hash256.ReadChunk | externals/PicoSHA2/picosha2.h:303-310 | fills the buffer with the next part of the input, as much as there is room for and input left, and stops where the model of the rounds does |
| Hash256.CarryStep | externals/PicoSHA2/picosha2.h:236-244 | passing the overflow of a digit on keeps the value |
| Hash256.DigitBytes | externals/PicoSHA2/picosha2.h:261-265 | the bytes of the digits, highest first, are the bytes of the value |
| Hash256.PaddedShort | externals/PicoSHA2/picosha2.h:214-219 | the last block of a padded message with at most 55 bytes left over |
| Hash256.PaddedLong | externals/PicoSHA2/picosha2.h:210-213 | the last two blocks of a padded message with more bytes left over |
| Sha256Laws.PaddedIs | externals/PicoSHA2/picosha2.h:203-220 | the padded message is the message, a byte 0x80, zero bytes, and the length in bits as a number of eight bytes, in whole blocks with as few zero bytes as possible |
| Sha256Laws.DigestIs | externals/PicoSHA2/picosha2.h:222-230 | the digest is 32 bytes that write the eight words in order |
| PreOrderIterator.PreOrderIterator.constructor | src/frontend/iterators/PreOrderIterator.cpp:4-9 | a new iterator has the whole pre-order of the tree to come, an end iterator nothing |
| PreOrderIterator.PreOrderIterator.Current | src/frontend/iterators/PreOrderIterator.cpp:13-15 | the next node of the pre-order |
| PreOrderIterator.PreOrderIterator.Increment | src/frontend/iterators/PreOrderIterator.cpp:25-41 | drops exactly that node from what is to come; at the end nothing changes |
| PreOrderIterator.PreOrderIterator.Equals | src/frontend/iterators/IteratorUtils.tpp:11-38 | over one tree of distinct nodes, two iterators are equal just when the same nodes are to come; over any tree, an iterator equals an exhausted one just when it is exhausted; over trees with different roots they never are |
| PreOrderIterator.AfterPending | src/frontend/iterators/PreOrderIterator.cpp:25-41 | after i steps the first i nodes of the recursive pre-order have been yielded |
| PreOrderIterator.SameNextSamePlace | src/frontend/iterators/IteratorUtils.tpp:26-37 | the top of the stack tells the whole stack, where the nodes are distinct |
| ASTVisualizer.ASTVisualizer.BuildGraph | src/frontend/prettyprint/ASTVisualizer.cpp:7-27 | on any tree, ends, and the drawing is the picture of the tree if and only if no node is met twice |
| ASTVisualizer.ASTVisualizer.ProcessRoot | src/frontend/prettyprint/ASTVisualizer.cpp:15-20 | the root becomes vertex 0 without an edge, and a parent once for each child |
| ASTVisualizer.ASTVisualizer.ProcessNode | src/frontend/prettyprint/ASTVisualizer.cpp:29-42 | a numbered vertex, an edge from the top parent, which is popped, and the node once for each child |
| ASTVisualizer.ASTVisualizer.ConnectNodeToParent | src/frontend/prettyprint/ASTVisualizer.cpp:54-62 | one edge, unless there is no parent |
| ASTVisualizer.ASTVisualizer.Pushn | src/frontend/prettyprint/ASTVisualizer.cpp:64-68 | the node is pushed n times |
| ASTVisualizer.ProcessAligned | src/frontend/prettyprint/ASTVisualizer.cpp:29-42 | the two stacks are aligned again after a node was drawn and the iterator moved on |
| ASTVisualizer.PictureNumbers | src/frontend/prettyprint/ASTVisualizer.cpp:29-42 | the picture has one vertex for each node, numbered in pre-order |
| ASTVisualizer.PictureEdges | src/frontend/prettyprint/ASTVisualizer.cpp:54-62 | there is an edge between two vertices just when the second's node is a child of the first's |
| ASTVisualizer.PictureOrder | src/frontend/prettyprint/ASTVisualizer.cpp:29-62 | the root comes first, and each edge directly follows the vertex that it leads to |

## Left out

Control-flow analysis

* Which constraints the analysis generates (`CFAnalyzer`); the solver is proved against whatever constraints it is given.
- CubicSolver.CubicSolver.constructor: takes distinct functions, as those of a program are; a repeated one would have two bits and one number.
- CubicSolver.CubicSolver.AddElementofConstraint: asks for a function the solver was created with, as the analysis does. For others the original uses bit 0 (src/semantic/cfa/CubicSolver.cpp:32), past the end if there are no functions.
- CubicSolver.CubicSolver.AddConditionalConstraint: the same for its condition (src/semantic/cfa/CubicSolver.cpp:39).
* The fields of a node are kept in maps from node identities; sets of pointers are gone through in any order.
- CubicSearch.FindPath: does not follow the back-walk literally, because that can spin; `CubicWalk.LiteralWalkEnds` is about the walk as written.
- CubicSearch.WalkBack: likewise picks a subset one step nearer where the original may stay in place.
- CubicSolver.CubicSolver.PropagateNodeChanges: goes on where the loop as written could not, or has missed a superset; both need a node that was merged away while the loop was going through it, and `strayed` tells. Only then is the result not claimed of the original. That a new circle arises is necessary for this, and not sufficient: which supersets are missed depends on addresses.

Type inference

* `TipMu` and alphas in constraints that are read back, and polymorphic instantiation: closing drops an alpha's name (src/semantic/types/solver/Unifier.cpp:224),
  and collecting variables erases a bound one by its address (src/semantic/types/solver/TypeVars.cpp:9).
- Unifier.Unifier.Close: is stated for constraints without alphas and mu types, because of these two.
- Unifier.Unifier.Inferred: the same.
* Names of record fields: all records range over one list of fields, since record equality ignores names (src/semantic/types/concrete/TipRecord.cpp:25-42).
* Pointer identity: closing asks whether a root is the same object as the variable, which is left open here
  where they are equal; the order of collected variables is any order.
* Generating constraints, the absent-field check, the text of error messages.
* `recursiveFuncs` and `topoSortNonRecursive`: the functions to sort are any list; `mayIndirectlyCall` ends only on some call graphs.
- TypeInference.RunMono: leaves out the absent-field check at the end, because records have no field names here.
- TypeInference.RunPoly: the same, and takes the constraints of each stage as given, because their generation is not modelled.

Code generation

* Records, `null`, function values, calls, `input`, address-of, the function table, the entry of `main`, `allocFlag`, bitcode.
* Constant folding by the instruction builder, the order and labels of blocks, and the names of registers. A name without a slot, which is a function, compiles to a constant without meaning.
* The words of memory are numbered without bound, stack slots apart from the heap, and allocation never fails. Variables start in slots of their own.
- Preservation.EmittedPreserves: is about the fragment listed at the top; calls, records, `input`, `null` and address-of are not in it. It says nothing about runs that the source leaves undefined.
- ExprPreservation.GenRuns: is about the expressions of the fragment.
- StmtPreservation.AddressHoldsValue: leaves out x.f and (*p).f, because the fragment has no records.
- CfgShape.EmittedIsProper: is about the fragment.
- CfgShape.GenFinished: is about the expressions of the fragment.
- CodeGen.CodeGen.Codegen: is about the expressions of the fragment.
- CodeGen.CodegenFunction: the slots and the stores of parameters and locals at the entry are in the machine's start, not in the code.
- Preservation.StoppedAsMeant: is about the fragment, and says nothing about runs that the source leaves undefined: division by zero or of the smallest number by -1, arrays of negative or absurd length, logic on numbers other than 0 and 1, and using a value as a cell or array that is none.

SHA-256

* Printing digests in hex, reading files, and the container overloads.
- Hash256.Hash256Buffered: excludes an empty buffer for an input that is not empty, because the loop then never ends (`Hash256.BufferedEnds`).

Syntax trees

* The text of a node, the header of the dot file, cloning iterators, and comparing iterators of different kinds.
- ASTVisualizer.ASTVisualizer.BuildGraph: starts from a fresh visualizer; its members are never cleared, so a second tree would go on from the first one's numbers.

Parsing, the symbol table, the other weeding passes, the pretty printer, the driver, logging, the runtime library and the optimizer.
