# Contextra models

Contextra is a storage and retrieval engine with an adaptive layer and an agent workflow engine. This project
models its most intricate parts and proves what they are relied on for.

| part | modules |
|---|---|
| dependency cycles among crates: Tarjan's search, as the recursive procedure over mutable maps it is | `Digraph`, `StringOrder` (both in `Digraph.dfy`), `Tarjan` |
| the parser that flattens Rust `use` trees | `UseTree` |
| the rewriter that wraps generated calls in `unsafe` blocks | `WireBuild` |
| the online least-squares learners LinUCB (gain form), RIE-Greedy (information form) and FC-TS (weighted, with a ring buffer, rollback and a conjugate gradient solver) | `LinearAlgebra`, `ShermanMorrison`, `RowMajor`, `Bandit`, `RieGreedy`, `ConjugateGradient`, `DriftRegression`, `FlowThompson`, `Agreement` |
| the agent workflow engine: audit log, edge choice, token budget, the step loop, whole runs | `AuditLog`, `WorkflowGraph`, `TokenBudget`, `Engine`, `EngineTurn`, `EngineRun`, `Termination`, `Orchestrator` |
| off-policy evaluation, ranking metrics, drift detectors, the pool regulator | `OffPolicy`, `RankMetrics`, `Lyapunov`, `Catoni`, `Pid` |
| what they share | `Basics` |

Code that changes state is modelled by classes with the fields of the original and methods that update them, code
that loops over buffers by loops over arrays; each is proved against a function, and the theorems are about the
functions. Machine reals are mathematical reals. Whether a machine number came out non-finite, what storage and tools
do, and the values of `sqrt` and `ln` are parameters, so the results hold for whatever they are.

The learners keep a ghost list of the observations they have taken in. The invariant of each class says that its
buffers are the exact inverse of the regression matrix of that list and that its estimate solves the normal
equations; since every method keeps it, it holds after every sequence of calls, and since it determines the buffers,
the three forms agree.

A run of the workflow engine takes what the outside world does in turn `n` from an arbitrary function, and a history is
an arbitrary sequence of turns by any tasks from any contexts; both include writes that fail, writes that are reported
as failed after taking effect, tools that fail or time out, and runs started again.

Where code and documentation differ, the model follows the code:

- `bandit.rs` calls the interval of 1000 a refactorization interval; nothing refactorizes, so after 1000 attempts on
  one inverse every further update is refused (`Bandit.BanditProfileState.Update`).
- `audit.rs` speaks of replaying the entries of a given task; the key prefix also matches some other tasks
  (`AuditLog.ReplayExact`, `AuditLog.ReplayLeak`).
- `engine.rs` documents a step limit against unbounded loops; Decision nodes do not count as steps
  (`EngineRun.Livelock`, `Termination.EndsExactly`).
- `lyapunov.rs` speaks of collecting baseline scores until there are 30; collecting stops after the first non-empty
  update, however small (`Lyapunov.LyapunovDriftWatcher.Update`).
- `build.rs` says it wraps the calls of `self._tab.get`; a call whose name is an argument of another and whose own
  argument list follows it is torn apart (`WireBuild.WrappableIsWrapped`, `WireBuild.SplitCall`).
- `flow_thompson.rs` fits the drift to what rewards were above the estimate and then adds it to them; where the fit is
  perfect, a transported reward ends up twice as far from the estimate (`FlowThompson.TransportDoubles`).
- Decision nodes look only at an edge's `condition`, never at its `goal`, and treat a blank condition as an
  expression; Start and Task nodes treat a blank condition as none (`WorkflowGraph.TwoReadings`).

## Model
| member | source | states |
|---|---|---|
| `Tarjan.Scc` | tools/crate_coupling_report.py:815-849 | for every finite graph and every order of the successors: the reported lists are exactly the strongly connected components with two or more members that are reachable from `nodes`, each whole, sorted, reported once, and none reaching a later one |
| `Tarjan.CyclesUnique` | tools/crate_coupling_report.py:815-849 | that description leaves no choice: two answers that meet it contain the same lists |
| `Tarjan.Search.Strong` | tools/crate_coupling_report.py:824-844 | a call numbers `v` and whatever it reaches, keeps the search invariant, and leaves in `low[v]` a number of a stacked vertex that `v` reaches and that no edge from the new stack segment goes below; it terminates on the count of unnumbered vertices |
| `Tarjan.Search.Enter` | tools/crate_coupling_report.py:825-828 | numbering and stacking a vertex keeps the invariant with that vertex open |
| `Tarjan.Search.Successor` | tools/crate_coupling_report.py:829-834 | one successor: afterwards it is numbered, `low[v]` has not risen, and it covers the edge just followed |
| `Tarjan.Search.Leave` | tools/crate_coupling_report.py:835-844 | leaving a vertex restores the invariant without it, whether or not it is the root of a component |
| `Tarjan.Search.PopComponent` | tools/crate_coupling_report.py:836-844 | the popping loop cuts the stack exactly at `v` and announces exactly the popped vertices, if there are two or more, sorted |
| `Tarjan.TopIsComponent` | tools/crate_coupling_report.py:835-844 | when `low[v] == index[v]` the stack from `v` up is one whole strongly connected component |
| `Tarjan.Popped` | tools/crate_coupling_report.py:835-844 | popping it keeps every part of the invariant, the completeness of the report included |
| `Tarjan.Kept` | tools/crate_coupling_report.py:835-835 | when `v` is not a root, every stacked vertex still reaches an open one below it after `v` has returned |
| `UseTree.ExpandUse` | tools/crate_coupling_report.py:287-336 | on every token list it terminates; on the printed tokens of a well-formed tree it returns exactly the tree's imports |
| `UseTree.Parse` | tools/crate_coupling_report.py:290-326 | the outer parsing loop, with its index and its lists, computes the parser function from any start |
| `UseTree.ParseItems` | tools/crate_coupling_report.py:297-308 | the loop over a group's items computes the item-list function |
| `UseTree.ReadsTree` | tools/crate_coupling_report.py:290-326 | wherever a printed tree stands, followed by a comma, a closing brace or nothing, the parser consumes exactly its tokens and finds its imports: nested groups, globs, aliases, a leading `::` and trailing commas included |
| `UseTree.ReadsItems` | tools/crate_coupling_report.py:297-308 | the same for the items of a group |
| `UseTree.PrintedTreeIsExpanded` | tools/crate_coupling_report.py:287-336 | a whole tree: all tokens consumed, all leaves in left-to-right order with full prefix and alias, `self` leaves collapsed to their parent |
| `UseTree.LeafImports` | tools/crate_coupling_report.py:329-335 | a leaf imports its path; one that ends in `self` the module before it, and nothing where there is none; an alias is kept |
| `UseTree.SelfIsTheModule` | tools/crate_coupling_report.py:329-335 | in a group `self` stands for the group's own module, whatever that module is called |
| `UseTree.DanglingAs` | tools/crate_coupling_report.py:316-319 | a path with `as` after it and no name is imported without one |
| `WireBuild.WrapTabGetCalls` | crates/contextra-wire/build.rs:68-124 | the output is the line with each wrapped call in a block of its own, `unsafe { ` before it and ` }` after it; taking these out of the output again gives the line back, and its braces balance as those of the line do |
| `WireBuild.FindClosing` | crates/contextra-wire/build.rs:93-106 | the depth loop finds the parenthesis that closes the first one |
| `WireBuild.CallEndIsCall` | crates/contextra-wire/build.rs:89-106 | the end it finds is the end of a call - name, first parenthesis, matching parenthesis - and it finds one whenever there is one |
| `WireBuild.TextOfPieces` | crates/contextra-wire/build.rs:68-124 | deleting the insertions gives back the input |
| `WireBuild.RenderIsWoven` | crates/contextra-wire/build.rs:111-116 | the rendered pieces are that text, written out with the inserted words as literals |
| `WireBuild.UnwovenGivesBack` | crates/contextra-wire/build.rs:111-116 | a scan of the output that expects exactly those words around each wrapped call, and nothing else anywhere, finds them and gives back the line |
| `WireBuild.WovenBalances` | crates/contextra-wire/build.rs:111-116 | opening less closing braces are the same in the output as in the line: every block opened is closed |
| `WireBuild.CutsAreCalls` | crates/contextra-wire/build.rs:77-120 | each stretch put into a block is one complete unguarded call, from its name to its matching parenthesis |
| `WireBuild.GuardedExactly` | crates/contextra-wire/build.rs:81-83 | a position counts as guarded exactly when the word `unsafe` stands somewhere before it on the line |
| `WireBuild.WrappableIsWrapped` | crates/contextra-wire/build.rs:77-120 | every complete call with no `unsafe` before it on the line has its whole name inside the inserted block; the whole call is inside if and only if its first parenthesis is in the block that holds its name |
| `WireBuild.SplitCall` | crates/contextra-wire/build.rs:77-120 | a line on which it is not: a call whose name is the argument of another and whose argument list follows it |
| `WireBuild.WrappedIsWrappable` | crates/contextra-wire/build.rs:77-120 | nothing else does: each wrapped piece is such a call, from its name to its matching parenthesis |
| `WireBuild.WrapIsIdempotent` | crates/contextra-wire/build.rs:68-124 | rewriting a rewritten line changes nothing, for every line |
| `ShermanMorrison.UpdatedTracks` | crates/contextra-adapt/src/bandit.rs:768-812 | the rank-one formula turns the exact inverse of a symmetric positive definite A into that of decay*A + weight*x*x^T, symmetric and positive definite again, and its denominator is at least one |
| `ShermanMorrison.Inverted` | crates/contextra-adapt/src/bandit.rs:768-812 | run over any history from ridge*I, the formula arrives at the exact inverse of the history's regression matrix |
| `ShermanMorrison.DenominatorAtLeastOne` | crates/contextra-adapt/src/bandit.rs:785-796 | the denominator tested against zero is never below one |
| `ShermanMorrison.GainSolves` | crates/contextra-adapt/src/bandit.rs:798-812 | theta plus residual times gain solves the new normal equations whenever theta solved the old ones |
| `ShermanMorrison.FitsNext` | crates/contextra-adapt/src/bandit.rs:768-812 | exact inverse and normal equations survive one accepted observation of any decay and weight |
| `ShermanMorrison.FitUnique` | crates/contextra-adapt/src/bandit.rs:768-812 | inverse and estimate are determined by the history of observations, however they were computed |
| `ShermanMorrison.LossIsQuadratic` | crates/contextra-adapt/src/bandit.rs:768-814 | the discounted, weighted sum of squared errors over any history, ridge included, is the quadratic whose matrix is the Gram matrix and whose vector that of the targets |
| `ShermanMorrison.EstimateIsBest` | crates/contextra-adapt/src/bandit.rs:768-814 | the estimate of every state that fits a history is the one vector of least discounted squared error over it: LinUCB's, RIE-Greedy's and FC-TS's alike |
| `LinearAlgebra.InverseUnique` | crates/contextra-adapt/src/bandit.rs:350-350 | a matrix has only one inverse |
| `LinearAlgebra.RightInverseSuffices` | crates/contextra-adapt/src/bandit.rs:768-812 | for symmetric matrices an inverse on one side is an inverse on both |
| `LinearAlgebra.RankOneDefinite` | crates/contextra-adapt/src/bandit.rs:768-812 | discounting and adding a weighted square keeps a matrix positive definite |
| `RowMajor.DotProduct` | crates/contextra-adapt/src/bandit.rs:250-294 | the product unrolled by sixteen with four accumulators is the plain sum over the common length |
| `RowMajor.FusedRowUpdate` | crates/contextra-adapt/src/bandit.rs:299-325 | the unrolled row update rewrites each cell of the row once, from its old value, and no other cell |
| `RowMajor.FillDiagonal` | crates/contextra-adapt/src/bandit.rs:415-419 | filling the diagonal of a zeroed flat buffer gives the scaled identity |
| `RowMajor.Image` | crates/contextra-adapt/src/flow_thompson.rs:374-384 | the row loop gives the matrix-vector product and its product with the vector |
| `RowMajor.SubtractOuter` | crates/contextra-adapt/src/flow_thompson.rs:386-396 | the double loop subtracts the scaled outer product in place |
| `Bandit.BanditProfileState.constructor` | crates/contextra-adapt/src/bandit.rs:415-446 | a cold start is the empty history: zero estimate, identity inverse, unit diagonal, the default parameters, new buffers |
| `Bandit.BanditProfileState.EnsureInvA` | crates/contextra-adapt/src/bandit.rs:494-503 | a buffer of the wrong size is replaced by the identity and the counter reset; one of the right size is left alone |
| `Bandit.BanditProfileState.Update` | crates/contextra-adapt/src/bandit.rs:683-818 | after any sequence of updates and penalties the state fits its history; an update is refused exactly for a wrong dimension or when the counter has passed 1000, for good while the dimensions match, leaving theta, the diagonal and the inverse as they were; an accepted one adds exactly the event (discount, x, reward - lambda*cost - privacy) |
| `Bandit.BanditProfileState.Absorb` | crates/contextra-adapt/src/bandit.rs:768-815 | the four steps in place, on a buffer of the right size, keep the exact inverse and the normal equations |
| `Bandit.BanditProfileState.ApplyDriftPenalty` | crates/contextra-adapt/src/bandit.rs:396-410 | a penalty is the discount alone: inverse scaled, estimate unchanged, still fitting; alpha capped |
| `Bandit.BanditProfileState.Score` | crates/contextra-adapt/src/bandit.rs:539-660 | for every vector of the right length a value, never an error, that with lambda times the cost and the cloud penalty added back lies above theta.x (below it for a negative alpha), the square of the distance being alpha squared times the variance: that of the inverse, which is not negative, or of the diagonal while there is no inverse of the right size |
| `Bandit.ChargedInFull` | crates/contextra-adapt/src/bandit.rs:663-665 | that leaves one value only, and of two scores that differ in cost and transport alone the dearer is lower by exactly lambda times the cost and the penalty |
| `Bandit.DiagonalIsQuadratic` | crates/contextra-adapt/src/bandit.rs:627-634 | the fallback's variance is the same quadratic form, for the inverse of the diagonal, kept away from zero |
| `Bandit.DiagonalCovers` | crates/contextra-adapt/src/bandit.rs:813-813 | an update or a penalty that finds the diagonal at least one and at least that of the Gram matrix leaves it so; without discount an update keeps the two equal |
| `Bandit.Discount` | crates/contextra-adapt/src/bandit.rs:776-785 | the first loop leaves A^-1 x / decay in the work buffer and returns its product with x |
| `Bandit.ApplyGain` | crates/contextra-adapt/src/bandit.rs:806-815 | the last loop rewrites inverse, estimate and diagonal row by row into the rank-one update |
| `Bandit.Penalised` | crates/contextra-adapt/src/bandit.rs:400-405 | scaling the inverse by 1/gamma follows scaling A and b by gamma: the estimate still solves the normal equations |
| `Bandit.VarianceNeverNegative` | crates/contextra-adapt/src/bandit.rs:611-631 | in every reachable state the variance is not negative, so `NonFiniteVariance` cannot arise from its sign |
| `RieGreedy.RieGreedyProfile.constructor` | crates/contextra-adapt/src/rie_greedy.rs:67-92 | non-finite or non-positive lambda becomes one, gamma is clamped, and the state is the empty history |
| `RieGreedy.RieGreedyProfile.Update` | crates/contextra-adapt/src/rie_greedy.rs:142-212 | accepted updates add one event; every rejected one restores inverse and information vector |
| `RieGreedy.RieGreedyProfile.MuHat` | crates/contextra-adapt/src/rie_greedy.rs:96-111 | the estimate multiplied out solves the normal equations of the history |
| `RieGreedy.Rewrite` | crates/contextra-adapt/src/rie_greedy.rs:156-209 | discounting first and subtracting the outer product afterwards is the same rank-one update |
| `RieGreedy.InformsFits` | crates/contextra-adapt/src/rie_greedy.rs:96-111 | the information form and the gain form describe the same state |
| `ConjugateGradient.Solve` | crates/contextra-adapt/src/flow_thompson.rs:605-660 | on a symmetric matrix with xMx >= rho*xx, at every exit: the residuals are those of the iterates and pairwise orthogonal, the directions pairwise conjugate, every iteration has strictly lowered the energy, and the final residual is below the solver's threshold (or rho*rr below the curvature threshold); at most d iterations |
| `ConjugateGradient.Turn` | crates/contextra-adapt/src/flow_thompson.rs:610-657 | one iteration in place keeps all of that |
| `ConjugateGradient.NextResidual` | crates/contextra-adapt/src/flow_thompson.rs:633-637 | the new residual is orthogonal to all earlier ones and to the direction just taken |
| `ConjugateGradient.NextDirection` | crates/contextra-adapt/src/flow_thompson.rs:644-649 | the new direction is conjugate to all earlier ones |
| `ConjugateGradient.EnergyFalls` | crates/contextra-adapt/src/flow_thompson.rs:633-637 | an iteration lowers the energy by exactly half of alpha*r.r |
| `ConjugateGradient.EnergyNeverPositive` | crates/contextra-adapt/src/flow_thompson.rs:605-660 | no iterate has more energy than the start at zero, which has none |
| `ConjugateGradient.OrthogonalCount` | crates/contextra-adapt/src/flow_thompson.rs:610 | non-zero pairwise orthogonal vectors in dimension d are at most d: the loop cannot run out of iterations without converging |
| `ConjugateGradient.TurnsBounded` | crates/contextra-adapt/src/flow_thompson.rs:610 | so a run makes fewer than d full turns |
| `FlowThompson.FlowCorrectedThompsonBandit.constructor` | crates/contextra-adapt/src/flow_thompson.rs:259-288 | a new learner is the empty history with an empty ring and no drift |
| `FlowThompson.FlowCorrectedThompsonBandit.UpdateWithFlow` | crates/contextra-adapt/src/flow_thompson.rs:335-443 | accepted updates add one weighted, transported event and one ring entry; every rejected one - dimension, input, negative weight, non-finite result with rollback - leaves inverse, eta, mu, ring, head, length and time step as they were |
| `FlowThompson.FlowCorrectedThompsonBandit.Record` | crates/contextra-adapt/src/flow_thompson.rs:428-441 | the ring keeps holding exactly the last observations |
| `FlowThompson.WindowInOrder` | crates/contextra-adapt/src/flow_thompson.rs:572-577 | the window loop's index formula visits exactly the last min(n, capacity) accepted observations, oldest first |
| `FlowThompson.RingPush` | crates/contextra-adapt/src/flow_thompson.rs:428-441 | writing at `head` drops the oldest observation of a full ring and no other |
| `FlowThompson.FlowCorrectedThompsonBandit.BuildDriftSystem` | crates/contextra-adapt/src/flow_thompson.rs:560-602 | matrix and right-hand side are the sums over the window; what problem they state, `DriftRegression.LossIsQuadratic` says |
| `DriftRegression.DriftMatrixCoercive` | crates/contextra-adapt/src/flow_thompson.rs:564-602 | the drift matrix is symmetric with xMx >= rho*xx |
| `DriftRegression.LossIsQuadratic` | crates/contextra-adapt/src/flow_thompson.rs:560-602 | the sum over the window of (reward - mu.x - elapsed time * drift.x)^2, plus rho times the square of the drift, is the quadratic of exactly the system that is built |
| `DriftRegression.ResidualBoundsExcess` | crates/contextra-adapt/src/flow_thompson.rs:605-660 | no drift fits the window better than another by more than the square of the other's residual over rho; an exact solution fits best |
| `DriftRegression.SolverFitsBest` | crates/contextra-adapt/src/flow_thompson.rs:532-560 | what the solver returns fits the window at least as well as no drift, and up to its thresholds as well as any |
| `DriftRegression.ShortenedFits` | crates/contextra-adapt/src/flow_thompson.rs:547-557 | clipping a drift that fits no worse than none leaves one that fits no worse than none |
| `FlowThompson.FlowCorrectedThompsonBandit.RecomputeDriftRate` | crates/contextra-adapt/src/flow_thompson.rs:532-558 | the solver's answer is up to its thresholds the best least-squares drift for the window; the new drift rate is that answer, shortened to the norm bound if longer, and fits the window no worse than no drift; an empty window gives zero, a non-finite answer changes nothing |
| `FlowThompson.TransportDoubles` | crates/contextra-adapt/src/flow_thompson.rs:363-369 | a transported reward is off the estimate by twice what the reward is, less what the drift misses: where the fitted drift is perfect, transport doubles the distance |
| `FlowThompson.Clip` | crates/contextra-adapt/src/flow_thompson.rs:547-557 | clipping keeps the direction and never exceeds the bound, up to the solver's negligible length |
| `Agreement.BanditIsRieGreedy` | crates/contextra-adapt/src/bandit.rs:768-814 | LinUCB and RIE-Greedy states with the same history and ridge one are the same state |
| `Agreement.BanditBesideRie` | crates/contextra-adapt/src/bandit.rs:768-814 | built afresh with the same discount and ridge one and fed the same observations with the same adjusted rewards, up to the thousandth, LinUCB and RIE-Greedy accept them all and hold the same inverse and the same estimate |
| `Agreement.FlowIsRieGreedy` | crates/contextra-adapt/src/flow_thompson.rs:363-412 | FC-TS and RIE-Greedy states with the same history and ridge are the same state |
| `Agreement.FlowBesideRie` | crates/contextra-adapt/src/flow_thompson.rs:363-412 | built afresh and fed the same observations - weight equal to the noise variance, no drift rate, discount one - FC-TS and RIE-Greedy hold the same inverse and the same estimate |
| `Agreement.SameEvent` | crates/contextra-adapt/src/flow_thompson.rs:363-368 | an FC-TS observation with weight equal to the noise variance and zero drift is RIE-Greedy's event with discount one |
| `AuditLog.AuditKeyInjective` | crates/contextra-agent/src/audit.rs:103 | an audit key belongs to one task and one step, whatever characters the id contains |
| `AuditLog.CommitKeyInjective` | crates/contextra-agent/src/engine.rs:648 | and a commit key too |
| `AuditLog.KeysApart` | crates/contextra-agent/src/engine.rs:648-702 | audit, commit and final keys never coincide |
| `AuditLog.DecimalReads` | crates/contextra-agent/src/audit.rs:103 | the step in a key is written in decimal, most significant digit first, without a leading zero |
| `AuditLog.ReplayTask` | crates/contextra-agent/src/audit.rs:119-140 | a replay returns exactly the audit entries under its prefix, each once, in step order, and fails exactly above the scan limit |
| `AuditLog.ScanMeets` | crates/contextra-agent/src/audit.rs:122-123 | which audit keys the prefix meets |
| `AuditLog.ReplayExact` | crates/contextra-agent/src/audit.rs:119-140 | a replay returns the task's own entries and no others if and only if no audited task's id, with a colon added, begins with this id and `:step:`; the task's own entries are always among them |
| `AuditLog.ReplayLeak` | crates/contextra-agent/src/audit.rs:122-123 | a concrete pair of tasks where it does not |
| `WorkflowGraph.OutgoingIsRight` | crates/contextra-agent/src/engine.rs:715-740 | after a step: the first enabled edge to the node the tool named if there is one, else the last of the enabled edges of maximal priority; none exactly when no edge is enabled |
| `WorkflowGraph.DecisionIsRight` | crates/contextra-agent/src/engine.rs:753-789 | at a Decision node: the first of the enabled edges of maximal priority; refused exactly when none is enabled, the node without any outgoing edge told apart |
| `WorkflowGraph.LastMaximum` | crates/contextra-agent/src/engine.rs:739 | of several maximal edges the last is taken |
| `WorkflowGraph.SortedFirst` | crates/contextra-agent/src/engine.rs:779-781 | the stable sort by falling priority puts the first maximal edge in front |
| `WorkflowGraph.OpenAfterExactly` | crates/contextra-agent/src/graph.rs:67-108 | which edges are enabled after a step: by the goal if there is one, else by the parsed condition, else always; a condition that does not parse never enables its edge, a blank one counts as none |
| `WorkflowGraph.TwoReadings` | crates/contextra-agent/src/engine.rs:771-777 | at a Decision node the goal plays no part and a blank condition is an expression: an edge always enabled after a step is enabled there only if that expression holds |
| `TokenBudget.SettledExactly` | crates/contextra-agent/src/engine.rs:354-364 | settling leaves exactly the tokens used on the account, over- and underestimates alike, saturation included |
| `TokenBudget.DroppedWithoutMark` | crates/contextra-types/src/types/budget.rs:307-326 | a reservation that is dropped leaves the account as it was |
| `TokenBudget.UsableShare` | crates/contextra-types/src/types/budget.rs:192-198 | the usable part of the limit is four fifths or nineteen twentieths of it, rounded down and never more than it, or the stated number; where the product overflows, that part of the largest word |
| `TokenBudget.GrantedExactly` | crates/contextra-types/src/types/budget.rs:201-255 | a reservation is granted exactly when something is left and what is set aside, consumed and asked for stays within the usable part; granted, it takes exactly its amount |
| `Engine.FirstSuccess` | crates/contextra-agent/src/engine.rs:133-261 | a tool's answer is that of its first successful attempt among those allowed: one, or one more than the retries for a retriable tool while budget is left; none exactly if all of them fail |
| `Engine.AnswersExactly` | crates/contextra-agent/src/engine.rs:133-261 | a handler answers if and only if it is authorised, registered, and one of the attempts it is allowed succeeds; the answer is that of the first such attempt |
| `Engine.RecordKeeps` | crates/contextra-agent/src/engine.rs:374-375 | a commit is written only after that attempt's audit append succeeded, and where no record was |
| `Engine.TurnKeeps` | crates/contextra-agent/src/engine.rs:408-450 | one iteration, whatever fails: no audit entry and no commit changes, and every commit repeats its step's error-free audit entry |
| `Engine.HistoryKeeps` | crates/contextra-agent/src/engine.rs:408-450 | so over every history of attempts, failures and re-runs of any tasks from any contexts |
| `Engine.HistoryKeepsPrefix` | crates/contextra-agent/src/engine.rs:665-684 | every record written at any point of a history is still there, unchanged, at its end |
| `Engine.RerunConflicts` | crates/contextra-agent/src/engine.rs:665-669 | an attempt at a step that already has an audit entry fails and writes nothing |
| `EngineTurn.ObtainsExactly` | crates/contextra-agent/src/engine.rs:263-372 | a turn has a result if and only if it is a Start or Task step below the limit whose setup succeeds, whose estimate the budget covers, and whose tool, authorised and registered, answers in time: the result is that of the first successful attempt, retries needing something left beyond the reservation |
| `EngineTurn.SucceedsExactly` | crates/contextra-agent/src/engine.rs:263-450 | exactly when a turn goes on, when it finishes the run and when it moves the context, over everything that can fail in it; a failing guard is the one failure that leaves the context moved |
| `EngineTurn.WritesExactly` | crates/contextra-agent/src/engine.rs:647-703 | all that a turn writes and must write: the clean audit entry of a result and then its commit, never an error for a step that had a result; else the error entry, with the message and no tokens; at the end the final record; nothing over an audit entry |
| `EngineTurn.EveryRecordIsAccountedFor` | crates/contextra-agent/src/engine.rs:408-450 | over every history, each new record comes from one of its turns: a clean entry or commit from a step that obtained just that result, so by an authorised tool or at a Start node; an error entry from a step that obtained none |
| `EngineRun.GoesOnRightly` | crates/contextra-agent/src/engine.rs:263-404 | an iteration that continues was either a full step - audited afresh, along the right edge - or a move at a Decision node that changed nothing but the node |
| `EngineRun.GoesOnAlongTrail` | crates/contextra-agent/src/engine.rs:408-450 | as long as a run goes on, its hops are a trail through the graph with one new audit entry per step number passed |
| `EngineRun.FinishedRun` | crates/contextra-agent/src/engine.rs:408-450 | a run that ends well stands at an End node, has one new error-free audit entry for each step from the initial to the final step count less one and no other, each the only entry of its step; consecutive entries are joined by Decision nodes along right edges; the final record holds the final step and token count |
| `EngineRun.TrailCovers` | crates/contextra-agent/src/engine.rs:377-404 | each step number a trail passes has exactly one hop, whose audit entry is stored |
| `EngineRun.TurnCost` | crates/contextra-agent/src/engine.rs:297-372 | an iteration raises what is consumed by exactly the tokens of the execution that returned, to the largest machine word at most, and by none if none did, whatever was reserved and however it ends |
| `EngineRun.RunCost` | crates/contextra-agent/src/engine.rs:297-372 | over a run of any length the account grows by the sum of the tokens of exactly the executions that returned |
| `EngineRun.CirclesForEver` | crates/contextra-agent/src/engine.rs:438-447 | a run that comes back to a Decision node without a step in between never ends |
| `EngineRun.EndlessExactly` | crates/contextra-agent/src/engine.rs:408-450 | and these are the only endless runs: of each single run, it is endless if and only if it ever circles |
| `EngineRun.EndsInTime` | crates/contextra-agent/src/engine.rs:34-34 | any other run ends within a number of turns known from the graph and the step count |
| `EngineRun.EveryRunEnds` | crates/contextra-agent/src/engine.rs:408-450 | on a graph whose every cycle contains a node that is not a Decision node every run ends in that time, whatever storage and tools do |
| `EngineRun.Livelock` | crates/contextra-agent/src/engine.rs:438-447 | a concrete graph on which runs are endless, the step limit notwithstanding: two Decision nodes |
| `Termination.EndsExactly` | crates/contextra-agent/src/engine.rs:408-450 | for every graph: every run on it ends - under all conditions, tools, storage and contexts - if and only if it holds no trap, a set of Decision nodes each with an edge into the set that some conditions make it take |
| `Termination.CircleIsTrap` | crates/contextra-agent/src/engine.rs:438-447 | the nodes of a circling run form a trap |
| `Termination.TrappedForEver` | crates/contextra-agent/src/engine.rs:753-789 | in a trap, conditions that hold for one picked edge per node keep the run going for any number of turns |
| `Termination.EndingRunsAreShort` | crates/contextra-agent/src/engine.rs:408-450 | a run that ends at all does so within a number of turns known from the graph and the step count |
| `Orchestrator.AgentContext.ExecuteToolWithRetries` | crates/contextra-agent/src/engine.rs:133-261 | the loop returns r if and only if the handler is authorised and registered and r is the result of the first successful attempt, all after the first being retries of a retriable tool with budget left |
| `Orchestrator.AgentContext.ExecuteStartOrTaskStep` | crates/contextra-agent/src/engine.rs:263-406 | the method, updating budget, memory, store and position in place, performs exactly the specified step |
| `Orchestrator.AgentContext.Iterate` | crates/contextra-agent/src/engine.rs:411-449 | so does one iteration of the loop |
| `Orchestrator.AgentContext.Run` | crates/contextra-agent/src/engine.rs:124-131 | `run` returns from every run that is not endless; its turns are those the theorems are about, it returns Ok exactly if the last one finished, and the status is Failed otherwise |
| `Orchestrator.AgentContext.AppendTo` | crates/contextra-agent/src/audit.rs:98-110 | put-if-absent after validation |
| `OffPolicy.NewPolicy` | crates/contextra-adapt/src/offpolicy.rs:31-36 | epsilon outside [0, 1] becomes the nearer end, no actions become one, and legal parameters are kept |
| `OffPolicy.ComputePropensities` | crates/contextra-adapt/src/offpolicy.rs:39-49 | the vector holds each action's propensity |
| `OffPolicy.IsDistribution` | crates/contextra-adapt/src/offpolicy.rs:39-49 | the propensities add up to one if and only if the greedy action is in range or never taken |
| `OffPolicy.PicksOnSpans` | crates/contextra-adapt/src/offpolicy.rs:53-70 | for every sample: it picks an action exactly when, clamped, it lies in that action's spans; the clamp makes no difference below it, nor, for epsilon up to it, anywhere below 1 |
| `OffPolicy.SpansApart` | crates/contextra-adapt/src/offpolicy.rs:53-70 | the spans of distinct actions are disjoint |
| `OffPolicy.LengthIsPropensity` | crates/contextra-adapt/src/offpolicy.rs:53-70 | the spans' total lengths add up to one; they are the reported propensities for every action if and only if the greedy action is in range or never taken |
| `OffPolicy.LoggedIsLength` | crates/contextra-adapt/src/offpolicy.rs:53-70 | for every sample: the propensity returned beside an action is the total length of that action's spans, except that for a greedy action out of range action 0 is logged with 1 - epsilon too little |
| `OffPolicy.OffPolicyEvaluator.Observe` | crates/contextra-adapt/src/offpolicy.rs:110-131 | the accumulators are those of the log, discarded samples included |
| `OffPolicy.OffPolicyEvaluator.Estimate` | crates/contextra-adapt/src/offpolicy.rs:134-136 | the estimate is the log's IPS total over its length, zero for an empty log |
| `OffPolicy.MeanEstimate` | crates/contextra-adapt/src/offpolicy.rs:53-136 | over all logs for any list of contexts - each event the action and the propensity that one selection returned, each action as probable as its spans are long - the estimate is on average the mean of the target rewards, each times its target's probability over max(reported propensity, 0.01) |
| `OffPolicy.UnbiasedExactly` | crates/contextra-adapt/src/offpolicy.rs:53-136 | for every list of contexts: the estimate is unbiased under all rewards if and only if each target's probability equals max(reported propensity, 0.01); with greedy actions in range, if and only if no target's probability is below 0.01 |
| `RankMetrics.NdcgAtK` | benchmarks/contextra-bench/src/beir_eval.rs:185-211 | the two loops compute discounted gain over ideal gain |
| `RankMetrics.MapAtK` | benchmarks/contextra-bench/src/beir_eval.rs:214-236 | the loop computes the mean of the precisions at the hits |
| `RankMetrics.RecallAtK` | benchmarks/contextra-bench/src/beir_eval.rs:239-258 | the loop computes hits over min(k, relevant) |
| `RankMetrics.NdcgIsNormalised` | benchmarks/contextra-bench/src/beir_eval.rs:185-211 | while the hits among the first k are no more than the relevant documents, NDCG is in [0, 1], and 1 if and only if the first min(k, relevant) results are all relevant |
| `RankMetrics.NdcgIsBoundedExactly` | benchmarks/contextra-bench/src/beir_eval.rs:185-211 | NDCG is at most 1 under every falling discount if and only if the hits are no more than the relevant documents |
| `RankMetrics.DistinctIsWithin` | benchmarks/contextra-bench/src/beir_eval.rs:185-211 | in a ranking without repetitions they never are |
| `RankMetrics.NdcgOfRepeats` | benchmarks/contextra-bench/src/beir_eval.rs:185-211 | a ranking whose NDCG exceeds 1 under every discount |
| `RankMetrics.MovingUpHelps` | benchmarks/contextra-bench/src/beir_eval.rs:185-211 | moving a relevant result up never lowers NDCG, and raises it exactly when it passes an irrelevant result within the first k |
| `RankMetrics.HitsAreFound` | benchmarks/contextra-bench/src/beir_eval.rs:222-227 | hits count the relevant documents among the results, at most as many as there are |
| `RankMetrics.MapIsNormalised` | benchmarks/contextra-bench/src/beir_eval.rs:214-236 | under the same bound on the hits MAP is in [0, 1], and 1 exactly when NDCG is |
| `RankMetrics.PrecisionsAreShared` | benchmarks/contextra-bench/src/beir_eval.rs:214-228 | the precisions at the hits, counted the other way round: each relevant result contributes the reciprocal ranks of the relevant results from it on |
| `RankMetrics.MovingUpHelpsMap` | benchmarks/contextra-bench/src/beir_eval.rs:214-236 | moving a relevant result up past an irrelevant one never lowers MAP, raises it exactly when it arrives within the first k, and by a stated amount |
| `RankMetrics.RecallIsNormalised` | benchmarks/contextra-bench/src/beir_eval.rs:239-258 | for every ranking: Recall is not negative, at most 1 if and only if the hits are no more than the relevant documents, and 1 if and only if they are min(k, relevant) |
| `Lyapunov.ComputeKlDivergence` | crates/contextra-adapt/src/lyapunov.rs:229-261 | the histogram and summation loops compute the capped, smoothed divergence |
| `Lyapunov.AllCounted` | crates/contextra-adapt/src/lyapunov.rs:233-241 | every score is counted in exactly one bin |
| `Lyapunov.BinExactly` | crates/contextra-adapt/src/lyapunov.rs:233-241 | the bins are the tenths of the unit interval, the first and the last taking in what lies outside |
| `Lyapunov.TermExactly` | crates/contextra-adapt/src/lyapunov.rs:248-254 | a bin counts p*ln(p/q), and ten where that is more |
| `Lyapunov.DivergenceIsExact` | crates/contextra-adapt/src/lyapunov.rs:247-260 | the clamp to [0, 100] never acts, and the divergence is zero exactly when both samples fill the bins in the same shares |
| `Lyapunov.PositiveExponent` | crates/contextra-adapt/src/lyapunov.rs:263-281 | whatever the window holds, the exponent is positive exactly when the product of its step ratios exceeds one |
| `Lyapunov.ExponentOfGrowth` | crates/contextra-adapt/src/lyapunov.rs:263-281 | a window whose divergences change by one factor throughout has the logarithm of that factor as its exponent |
| `Lyapunov.Telescopes` | crates/contextra-adapt/src/lyapunov.rs:263-281 | over any window the product telescopes to its floored ends, times one correction factor for each step where a floor interferes |
| `Lyapunov.EndsCorrected` | crates/contextra-adapt/src/lyapunov.rs:263-281 | so for any window: positive exactly when the newest divergence, corrected, exceeds the oldest |
| `Lyapunov.OnlyEndsCount` | crates/contextra-adapt/src/lyapunov.rs:263-281 | when no divergence is negligible, absolutely or beside its predecessor, there is nothing to correct: positive exactly when the newest exceeds the oldest |
| `Lyapunov.VanishingResets` | crates/contextra-adapt/src/lyapunov.rs:263-281 | with a divergence of zero in the middle of a window of two, positive exactly when the newest exceeds one, whatever the oldest |
| `Lyapunov.LyapunovDriftWatcher.SetBaseline` | crates/contextra-adapt/src/lyapunov.rs:168-173 | setting a baseline leaves the anchor alone in the window |
| `Lyapunov.LyapunovDriftWatcher.Update` | crates/contextra-adapt/src/lyapunov.rs:176-227 | the history is always the last w + 1 entries of [0, D1, D2, ...]; the verdict is that of the window; without a set baseline the first non-empty update supplies it |
| `Lyapunov.SilentUntilFull` | crates/contextra-adapt/src/lyapunov.rs:208-212 | after a baseline has been set exactly the first w - 1 measurements give InsufficientData |
| `Lyapunov.DetectsExactly` | crates/contextra-adapt/src/lyapunov.rs:208-227 | what the watcher reports on any divergences, once there are w of them: drift exactly when the newest in the window, corrected, exceeds the oldest |
| `Lyapunov.DetectsGrowth` | crates/contextra-adapt/src/lyapunov.rs:208-227 | once the anchor has left a steady window, DriftDetected holds exactly when the newest divergence exceeds the one w measurements earlier |
| `Lyapunov.FirstWindowAlarms` | crates/contextra-adapt/src/lyapunov.rs:124-124 | while it is still there, in a steady first full window, DriftDetected holds for any newest divergence above 1e-10, that of a falling series included |
| `Lyapunov.VanishingHidesGrowth` | crates/contextra-adapt/src/lyapunov.rs:176-281 | three batches of scores whose last divergence exceeds the first, with no drift reported |
| `Catoni.CatoniDriftDetector.constructor` | crates/contextra-adapt/src/drift.rs:61-69 | a threshold below 1e-6 becomes that, alpha outside [0.001, 0.5] the nearer end, and the detector is fresh |
| `Catoni.CatoniDriftDetector.Reset` | crates/contextra-adapt/src/drift.rs:72-75 | a reset detector is fresh again |
| `Catoni.CatoniDriftDetector.Observe` | crates/contextra-adapt/src/drift.rs:79-98 | the method performs one step and reports whether the accumulator has reached the threshold |
| `Catoni.MovesLittle` | crates/contextra-adapt/src/drift.rs:80-83 | one observation of any size moves the estimate by less than alpha, towards the reward and not past it |
| `Catoni.MovesExactly` | crates/contextra-adapt/src/drift.rs:79-83 | by how much: alpha times the distance, over one plus its size |
| `Catoni.GathersExactly` | crates/contextra-adapt/src/drift.rs:85-91 | an estimate more than 0.05 off adds what it is beyond that; one within takes off 0.01, as far as there is |
| `Catoni.Fades` | crates/contextra-adapt/src/drift.rs:85-91 | with estimate and rewards back within 0.05 of the baseline the accumulator falls by 0.01 at every observation until nothing is left |
| `Catoni.AccumulatesSlowly` | crates/contextra-adapt/src/drift.rs:79-98 | after n observations of any size the accumulator is at most the sum of max(0, k*alpha - 0.05) over k up to n |
| `Catoni.TenAreNeeded` | crates/contextra-adapt/src/drift.rs:79-98 | with the defaults no stream of fewer than ten observations signals |
| `Catoni.TenCanSuffice` | crates/contextra-adapt/src/drift.rs:79-98 | and ten can suffice |
| `Catoni.NearBaselineNeverSignals` | crates/contextra-adapt/src/drift.rs:79-98 | streams within 0.05 of the baseline never signal, of any length and under any legal parameters |
| `Catoni.OneOutlierNeverSignals` | crates/contextra-adapt/src/drift.rs:79-98 | nor, for alpha up to 0.05, does one arbitrary outlier after baseline rewards and before rewards near the baseline |
| `Pid.PidController.constructor` | crates/contextra-adapt/src/pid.rs:99-120 | the gains, the floor raised to 50, the ceiling raised to the floor, the initial pool clamped or none |
| `Pid.PidController.ResetState` | crates/contextra-adapt/src/pid.rs:159-163 | integral, remembered error and pool are forgotten |
| `Pid.PidController.Update` | crates/contextra-adapt/src/pid.rs:125-151 | the method performs one regulation step; non-finite latencies change nothing |
| `Pid.PidController.UpdateWithAntiWindup` | crates/contextra-adapt/src/pid.rs:167-198 | the same for the variant that holds the integral while saturated |
| `Pid.AlwaysBounded` | crates/contextra-adapt/src/pid.rs:99-198 | over any sequence of operations, under any gains, the pool stays in [min, max] with min at least 50 and the integral in [-100, 100] |
| `Pid.RoundsToNearest` | crates/contextra-adapt/src/pid.rs:140-140 | the size is rounded to the nearest whole number, and from the middle away from zero |
| `Pid.ControlParts` | crates/contextra-adapt/src/pid.rs:131-136 | the control signal is kp times the error plus ki times the integral, plus kd times the rate of change over an interval clamped to [0.001, 10] seconds |
| `Pid.TwoVariants` | crates/contextra-adapt/src/pid.rs:125-198 | the two variants agree on the pool unless told of saturation; `update` takes the integral over exactly when the size asked for is within bounds, the other whenever it is not told of saturation |
| `Pid.HeldWhileSaturated` | crates/contextra-adapt/src/pid.rs:180-184 | over any run of saturated measurements the integral stays where it is |
| `Pid.ReachesFloor` | crates/contextra-adapt/src/pid.rs:125-151 | from a fresh controller, latencies at least 1 ms over target that do not fall shrink the pool at every measurement down to the floor, reached within (initial - min) measurements and held |
| `Pid.ReachesCeiling` | crates/contextra-adapt/src/pid.rs:125-151 | the mirror statement for the ceiling |
| `Basics.Clamped` | crates/contextra-adapt/src/pid.rs:131-134 | clamping moves a value that is out of bounds to the nearer bound, and no other |
| `Basics.Extremes` | crates/contextra-adapt/src/drift.rs:65-65 | maximum, minimum and absolute value are among their arguments, up to sign, and bound them |

## Left out
- Floating point: rounding, overflow and the order of summation. Non-finite values enter as flags the caller supplies.
- `SketchedProjection` and `DiagonalApproximation` of `bandit.rs`, and the sketch matrices: other branches of the same methods.
- `cold_start` with dimension 0, on which the original's row iteration cannot run.
- The 64-bit width of the update, step and time counters, too wide for a history to fill. The token budget's saturation is modelled.
- Sampling in FC-TS (`sample_score`, `select_arm`), the shadow sink, `predict` and `trace_precision_inv`: products of the modelled vectors, or randomness.
- The recursion limit of the Python interpreter in `scc`; the regular expression that cuts a `use` text into tokens, and everything in the tool before and after.
- In the line rewriter the test for a trailing `unsafe {` is implied by the test for `unsafe` and not modelled apart from it.
- The rest of the build script, which applies the rewriter to each line of a file.
- `replay_from`, checkpoints and orphan recovery beyond the fact that they may fail: their effect lives in stores that are not part of this model.
- The dead-letter queue, tracing, clocks, waiting between attempts and the routing outcome: they do not feed back into a run.
- Concurrency inside a turn: one task at a time uses its context, as the exclusive borrow of the context demands. Turns of different tasks interleave freely in a history.
- Orchestrator.AgentContext.Run: speaks of the runs that end, because an endless one leaves no final state; `Termination.EndsExactly` says on which graphs these are all runs.
- Tools that use the token budget themselves during an attempt, and tool manifests beyond retries and authorisation.
- The transaction id and the clock fields of the records, and the memory and status a commit or final record also carries.
- Validation of ids, payloads and messages, the condition and goal evaluators, and blank texts: arbitrary predicates.
- The context's telemetry events, the scratchpad beyond the fact that its reset may fail, and the event loop around `run`.
- Migration of legacy audit entries, and malformed entries in a replay.
- RankMetrics: that 1/log2(i + 2) is positive and strictly falling is taken as the definition of a discount; loading of corpora and the benchmark driver are left out.
- Lyapunov: that the natural logarithm meets `IsLog` is taken as its definition; the status texts and the coupling to the learners are left out.
- The ensemble of the two drift detectors, the decay controller, the latency controller, the homeostat and the shadow-mode comparison: easier, or resting on stores that are not part of this model.
- Durations are seconds as reals.
