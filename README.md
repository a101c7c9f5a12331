# LibOPT common routines: a Dafny model

This project models the shared core of LibOPT, a C library of population-based
optimisation techniques: particle swarm optimisation (PSO), the bat algorithm (BA),
flower pollination (FPA), the firefly algorithm (FA), the genetic algorithm (GA) and
genetic programming (GP). Everything modelled comes from `src/common.c`:

- **Agents.** `CreateAgent` allocates an agent and its zeroed buffers. `CopyAgent`
  deep-copies one. `CheckAgentLimits` clamps a position into the search space's
  bounds in place. `GenerateNewAgent` builds the bat algorithm's perturbed agent.
  `CompareForQSort` is the fitness comparator.
- **The search space.** `CreateSearchSpace` builds either m agents and a zeroed
  global best, or m GP trees plus one binding agent per terminal.
  `EvaluateSearchSpace` makes one evaluation pass. It keeps each agent's best
  fitness (and, for PSO, its best position) and the global best.
- **The GP tree engine.** This covers the arity table `N_ARGS_FUNCTION`,
  `getFUNCTIONid`, `CreateNode`, the `GROW` generator, `DestroyTree`, the batched
  evaluator `RunTree`, and the prefix printers `PreFixPrintTree4File` and
  `PrintTree2File`.
- **The model-file reader.** `WaiveComment`.

How the C code is modelled:
- **Agents and search spaces are classes.**
  - An agent's position `x` is an `array<real>`. Its optional velocity `v` and
    personal best `xl` are `array?<real>`, where `null` means "not allocated".
  - The search space's `g`, `LB` and `UB` are arrays.
  - Its pointer tables are sequences: the agents `a` and the trees `T`.
  - Fields that no routine of `src/common.c` reassigns after creation are `const`.
    That includes the agent table `a`, which this model never reorders.
- **`exit(-1)` becomes an outcome.** At the level of the library's entry points a
  process exit is the outcome `Exited`, including the NULL-argument guards.
  Inside the tree module the undefined-operator exit of `getFUNCTIONid` is
  `FunctionId`'s `None`, which `Grow` and `GrowMany` carry as `Fatal(name)`.
  `CreateSearchSpace` turns that into `Exited`. The two in-place methods `CheckAgentLimits` and
  `EvaluateSearchSpace` return no value in the source, so they report an exit
  as a boolean `exited` instead.
- **Randomness becomes parameters.**
  - `GROW`'s uniform draws are a sequence of naturals. When that sequence runs out,
    or holds an index outside the table it picks from, the result is `DrawFailed`
    (`OracleFailed` at the search-space level). For tables with at least one
    terminal, and at least one constant when CONST is a terminal, this outcome
    exists only in the model: the library's generator always gives an in-range
    draw there. The other tables are listed under "Left out" (`Trees.Grow`).
  - The bat algorithm's uniform draws are a sequence `u`.
- **Trees are values.** A GP tree is a `datatype Tree` with `Nil` for a null child.

In three places the code does less than its comments and function names suggest. The model follows
the code:
- `CopyAgent` for GP returns NULL, because the copy goes to the default branch and is
  released again. It does not deep-copy.
- `CopyAgent` with an unrecognised identifier terminates the process. `CreateAgent`
  returns NULL there, and the cleanup branch then passes that NULL to `DestroyAgent`,
  which exits. It does not simply fail.
- `RunTree` has the two defects listed under Findings.

## Model

| member | source | states |
|---|---|---|
| Common.Decode | src/common.c:27-43 | The technique switch: an identifier names a technique exactly when it is one of the six listed tags, and `Id` maps that technique back to the identifier. |
| Agents.Agent.Alloc | src/common.c:19-36 | A fresh agent of dimension n. `x` is n zeros. `v` is present (zeroed) exactly for non-GP techniques. `xl` is present (zeroed) exactly for PSO. `fit` and `pfit` are DBL_MAX. No two buffers alias. |
| Agents.CreateAgent | src/common.c:13-46 | Null exactly when n < 1, opt_id < 1 or the identifier is unrecognised. Otherwise a fresh agent as Alloc describes. |
| Agents.CopyAgent | src/common.c:102-129 | A null agent or an unrecognised identifier exits. GP gives null. For the five vector techniques: a fresh agent with the same n, x and v (and xl for PSO), with fit and pfit reset to DBL_MAX. |
| Agents.CopyBuffer | src/common.c:117-119 | The memcpy of one buffer into another of the same length; the copy loops at 391-392, 404-405 and 410-411 use it too. Afterwards the destination holds the source's contents. |
| Agents.CompareForQSort | src/common.c:494-502 | -1, 1 or 0 exactly when a.fit is less than, greater than or equal to b.fit. |
| Agents.CompareAntisymmetric | src/common.c:494-502 | Swapping the arguments negates the result. |
| Agents.CompareTransitive | src/common.c:494-502 | "Not after" is transitive, so the comparator is a total preorder by fitness. |
| SearchSpaces.CreateSearchSpace | src/common.c:180-246 | Null exactly when m < 1, n < 1, opt_id < 1 or the identifier is unrecognised. Exited exactly when GROW meets an undefined operator. Otherwise gfit is DBL_MAX, LB and UB are fresh, and there are either m zeroed, unaliased agents and a zeroed g of length n, or the m trees GrowMany builds from the draws and one GP agent per terminal. |
| SearchSpaces.CreateVectorSpace | src/common.c:196-217 | The first agent decides whether the identifier is recognised. If it is, m agents as CreateAgent leaves them, pairwise unaliased, plus a zeroed global best that no agent owns. |
| SearchSpaces.ExtendPool | src/common.c:200-201 | Appending count fresh CreateAgent agents keeps the earlier ones and yields a pool of zeroed, DBL_MAX-fitness agents that share no buffer. |
| SearchSpaces.AddAgent | src/common.c:200-201 | One CreateAgent call inside the population loops (also 234-235): a fresh zeroed agent whose buffers are none of the pool's, so the pool stays separated. |
| SearchSpaces.SearchSpace.Vector | src/common.c:191-217 | The vector-technique search space: m, n, gfit = DBL_MAX, the agent pool, and a fresh zeroed g of length n that is neither bound nor any agent's buffer. |
| SearchSpaces.SearchSpace.Forest | src/common.c:219-241 | The GP search space: its trees, depth range, tables, one agent per terminal and fresh bound buffers. |
| SearchSpaces.CreateTreeSpace | src/common.c:219-236 | GP creation exits exactly when GrowMany is Fatal. Otherwise T is GrowMany's trees, each well formed and within the depth range, and there is one GP agent per terminal. |
| SearchSpaces.GrowTrees | src/common.c:229-231 | The tree loop computes GrowMany, stopping at the first failure. |
| SearchSpaces.GrowManyFailureStays | src/common.c:229-231 | Once growing the first k trees fails, growing more trees fails the same way. |
| SearchSpaces.SearchSpace.DestroyTree | src/common.c:678-686 | The slot becomes empty, and an empty slot is left as it is. The children's release is subsumed by dropping the value. |
| SearchSpaces.Clamp | src/common.c:93-94 | Below LB[j] gives LB[j]. Otherwise, above UB[j] gives UB[j]. Inside the range the value is unchanged. With LB[j] <= UB[j] the result is in range. |
| SearchSpaces.Clamped | src/common.c:92-95 | The position CheckAgentLimits leaves: Clamp applied to each component, with the same length. Its properties are the lemmas below. |
| SearchSpaces.CheckAgentLimits | src/common.c:84-96 | A null space or agent exits. Otherwise x becomes Clamped(old x, LB, UB) in place, and the agent's other fields and buffers are unchanged. |
| SearchSpaces.ClampedWithinBounds | src/common.c:92-95 | With LB[j] <= UB[j] every component ends in [LB[j], UB[j]]. |
| SearchSpaces.ClampedKeepsInRange | src/common.c:92-95 | Components already in range are untouched. |
| SearchSpaces.ClampedIdempotent | src/common.c:92-95 | With LB[j] <= UB[j], clamping twice equals clamping once. |
| SearchSpaces.ClampedNotIdempotentOnInvertedBounds | src/common.c:92-95 | Without LB[j] <= UB[j], idempotence fails: LB = [2], UB = [1], x = [0]. |
| SearchSpaces.Perturb | src/common.c:151-152 | Each component is g[j] plus 0.001 times the draw. With a draw in [0, 1] it stays within [g[j], g[j] + 0.001]. |
| SearchSpaces.GenerateNewAgent | src/common.c:135-167 | A null space exits. BA gives a fresh BA agent whose x is Perturb(g, u), with zero velocity and DBL_MAX fitness. Every other identifier, recognised or not, gives null. |
| Evaluation.Improved | src/common.c:386-387 | The new fitness is the smaller of f and the old fitness, and it is below the old one exactly when f is. |
| Evaluation.GlobalBest | src/common.c:389-412 | The global-best update folded over the agents in order: an agent whose updated fitness is strictly below the running best replaces gfit and g with its fitness and position. It is the reference that GlobalBestIsMinimum and GlobalBestSource describe. |
| Evaluation.GlobalBestIsMinimum | src/common.c:389-393 | After the pass the global best fitness is at most its start value and at most every agent's fitness. |
| Evaluation.GlobalBestSource | src/common.c:383-396 | The global best is either the start value, or the first agent that reaches the minimum, with its position. |
| Evaluation.UpdateGlobalBest | src/common.c:389-393 | A strictly better agent replaces gfit and g; otherwise both stay. |
| Evaluation.EvaluateAgent | src/common.c:384-393 | One BA/FPA/FA/GA iteration: agent i's fitness is Improved, the global best follows, and no other agent and no position changes. |
| Evaluation.EvaluateParticle | src/common.c:400-412 | One PSO iteration: as EvaluateAgent, and xl becomes x exactly when the evaluation beat the old fitness. No other personal best changes. |
| Evaluation.AgentStep | src/common.c:384-395 | One iteration of the BA/FPA/FA/GA loop. If the first i agents are done (fits Improved, positions unchanged, global best GlobalBest over them), then after it the first i + 1 are. |
| Evaluation.SwarmStep | src/common.c:400-414 | One iteration of the PSO loop: as AgentStep, and agent i's personal best becomes its position exactly when it improved. |
| Evaluation.EvaluateAgents | src/common.c:379-397 | BA/FPA/FA/GA pass: every fit is Improved(Evaluate(x), old fit), (gfit, g) is GlobalBest over the agents in order, and personal bests are untouched. |
| Evaluation.EvaluateSwarm | src/common.c:398-416 | PSO pass: as EvaluateAgents, and each xl becomes x exactly when that agent improved. |
| Evaluation.EvaluatePass | src/common.c:378-416 | Dispatches PSO to EvaluateSwarm and BA/FPA/FA/GA to EvaluateAgents, with both postconditions. |
| Evaluation.EvaluateSearchSpace | src/common.c:367-422 | A null space exits. PSO, BA, FPA, FA and GA make the pass above. Any other identifier changes no fitness, no gfit and no g. |
| ModelFile.LineEndSkipsOneLine | src/common.c:510-511 | The skipped text holds no newline except its last character. Skipping stops before the end only just after a newline. |
| ModelFile.LineEnd | src/common.c:507-513 | The reference for WaiveComment: the position just past the first newline at or after pos, or the end of the input. |
| ModelFile.WaiveComment | src/common.c:507-513 | The read position ends just past the first newline at or after it, or at the end of the file. |
| Trees.FunctionId | src/common.c:585-598 | An identifier exactly for the eight operator names, and it indexes that name in the operator table. Any other name is the fatal case. |
| Trees.FunctionIdOfOperator | src/common.c:585-593 | getFUNCTIONid inverts the operator table. |
| Trees.Arity | src/common.c:4-6 | SUM, SUB, MUL and DIV take two children; EXP, SQRT, LOG and ABS take one; other names have none. |
| Trees.ArityTable | src/common.c:4-6 | N_ARGS_FUNCTION read through getFUNCTIONid: 2 for the first four operators, 1 for the last four. |
| Trees.CreateNode | src/common.c:607-624 | A childless node, marked as a left child, with the given name, index and status. |
| Trees.Draw | src/common.c:641-653 | A uniform integer draw, as `round(GenerateUniformRandomNumber(0, bound - 1))` makes at 641, 643, 649 and 653: the next draw, when it is below bound, and the remaining draws. |
| Trees.GrowLeaf | src/common.c:650-657 | A CONST terminal becomes a Constant leaf with a drawn constant index. Any other terminal becomes a Terminal leaf with that index. |
| Trees.Grow | src/common.c:631-673 | A built tree is well formed: children match the arity table, only the first is a left child, and leaves index the tables. Its height is at most maxDepth - minDepth, and it is a leaf when the two depths are equal. An undefined operator name is fatal. |
| Trees.GrowMany | src/common.c:229-231 | count well-formed trees of bounded height, or the fatal operator name. |
| Trees.GrowUndefinedFunctionIsFatal | src/common.c:659-661 | Drawing an operator name outside the table terminates the process. |
| Trees.GrowWithoutLeaves | src/common.c:640-656 | With no terminal other than CONST and no constants, no draw sequence grows a tree: every path ends at a leaf draw over an empty range. |
| Trees.GrowConstWithoutConstants | src/common.c:640-656 | With a CONST terminal and an empty constant table, a draw that picks CONST fails, both at the leaf level and below it, whatever other terminals there are. |
| TreePrint.PrintTree2File | src/common.c:693-705 | An empty tree exits. Otherwise the file gains exactly the prefix text and a newline. |
| TreePrint.PreFix | src/common.c:712-721 | The prefix text of a tree, as PreFixPrintTree4File writes it. It is empty exactly for the empty tree. |
| TreePrint.Atom | src/common.c:715-716 | What a node prints for itself: its constant formatted with `%lf` for a constant node, else its name. |
| TreePrint.PreFixWrapped | src/common.c:714-719 | A non-terminal node's text starts with "(" and ends with ")". A terminal's text starts with its name and a space. |
| TreePrint.PreFixNode | src/common.c:712-721 | A node prints "(" when not a terminal, then its atom and a space, its left text, its right text, and ")" when not a terminal. |
| TreePrint.PreFixParenCount | src/common.c:712-721 | The text holds one "(" and one ")" per non-terminal node. |
| TreePrint.PreFixBalanced | src/common.c:712-721 | The parentheses of the prefix text are balanced. |
| TreePrint.PreFixSumExample | src/common.c:712-721 | SUM over terminals x0 and x1 prints "(SUM x0 x1 )". |
| TreeEval.Dispatch | src/common.c:746-760 | The string dispatch of an operator node. A name outside the operator table gives null, and so does ABS when the ABS case is off. |
| TreeEval.Evaluate | src/common.c:727-767 | The evaluator shared by the corrected variants. A null tree gives null. A leaf gives a vector of n components. An operator node with a name outside the table gives null. |
| TreeEval.RunTree | src/common.c:727-767 | RunTree with the terminal case corrected and the dispatch as written. Leaves give vectors of length n. An ABS node, or a name outside the table, gives null. |
| TreeEval.RunTreeWithAbs | src/common.c:727-767 | RunTree with the ABS case added as well. It agrees with RunTree on leaves, and on every tree without an ABS node (RunTreeWithAbsAgrees). |
| TreeEval.RunTreeWithAbsAgrees | src/common.c:746-760 | Adding the ABS case changes the result only of trees that contain an ABS node. |
| TreeEval.RunTreeAsWritten | src/common.c:727-767 | RunTree exactly as written: null for a null tree, a fault at every terminal node (the store through the null `out`), the constant and dispatch cases unchanged. |
| TreeEval.RunTreeLeaves | src/common.c:735-744 | A null tree gives null. A constant leaf gives n copies of its constant. A terminal leaf gives its agent's x (the corrected terminal case). |
| TreeEval.RunTreeOperator | src/common.c:745-760 | An operator node applies its operator to the children's results: binary operators to both, unary ones to whichever is non-null. Any other name, including ABS, gives null. |
| TreeEval.RunTreeLength | src/common.c:727-767 | Every non-null result has n components when the operators keep lengths. |
| TreeEval.WellFormedIndexed | src/common.c:641-656 | Leaves of a tree GROW builds index the terminal and constant tables. |
| TreeEval.WellFormedTreesEvaluate | src/common.c:745-760 | With the ABS case added and total operators, every tree GROW can build evaluates to a vector of length n. |
| TreeEval.AbsTreeYieldsNull | src/common.c:740-760 | A well-formed unary ABS node over a leaf. The evaluator with the repaired terminal case gives null, but it gives a vector once the ABS case is added. As written, the node gives null over a constant leaf and faults over a terminal leaf. |
| TreeEval.AsWrittenTerminalFaults | src/common.c:740-743 | As written, every tree that mentions a terminal faults: the terminal branch stores into the still-null out. |
| TreeEval.AsWrittenAgreesWithoutTerminals | src/common.c:731-767 | On trees without terminals, the code as written and the corrected evaluator agree. |
| TreeEval.RunTreeTerminalCopies | src/common.c:740-743 | A terminal leaf: the corrected evaluator copies the agent's x, while the code as written faults. |
| TreeEval.RunTreeExamples | src/common.c:727-767 | A constant 5.0 over n = 3 gives [5, 5, 5]. SUM of terminals bound to [1, 2, 3] and [4, 5, 6] gives [5, 7, 9]. |

## Left out

- Levy, EuclideanDistance, GenerateUniformRandomNumber, GenerateGaussianRandomNumber: numeric kernels outside this core. Their draws reach the model as parameter sequences.
- InitializeSearchSpace, ReadSearchSpaceFromFile, ShowSearchSpace: file and console I/O. Only WaiveComment, the reader's line skipper, is modelled, over the file's contents and a read position.
- DestroyAgent, DestroySearchSpace: memory release, which has no counterpart over garbage-collected objects. DestroyTree is modelled as emptying the slot.
- Floating point: doubles are reals. NaN, rounding and overflow are not modelled. `%lf` formatting is a parameter `fmt`.
- Evaluate: the fitness callback is a pure function of the position. The source passes the whole agent and a `va_list` of extra arguments. Both are unmodelled, and so is any effect of the callback on the agent.
- The elementwise operators f_SUM_ … f_LOG_: their definitions are not part of this model. They are a parameter record, with their length and totality behaviour as hypotheses.
- Technique parameters (inertia, loudness, etc.) and the Node parent pointer: neither is read by the modelled operations.
- The counts n_terminals, n_constants and n_functions: the lengths of the terminal, constant and function tables stand in for them.
- The technique identifiers: the header that defines `_PSO_` … `_GA_` is not part of this model. The values PSO = 1, BA = 2, FPA = 3, FA = 4, CS = 5, GP = 6, GA = 7 are assumed. Nothing proved depends on them beyond being distinct and at least 1. The operator identifiers `_SUM_` = 0 … `_ABS_` = 7, which index `N_ARGS_FUNCTION`, are assumed in the order the comment at src/common.c:4-5 lists them; `Arity` and `FunctionId` rely on that order.
- CreateSearchSpace: LB and UB come from malloc and are uninitialised. The model promises only their length. For GP the source leaves g unset, and for the vector techniques it leaves T unset; the model uses null and the empty sequence.
- SearchSpaces.CreateSearchSpace, SearchSpaces.CreateTreeSpace, Trees.Grow, Trees.GrowMany: require min_depth <= max_depth for genetic programming. The source does not check the depths it reads. With min_depth > max_depth, GROW never reaches its forced-leaf branch, so the recursion ends only when the draws happen to pick terminals. The model does not cover that case.
- Trees.Grow: empty tables are not modelled as the source behaves. The model reports `DrawFailed` (`OracleFailed` from CreateSearchSpace) where the source reads or returns an index outside a table:
  - No terminals at all. The source's draw spans the empty range 0 .. -1 and reads `terminal[aux]` outside the table. The model grows no tree for any draw sequence (GrowWithoutLeaves); the result is `DrawFailed`, or `Fatal` if an undefined operator name is drawn first.
  - Any CONST terminal with an empty constant table, whatever other terminals there are. A draw that picks CONST gets an out-of-table `const_id` in the source, which returns that CONSTANT node. The same draw is `DrawFailed` in the model (GrowConstWithoutConstants). When CONST is the only terminal, no tree grows at all (GrowWithoutLeaves).
- GROW with a null search space returns NULL in the source. The model's Grow always has its tables: its only caller passes a live search space.
- CreateNode: the NULL-value guard (which also leaks the node) is unreachable, because names are sequences.
- The stderr messages of every error branch.
- GROW's `round(uniform)` draws: modelled as integers already in range. A draw at the bottom or top of the range is half as likely in the source. The model does not see that probability difference.
- TreeEval.RunTree: keeps the library's dispatch without an ABS case. TreeEval.RunTreeWithAbs is the version with that case.
- Mutation of the search space through aliasing: the model proves that agents share no buffers (Separated, Population) rather than coping with aliasing.

## Findings

| source | as written | input that shows it | evidently intended | confidence | as-written member | corrected member |
|---|---|---|---|---|---|---|
| src/common.c:740-743 | The terminal branch writes `out[i]` while `out` is still NULL; only the constant branch allocates it. | Any tree with a terminal leaf and n >= 1, e.g. a single terminal node. | `out` is a fresh copy of the bound agent's x. | not executed; high | TreeEval.AsWrittenTerminalFaults | TreeEval.RunTreeTerminalCopies |
| src/common.c:746-760 | The operator dispatch has no ABS case, although N_ARGS_FUNCTION and getFUNCTIONid list ABS with arity 1, so GROW builds ABS nodes. | A well-formed ABS node over a constant leaf: the result is NULL. (Over a terminal leaf the terminal branch faults first.) | ABS applied elementwise to the single child's result. | not executed; medium | TreeEval.AbsTreeYieldsNull | TreeEval.WellFormedTreesEvaluate |
