# CLIR: verified models of the generator, the reducer and the lowering

CLIR generates random CLIF functions to exercise the Cranelift compiler. This
project models its core in Dafny and proves what generated code must satisfy to
be valid, together with the hardest parts of the tools around it:

- **Generator.** A flow graph is built by repeatedly replacing a block with a
  fresh single-entry single-exit region (`Graphs`, `Splicing`, `Regions`,
  `RegionBuilders`, `CfConstruct`), its dominators are computed (`Dominators`),
  and it is filled with instructions whose operands come from dominating blocks
  (`Preorder`, `Ssa`, `Typing`, `Population`, `BlockFilling`, `BlockParameters`,
  `FunctionGenerator`, `Invocations`). `Pipeline` puts the stages together: for
  every random choice the outcome is valid, typed SSA over a reducible graph.
- **Reducer.** The mutators that merge blocks (`Execution`, `Merging`,
  `MergeSimulation`, `MergeInvariants`, `MergeBlocks`, `MergePhases`), delete instructions
  (`RemoveInst`) and compact entity tables (`Entities`), and the loop around them
  (`Reducer`). Merging preserves every run on every machine.
- **Pulley lowering** of integer code (`Pulley`): a simulation between CLIF values
  and the low bits of 64-bit registers.
- **Exponential search** for the largest engine (`Powers`, `ExponentialSearch`),
  the **call graph** (`CallGraph`) and the **configuration intersection**
  (`Config`).

`dafny verify dfyconfig.toml` checks the whole project.

## How to read the model

A function is an object of class `Ir.Func` that the generator updates in place;
`State()` is its value, of type `Code`: the layout and for each block its
parameters, instructions and terminator. `Code.Graph()` is the flow graph, with
successors as sets, iterated in ascending order as Cranelift does. Blocks and
values are numbers. Random choices are arbitrary values (`:= *`, `:|`), so each
statement covers every run of the random number generator.

- `Structured(g, exit)`: valid, no self edges, reducible (each cycle has a block that
  dominates all of it), every block reachable and able to reach `exit`, the only
  block without successors.
- `ValidSsa(s, g)`: every operand, condition, returned value and branch argument is
  defined earlier in its block or in a strictly dominating block, and branch
  arguments match the parameters of their target one by one, in number and type.
- `Unique(s, S)`: the blocks of `S` define each value once.
- `HasType(s, v, ty)`: `v` is defined with type `ty`, its only type where values are
  defined once. `KeepsTypes(s, s')`: every operand, condition and returned value has in
  `s'` the type it had in `s`.
- `Populated(s, g, dom, defs)`: all of this, together with the dominator table and the
  recorded values that later stages draw from.
- `SameBehaviour(s, s')`: on any machine (any effect of any operation, any outside
  world) and from any start, each run of one executes the same operations on the
  same words with the same results as a run of the other, step for step apart from
  jumps.
- `Carries(p, args, regs, regOf, next)`: each value lowered so far is in the low bits of
  its register, the upper bits being arbitrary, unless a narrow comparison goes into it.
- `GrowsTo(g, steps, g')`: splicing in the regions of `steps`, one after the other, turns
  `g` into `g'`. `Draws(region, R)`: `R` is the graph of that region, whose blocks are all
  different.
- `Signed(m, g, params, refs)`: the entry block has the parameters of the signature, in
  order; every other block has one parameter for each type used in it if it has two
  predecessors or more, and none otherwise. `refs` is what counts as used: by
  `Logged(defs, refs, logs)` the union of the twenty reports of each block.
- `Course(crashes, a0, tries, a, cursor)`: the calls of a merge phase one by one, and where
  they lead.
- `Proper(a, g, home)`: what the merge phase needs and keeps. The code that can run is
  valid SSA, values are defined once, and every block with one predecessor that has
  no other target is reachable.

## Where code and expectation differ

- The loop that should collect the predecessors of a join
  (`crates/function-generator/src/lib.rs:593`) maps a lazy iterator that is never run.
  Parameter types therefore come from the values used in the join alone. The model
  does the same; `BlockParameters.JoinOffers` shows why the lookups succeed anyway.
- Eleven arms of the instruction selector report their own result as an operand
  (for instance `crates/function-generator/src/instruction_selector.rs:520`), so what a
  block reports as used need not come from a dominator. Only its types matter, and those
  the pool does offer.
- A signature without results leaves the exit block without a terminator:
  `FunctionGenerator.GenerateFunction` states that every block is terminated exactly
  when there are results. Every signature that CLIR draws has some.
- After a call is inserted, only the second instruction of the chosen dominated block
  can use its results: the cursor takes a single step
  (`crates/function-generator/src/lib.rs:926`). `Invocations.UseInSecond` models this.
- A merge that is kept moves the cursor to the predecessor, which may be further down the
  layout (`wasmtime/cranelift/src/bugpoint.rs:731-733`). The blocks in between are then
  never tried in that phase, so a phase that reaches the end of the layout can leave a block
  that could be merged: `MergePhases.LeftOver` says that each one was rejected when it was
  tried, or passed over in this way.
- Comparisons of 8- and 16-bit values are lowered to 32-bit comparisons without
  extension, which is wrong for some register contents: `Pulley.NarrowCompareFails`
  gives one for every condition, `Pulley.ComparesRightExactly` shows that 32 and 64 bits
  are exactly the widths that are always right, and `Pulley.NarrowCompare` says which
  register contents are.

## Model

| member | source | states |
|---|---|---|
| Dominators.PostorderDfs | crates/function-generator/src/dominator_tree.rs:24-40 | the search finishes exactly what it newly visits, everything it visits is reachable from its start, and an edge out of a finished block leads to a block finished earlier or closes a cycle |
| Dominators.ReversePostorder | crates/function-generator/src/dominator_tree.rs:16-46 | the order lists every reachable block once and nothing else, entry first, and an edge goes forward in it unless it closes a cycle |
| Dominators.ReversePostorderIsTopological | crates/function-generator/src/dominator_tree.rs:16-46 | without cycles any such order is a topological order of the reachable blocks |
| Dominators.IntersectPredecessors | crates/function-generator/src/dominator_tree.rs:79-94 | the loop over the predecessors yields their common dominators, and the block itself |
| Dominators.SweepOnce | crates/function-generator/src/dominator_tree.rs:73-102 | a sweep keeps the table above true dominance, strictly removes pairs whenever it reports a change, and leaves a fixpoint when it reports none |
| Dominators.FixpointIsDominance | crates/function-generator/src/dominator_tree.rs:73-102 | any table above dominance that a sweep leaves alone is path dominance: unreachable blocks are dominated by all |
| Dominators.FirstSweepIsDominance | crates/function-generator/src/dominator_tree.rs:73-102 | on an acyclic graph one sweep from the initial table already yields path dominance |
| Dominators.ComputeDominators | crates/function-generator/src/dominator_tree.rs:48-105 | for every finite graph with targets in the layout the analysis ends and returns, for each block, exactly the blocks on all paths from the entry to it; on an acyclic graph within two sweeps |
| Splicing.ExpansionIsPath | crates/cf-constructor/src/lib.rs:845-995 | an old path with each visit to the replaced block expanded into a first-to-last walk through the region is a path of the new graph |
| Splicing.PathIsExpansion | crates/cf-constructor/src/lib.rs:845-995 | every path of the new graph that neither starts nor stops inside the region is such an expansion |
| Splicing.SpliceCorrespondence | crates/cf-constructor/src/lib.rs:845-995 | between surviving blocks the new paths are exactly the expansions of the old ones |
| Splicing.SurvivorDominates | crates/cf-constructor/src/lib.rs:845-995 | a surviving block goes on dominating whatever stands for what it dominated |
| Splicing.FirstDominates | crates/cf-constructor/src/lib.rs:845-995 | the first block of the region dominates whatever the replaced block dominated |
| Splicing.SpliceReducible | crates/cf-constructor/src/lib.rs:845-995 | replacing a block by a reducible single-entry single-exit region keeps every cycle headed by a block that dominates it |
| Splicing.SpliceStructured | crates/cf-constructor/src/lib.rs:845-995 | the new graph is again reducible, free of self edges, with every block reachable and able to reach the same single exit |
| Regions.SequentialStructured | crates/cf-constructor/src/lib.rs:376-414 | a chain of any length of at least two is such a region |
| Regions.IfElseStructured | crates/cf-constructor/src/lib.rs:416-444 | so is the four-block conditional |
| Regions.WhileStructured | crates/cf-constructor/src/lib.rs:446-472 | so is the three-block loop, whose cycle its condition block heads |
| Regions.SwitchStructured | crates/cf-constructor/src/lib.rs:474-525 | so is the switch with any number of cases |
| CfConstruct.SequentialChild | crates/cf-constructor/src/lib.rs:376-414 | the code appends two to four fresh blocks in a row, each a jump to the next and the last open, leaves the rest alone, and the flow graph among them is the graph of that region |
| CfConstruct.IfElseChild | crates/cf-constructor/src/lib.rs:416-444 | the same for the conditional: the head branches on its one parameter, a 32-bit value, both arms jump to the last block |
| CfConstruct.WhileChild | crates/cf-constructor/src/lib.rs:446-472 | the same for the loop: such a head, and a body that jumps back to it |
| CfConstruct.SwitchChild | crates/cf-constructor/src/lib.rs:474-525 | the same for a switch with six to eight cases: such a head with a table of the default and the cases in order, all of which jump to the last block |
| RegionBuilders.CandidatesAre | crates/cf-constructor/src/lib.rs:250-374 | what may be picked for replacement: every block of the region, but for the two ends of an if-else and the last block of a switch |
| CfConstruct.RedirectedShape | crates/cf-constructor/src/lib.rs:859-902 | redirecting a branch to a fresh block replaces exactly one target and keeps the targets distinct and the kind of branch |
| CfConstruct.UpdatePredecessor | crates/cf-constructor/src/lib.rs:845-904 | every branch into the replaced block now leads to the new one and no other branch changes; the panics are not reached |
| CfConstruct.RebuiltShape | crates/cf-constructor/src/lib.rs:927-990 | the branch rebuilt from the successor set has the same targets and the same kind as the old one |
| CfConstruct.RebuildBranch | crates/cf-constructor/src/lib.rs:927-990 | the three cases by number of successors produce that branch; the panics are not reached |
| CfConstruct.UpdateSuccessor | crates/cf-constructor/src/lib.rs:921-995 | the branch of the replaced block moves to the end of the region and the block leaves the layout; nothing else changes |
| CfConstruct.SplicedGenerated | crates/cf-constructor/src/lib.rs:845-995 | on code, both splice functions together turn the flow graph into the spliced graph and keep every branch well shaped |
| CfConstruct.ReplaceBlock | crates/cf-constructor/src/lib.rs:569-612 | one step on a random candidate: the flow graph is the old one with the graph of the new region spliced in for that block, and all invariants hold again |
| CfConstruct.Extend | crates/cf-constructor/src/lib.rs:550-843 | below the top level exactly one region is spliced in at every depth up to the bound, each for a candidate of the region before it, and all invariants are kept |
| CfConstruct.FirstRegion | crates/cf-constructor/src/lib.rs:769-833 | the graph is entry, first region, exit in a row, and satisfies all invariants |
| CfConstruct.CfConstruct | crates/cf-constructor/src/lib.rs:550-843 | for every depth bound and every choice: the graph is the first region between entry and exit with exactly as many regions spliced in, one after the other, as the bound says, each for a candidate of the one before; each block but the exit ends in a jump, a two-way branch or a table of at least three pairwise distinct targets, no block targets itself, the graph is reducible, every block is reachable and reaches the one exit |
| Preorder.DfsOrder | crates/function-generator/src/lib.rs:78-92 | the preorder lists the reachable blocks once, entry first, each with a path from the entry through blocks listed before it |
| Preorder.DominatorsFirst | crates/function-generator/src/lib.rs:78-92 | every strict dominator of a block is listed before the block |
| Preorder.GetLastBlock | crates/function-generator/src/lib.rs:775-785 | where one block alone has no successors, that block is found |
| Population.SelectRandomValue | crates/function-generator/src/instruction_selector.rs:114-158 | a value of the requested type from the pool; callers must show that the pool offers one |
| Population.Emit | crates/function-generator/src/instruction_selector.rs:172-190 | one instruction is appended: operands in scope, results fresh and numbered once, nothing else in the function changed |
| Population.PopulateBlockInstructions | crates/function-generator/src/instruction_selector.rs:172-190 | any instruction selection that draws on the pool and on its own results leaves all operands of the block in scope without relying on the condition parameter; what it reports as used, which may be its own result, always has a type of the pool |
| Population.EmitConstants | crates/function-generator/src/lib.rs:300-453 | constants of exactly the configured types that no parameter has, in order, one instruction each and two for 128 bits |
| Population.FillEntryConstants | crates/function-generator/src/lib.rs:273-479 | the entry block takes exactly the parameters of the signature, in order; its instructions are the constants and the ten that fill the stack slots; it offers a value of every configured type and every parameter type |
| Population.FillInstructions | crates/function-generator/src/lib.rs:487-513 | the selector is called twenty times; what is recorded as new and as used is exactly what the calls report |
| BlockFilling.PoolScope | crates/function-generator/src/lib.rs:482-486 | the values recorded for the dominators of a block are in scope at the end of it |
| BlockFilling.PoolCovers | crates/function-generator/src/lib.rs:78-92 | the types offered by the entry are offered in every visited block |
| BlockFilling.SetCondition | crates/function-generator/src/lib.rs:527-552 | the condition becomes a 32-bit value of the pool, the condition parameter goes and the targets stay |
| BlockFilling.InsertNop | crates/function-generator/src/lib.rs:519-521 | a block gets an instruction that uses nothing exactly when it has none at all |
| BlockFilling.VisitNode | crates/function-generator/src/lib.rs:262-553 | one visit changes only that block, leaves its instructions and its 32-bit condition in scope, each new value defined once, and does not leave it empty |
| BlockFilling.FillBlocks | crates/function-generator/src/lib.rs:262-553 | after the first pass all visited blocks are in order and none is empty, the entry takes the parameters of the signature, every recorded value is defined in its block, every condition is a recorded 32-bit value, the values that count as used are those of the reports, and each of their types is offered by a strict dominator |
| BlockParameters.FirstPassCalls | crates/function-generator/src/lib.rs:527-553 | after the first pass no block but the entry has parameters and no branch has arguments |
| BlockParameters.JoinOffers | crates/function-generator/src/lib.rs:619-646 | the lookup for a branch argument never fails: a type reported as used in a join is offered at each of its predecessors, also where the selector reports its own result |
| BlockParameters.TableWithArgs | crates/function-generator/src/lib.rs:683-714 | the argument list is never cleared between table entries, yet every entry for the join gets exactly one argument per parameter, because targets are distinct |
| BlockParameters.BranchWithArgs | crates/function-generator/src/lib.rs:631-720 | for all three kinds of branch exactly the call to the join receives arguments of the parameter types, in order |
| BlockParameters.UpdatePredecessors | crates/function-generator/src/lib.rs:619-724 | once all predecessors are rewritten every branch to the join passes fitting arguments, and no parameter list has changed |
| BlockParameters.RewriteOperands | crates/function-generator/src/lib.rs:726-770 | operands stay or become parameters of the same type; the first instruction and memory operations are left alone |
| Typing.TypeFound | crates/function-generator/src/lib.rs:764-764 | looking a value up among the definitions of valid code finds its type, the only one it has |
| BlockParameters.RewriteKeeps | crates/function-generator/src/lib.rs:757-770 | replacement under the type guard keeps the type of every operand, condition and returned value |
| BlockParameters.ParameteriseJoin | crates/function-generator/src/lib.rs:587-773 | one join: one parameter for each type reported as used, fitting arguments on every incoming branch, and uses, after which all blocks are in order again, every operand has the type it had and no other block other parameters |
| FunctionGenerator.AddBlockParameters | crates/function-generator/src/lib.rs:587-773 | after the second pass a block other than the entry has one parameter for each type used in it if it has two predecessors or more, and none otherwise, the entry those it had; all blocks stay in order, all types are kept, and recorded values are only added |
| FunctionGenerator.SecondPassValid | crates/function-generator/src/lib.rs:262-773 | code in order after both passes is valid SSA with one definition per value |
| FunctionGenerator.InsertReturn | crates/function-generator/src/lib.rs:806-829 | the exit block returns values in scope, of the types of the signature; every block has a terminator if and only if there are results |
| FunctionGenerator.GenerateFunction | crates/function-generator/src/lib.rs:213-832 | for every constructed graph and every choice: the graph is unchanged, the entry takes the parameters of the signature, exactly the blocks with two predecessors or more have parameters, one for each type used there, every operand, condition, branch argument and returned value is defined in a dominating position, arguments match parameters in number and type, conditions are 32-bit values, returned values have the types of the signature, every value has one definition, no block is empty, and every block is terminated if and only if the signature has results |
| Invocations.PlaceCall | crates/function-generator/src/lib.rs:890-916 | the call goes before the terminator with one argument of each parameter type from a dominating block and one fresh result of each result type |
| Invocations.DominatedAre | crates/function-generator/src/lib.rs:844-858 | the blocks among which the one that uses the results is picked are those strictly dominated |
| Invocations.UseResults | crates/function-generator/src/lib.rs:918-984 | operands change in at most one block, one that the call strictly dominates, there in the second instruction only, and only to results of the call of the same type |
| Invocations.UsesKept | crates/function-generator/src/lib.rs:918-984 | such changes keep valid SSA, all types and the operations of every block |
| Invocations.InsertInvocation | crates/function-generator/src/lib.rs:864-990 | valid SSA, all types and all block parameters are kept, and the function has exactly one more call to that callee, in the chosen block, which is not the one with the least number, with arguments of its parameter types and results of its result types |
| Invocations.InsertInvocations | crates/function-generator/src/lib.rs:834-993 | every child of the call graph is called exactly once and, when all calls are in, still with arguments of its parameter types and results of its result types; the function stays valid SSA |
| Pipeline.TypesSurvive | crates/function-generator/src/lib.rs:834-993 | inserting calls changes neither the types of returned values nor those of conditions |
| Pipeline.BuildFunction | src/bin/ir_generator.rs:108-140 | the three stages together, for every choice in each: valid SSA with one definition per value over a structured graph grown in as many replacements as the depth says, the entry with the parameters of the signature and exactly the joins with further ones, every block terminated, returned values in scope with the types of the signature, conditions 32-bit, every child called with arguments of its parameter types and results of its result types |
| Merging.Steady | wasmtime/cranelift/src/bugpoint.rs:692-704 | an alias is never stale: wherever a merged parameter is visible, its argument is not redefined, also inside loops |
| MergeSimulation.StepMatches | wasmtime/cranelift/src/bugpoint.rs:652-729 | one step of the original corresponds to one step of the merged code, except for the removed jump |
| MergeSimulation.MergePreservesRuns | wasmtime/cranelift/src/bugpoint.rs:652-729 | on any machine and from any start, each observes exactly the instructions, operand words and results of the other, in both directions |
| MergeInvariants.DominanceMoves | wasmtime/cranelift/src/bugpoint.rs:652-729 | dominance survives the merge of a block into its only predecessor |
| MergeInvariants.ScopeMoves | wasmtime/cranelift/src/bugpoint.rs:652-729 | every value in scope is in scope after the merge, under its new name |
| MergeInvariants.MergeKeepsSound | wasmtime/cranelift/src/bugpoint.rs:652-729 | what can run of the merged code is again valid SSA with single definitions, and no unreachable block has become one that could be merged, so merges can be repeated |
| MergeBlocks.AliasParams | wasmtime/cranelift/src/bugpoint.rs:692-704 | aliasing one parameter at a time, through existing alias chains, amounts to substituting all arguments at once |
| MergeBlocks.MoveInsts | wasmtime/cranelift/src/bugpoint.rs:706-718 | the loop moves all instructions, in order, to the end of the predecessor |
| MergeBlocks.OnlyPredecessor | wasmtime/cranelift/src/bugpoint.rs:663-686 | a merge is proposed exactly when the block has one predecessor and that has no other target |
| MergeBlocks.NextBlockAt | wasmtime/cranelift/src/bugpoint.rs:653-656 | in a layout without repetitions the block after the one at a position is the one at the next position, and there is none after the last |
| MergeBlocks.MergeBlocks.Mutate | wasmtime/cranelift/src/bugpoint.rs:652-729 | the cursor moves from its block to the one right after it in the layout, and the mutator is exhausted exactly on the last; skipped exactly when no merge applies, otherwise a function with the same behaviour in which the block is glued to its predecessor |
| MergeBlocks.MergeBlocks.DidCrash | wasmtime/cranelift/src/bugpoint.rs:731-733 | the search goes on from the predecessor |
| MergePhases.MergePhase | wasmtime/cranelift/src/bugpoint.rs:843-886 | whatever the crash check answers, the function behaves throughout as it did before the phase and still crashes; every iteration tries the block after the cursor, keeps a merge exactly if it crashes, and the phase ends on the last block of the layout unless the limit comes first; unreachable blocks are allowed as long as none of them could be merged |
| MergePhases.LeftOver | wasmtime/cranelift/src/bugpoint.rs:843-886 | what a phase that reaches the end leaves unmerged: every block that could still be merged was rejected when it was tried, or passed over by a merge into a block further down |
| Pipeline.GeneratedIsProper | wasmtime/cranelift/src/bugpoint.rs:652-729 | every generated function meets what the merge needs |
| Pipeline.GenerateAndMerge | wasmtime/cranelift/src/bugpoint.rs:843-886 | a generated function and what the merge phase makes of it behave alike |
| RemoveInst.RemoveInst.NextInstRetPrev | wasmtime/cranelift/src/bugpoint.rs:760-776 | the cursor moves to the next instruction in layout order; it reports where it was unless that was the last instruction |
| RemoveInst.RemoveInst.Mutate | wasmtime/cranelift/src/bugpoint.rs:127-139 | the instruction goes, and its block if that empties it; the cursor names a live instruction whether the change is kept or dropped, and no block is left empty |
| RemoveInst.GreedyOutcome | wasmtime/cranelift/src/bugpoint.rs:843-886 | deletion takes only from what is offered and never loses the crash |
| RemoveInst.GreedyMinimal | wasmtime/cranelift/src/bugpoint.rs:843-886 | an offered instruction that survives was needed for the crash when it was offered |
| RemoveInst.RemovePhase | wasmtime/cranelift/src/bugpoint.rs:843-886 | each instruction but the last is offered exactly once, in layout order, up to the iteration limit, and the outcome is greedy deletion |
| Reducer.RunPhase | wasmtime/cranelift/src/bugpoint.rs:843-886 | for arbitrary proposals: the mutator is asked until it is exhausted or 10000 times, the outcome is the last proposal that crashed, and a shrinking change is reported exactly if one was kept |
| Reducer.AlwaysCrashes | wasmtime/cranelift/src/bugpoint.rs:821-886 | after any number of passes, phases and proposals the current function crashes |
| Reducer.RunPasses | wasmtime/cranelift/src/bugpoint.rs:821-886 | eight phases to a pass, and passes exactly as long as the last one shrank the function, a hundred at most |
| Reducer.Reduce | wasmtime/cranelift/src/bugpoint.rs:807-907 | refused exactly when the input does not crash; otherwise aliases, source locations, the passes and aliases again, each kept exactly if it crashes, so the outcome crashes and the final unreachable case is not reached |
| Entities.RankFinds | wasmtime/cranelift/src/bugpoint.rs:457-480 | an entry in use has the same data under its new number |
| Entities.CompactedExactly | wasmtime/cranelift/src/bugpoint.rs:457-480 | the new table holds the used entries and only those, in their old order |
| Entities.Compact | wasmtime/cranelift/src/bugpoint.rs:435-484 | the two loops compute that table and renumber each reference once |
| Entities.OnlyRenumbers | wasmtime/cranelift/src/bugpoint.rs:435-630 | for each kind, derived global values excepted as in the mutator: every operation resolves to the same entity data, nothing dangles and no unused entry is left |
| Entities.DerivedWouldBreak | wasmtime/cranelift/src/bugpoint.rs:593-603 | compacting derived global values would lose the base of one, which is why the mutator gives up on them |
| Entities.ThreeKinds | wasmtime/cranelift/src/bugpoint.rs:435-576 | the first three kinds in the order of the mutator leave none of their entries unused, whatever the global values are |
| Entities.AllKinds | wasmtime/cranelift/src/bugpoint.rs:435-630 | all four kinds, where no global value is derived, leave no unused entry in any table, since dropping external functions comes before signatures |
| Entities.RemoveUnusedEntities.Mutate | wasmtime/cranelift/src/bugpoint.rs:435-630 | one kind per call, refused after the fourth and for derived global values; meaning is kept, and no entry of that kind is left unused |
| Entities.EntityPhase | wasmtime/cranelift/src/bugpoint.rs:435-630 | a whole phase: external functions, signatures, stack slots and, if none is derived, global values, in this order, each step kept exactly if it crashes; every operation means what it did, and if each step is kept no table holds an unused entry, a table with derived global values excepted |
| Pulley.LowBits | isle_sources/isle_pulley_shared.rs:2806-2952 | an operation at least as wide as its type computes the low bits of the result whatever is above the operands |
| Pulley.LowerImm | isle_sources/isle_pulley_shared.rs:2523-2578 | the chosen constant form has the right low bits, for every type and value, and no shorter form would do |
| Pulley.LowerBinary | isle_sources/isle_pulley_shared.rs:2806-2952 | iadd, isub and imul of 8 to 64 bits, and band, bor and bxor, leave the value in the low bits of a fresh register and lose no other value |
| Pulley.LowerExtend | isle_sources/isle_pulley_shared.rs:4035-4121 | so do uextend and sextend between all types |
| Pulley.LowerReduce | isle_sources/isle_pulley_shared.rs:4035-4121 | so does ireduce, without code |
| Pulley.CompareRight | isle_sources/isle_pulley_shared.rs:4862-5011 | the instruction and operand order chosen for each condition decide it on 32 or 64 bits |
| Pulley.LowerIcmp | isle_sources/isle_pulley_shared.rs:4862-5011 | a comparison leaves one or zero, also for greater-than forms that swap |
| Pulley.LowerCond | isle_sources/isle_pulley_shared.rs:4526-4798 | for every value without narrow comparisons, through any chain of extensions, the lowered condition holds exactly when the value is nonzero |
| Pulley.EmitCond | isle_sources/isle_pulley_shared.rs:5144-5255 | a condition put in a register is nonzero there exactly when it holds |
| Pulley.LowerSelect | isle_sources/isle_pulley_shared.rs:3881-3939 | select takes the arm that its condition names |
| Pulley.LowerBlock | isle_sources/isle_pulley_shared.rs:2798-2952 | simulation: from any register contents that carry the inputs in their low bits, running the code leaves every value of the block that no 8- or 16-bit comparison goes into in the low bits of its register; and it says what any comparison, addition or constant leaves there |
| Pulley.AllWide | isle_sources/isle_pulley_shared.rs:3470-3485 | in a block that compares 32- and 64-bit operands only, this covers every value |
| Pulley.LowerBrif | isle_sources/isle_pulley_shared.rs:4824-4839 | after such a block the branch goes where the value of its condition says, if no narrow comparison goes into it |
| Pulley.NarrowCompareFails | isle_sources/isle_pulley_shared.rs:3477-3483 | for every condition and both narrow types there are register contents from which the code of a lowered comparison of two inputs leaves the wrong value |
| Pulley.WrappedCompareFails | isle_sources/isle_pulley_shared.rs:3477-3483 | a block without inputs, 255 + 2 == 1 in eight bits, whose code leaves 0 instead of 1 from every start |
| Pulley.ComparesRightExactly | isle_sources/isle_pulley_shared.rs:3468-3485 | for every condition the lowered comparison is right for all register contents if and only if the operands have 32 or 64 bits |
| Pulley.NarrowCompare | isle_sources/isle_pulley_shared.rs:3477-3483 | which contents: a comparison of operands of at most 32 bits comes out right if and only if what is above the operands is equal or compares like the operands themselves |
| ExponentialSearch.ExponentialSearch.Record | wasmtime/examples/mpk.rs:163-178 | one attempt keeps the gap a power of two and, after the first failure, twice the gap at the least known failure; no u32 operation overflows |
| ExponentialSearch.ExponentialSearch.PhaseFacts | wasmtime/examples/mpk.rs:179-181 | done exactly in the finished phase, and attempts stay within the bound |
| ExponentialSearch.ProbeEngineSize | wasmtime/examples/mpk.rs:93-113 | for every threshold T below 2^32 - 1 the loop ends with T after at most 2 floor(log2(T + 1)) + 2 attempts |
| CallGraph.GenerateTree | crates/cg-constructor/src/lib.rs:59-90 | for any depth the new numbers are consecutive in order of creation, parents before children, and the size lies between depth + 1 and 2^(depth + 1) - 1 |
| CallGraph.GenerateCallGraph | crates/cg-constructor/src/lib.rs:92-103 | the functions are numbered 0 to n - 1 without gaps or repeats |
| CallGraph.PostOrderTraversal | crates/cg-constructor/src/lib.rs:51-57 | the list gains the tree in postorder |
| CallGraph.SameNodes | crates/cg-constructor/src/lib.rs:51-57 | postorder lists the same functions as creation order, each as often |
| CallGraph.DescendantsFirst | crates/cg-constructor/src/lib.rs:51-57 | all descendants of a function come just before it |
| CallGraph.CalleesFirst | crates/cg-constructor/src/lib.rs:51-57 | the callees of a function come before it |
| CallGraph.InsertCalls | crates/function-generator/src/lib.rs:864-884 | matching generated functions by name gives one call per child |
| CallGraph.EachCallsItsOwn | crates/function-generator/src/lib.rs:864-884 | in all the calls together each function calls its children in order, each once, and nothing else |
| CallGraph.WriteProgram | src/bin/ir_generator.rs:104-143 | every function is written once, after all it calls, and calls each of its children exactly once and nothing else |
| Config.IntersectTypes | crates/commons/src/types.rs:109-128 | reading a missing list as empty, the outcome is the intersection, and is missing when that is empty |
| Config.IntersectIsMeet | crates/commons/src/types.rs:75-107 | the intersection is the greatest mode below both, and is missing exactly when there is none |
| Config.IntersectLaws | crates/commons/src/types.rs:75-107 | commutative, associative and idempotent |
| Config.IntersectModes | crates/commons/src/types.rs:170-192 | all pairs together allow exactly what both lists allow |
| Config.ConfigIntersection | crates/commons/src/types.rs:166-195 | each instruction of the first configuration ends up allowing exactly what it allows there and what the first instruction of its name allows in every other configuration |
| Config.OrderIrrelevant | crates/commons/src/types.rs:166-195 | the order of the other configurations does not matter to what all of them allow |
| Config.AnyOrder | crates/commons/src/types.rs:166-195 | two runs over the other configurations in different orders return instructions that allow the same |

## Left out

- Population.PopulateBlockInstructions: the instruction selector is any emission whose operands come from its pool or from its own results; which opcodes it picks and the operand types they want is not modelled.
- CfConstruct.UpdateSuccessor: branch polarity and table order are rebuilt from the successor set, so only target sets are preserved across a splice.
- MergePhases.MergePhase: leaves out functions with an unreachable block that could be merged. Aliases in code that never runs can form a loop, and a block that is its own only predecessor sends the move loop of the mutator round for ever.
- Reducer.Reduce: the mutators are arbitrary proposals here and the crash check is a function of the code.
- Pulley.LowerBlock: promises nothing of values that an 8- or 16-bit comparison goes into beyond what the comparison leaves, since that lowering is wrong for some register contents.
- ExponentialSearch.ProbeEngineSize: the mapped byte count beside the engine size is not modelled.
- Config.ConfigIntersection: type lists are sets, so their order and repetitions are not modelled, and nothing is said of the top-level operand types, which are copied from the first configuration.
- The mutators that replace instructions by constants or traps, move them to the entry, remove blocks or replace block parameters by constants: each is a local rewrite with no claim that the function keeps its meaning.
- Instruction formats that the entity mutator does not match, such as calls with exception tables.
- Float, vector, memory and overflow-flag lowering for Pulley, and the emission of machine code.
- Values of constants, and the scalar and vector edge cases among them.
- Alias tables are kept as a list of aliases in order of creation, which resolves like Cranelift's chains; how Cranelift stores them is not modelled.
- Cranelift's own layout, data-flow graph and flow-graph structures, beyond the maps and lists described above.
- Reading configurations and documents, writing CLIF, logging and command lines.
