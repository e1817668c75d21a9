# A verified model of bamf

bamf lifts x86 machine code to an intermediate representation (IR) in SSA form, analyses and transforms it, and lowers
it back to x86. This project models the parts that decide whether the result means what the input meant, and proves
that it does, or states exactly when it does not:

- **Words, memory and the two machines.** 64-bit words with wrap-around, little-endian memory (`Words`), x86
  instructions over registers, flags and memory (`X86`, `MachineRun`), and the IR with a meaning for every instruction
  (`Ir`). An IR run takes one block a step; the phis of a block take their values together when it is entered; a
  conditional branch takes its true edge exactly when the condition is 1. A load of a variable that was never stored
  leaves the result undefined, and using an undefined result gets the run stuck.
- **Graphs and dominance.** The graph object, the recursive depth-first search, the single pass over the reverse
  post-order that computes parents, the tree, the frontiers and the queries on them, against dominance over all paths.
- **The verifier, the constant folder, the alloc promoter and the control flow simplifier**, each in the imperative
  form of the source, with a theorem about every run of the function they leave.
- **The backend.** Lowering, register allocation and emission; a simulation from runs in which phis are copies to runs
  of the emitted program; exactly when such runs are those of the function; and frame safety of the emitted program
  alone, for every machine that enters it.
- **The frontend and the decoder.** The translation of each instruction, the splitting into blocks, a simulation from
  machine runs to IR runs; the decoder against encodings written from the Intel 64 and IA-32 Architectures Software
  Developer's Manual, volume 2, in both directions, and exactly when the decoded operands are those of the manual.
- **Use lists**, exact under everything that edits operands, and the proof that redirecting them does to the objects
  what the passes do to whole functions.

Objects whose methods change their fields are classes (`Graph.GraphObject`, `DepthFirstSearch.Search`,
`Backend.InstTranslator`, `Frontend.Translator`, `UseLists.Value`, `Stream.Stream`, `Decoder.Decoder`), passes are
methods with the loops of the source over a `FunctionObject`, and the lemmas speak of the values these hold.

Identities stand for addresses: every object has its own number, and new objects take numbers from `base` on, above
those in use. What the source iterates in hash order is a map or a set here, or any order; where the outcome depends on
it, that is under "Findings". What the source asserts or throws is a precondition, a `None` or a null result. Statistics
and logging do nothing here; the verifier counts the errors it reports.

`CountingLoop` is one function with a variable, a compare and a loop with a phi; it meets what the backend, the folder
and the promoter each demand.

## Model

| member | source | states |
|---|---|---|
| `Graph.GraphObject.Connect` | include/bamf/graph/Graph.hh:56-64 | both edge tables stay in step with the one list of edges, which gains the new edge at its end |
| `Graph.GraphObject.PredsOf` | include/bamf/graph/Graph.hh:113-120 | the sources of the edges into a vertex, in the order they were connected |
| `Graph.GraphObject.SuccsOf` | include/bamf/graph/Graph.hh:122-129 | the destinations of the edges out of a vertex, in that order |
| `DepthFirstSearch.Search.Run` | include/bamf/graph/DepthFirstSearch.hh:36-58 | the object finds the two orders of the recursive search from the entry; both list exactly the reachable vertices, each once, the entry first and last; for an edge u to v, v is finished before u unless v was discovered no later than u and is still being explored |
| `DepthFirstSearch.SearchIsSound` | include/bamf/graph/DepthFirstSearch.hh:36-58 | the orders of the recursive search have those properties on every graph |
| `DominanceComputer.Intersect` | include/bamf/graph/DominanceComputer.hh:41-51 | the two fingers end on one vertex whose parent chain is exactly what their chains have in common; it throws exactly when the second finger has no parent yet; every step raises a post-order index |
| `DominanceComputer.Pass` | include/bamf/graph/DominanceComputer.hh:57-77 | one pass, after which nothing is marked as changed; it gets through exactly when, for every vertex but the entry, the first predecessor that is the entry or the target of some edge has a greater post-order index; then every parent chain is the meet of the handled predecessors' chains |
| `DominanceComputer.BuildTree` | include/bamf/graph/DominanceComputer.hh:79-88 | the tree has an edge from parent to child for every vertex but the entry, and no other |
| `DominanceComputer.Run` | include/bamf/graph/DominanceComputer.hh:23-89 | the search, the index, the pass and the tree together: a tree is returned exactly when for every vertex but the entry the first predecessor that is the entry or the target of some edge is indexed, and higher |
| `DominatorTree.ChainHoldsDominators` | include/bamf/graph/DominanceComputer.hh:57-77 | on every graph, every dominator of a reachable vertex is on its computed parent chain |
| `DominatorTree.ChainIsDominators` | include/bamf/graph/DominanceComputer.hh:57-77 | on reducible graphs the chain holds the dominators and nothing else |
| `DominatorTree.PassIsExact` | include/bamf/graph/DominanceComputer.hh:39-77 | on reducible graphs every computed parent is the immediate dominator |
| `DominatorTree.ExactParentsUnique` | include/bamf/graph/DominatorTree.hh:30-37 | a vertex has no other immediate dominator than an exact parent |
| `DominatorTree.Idom` | include/bamf/graph/DominatorTree.hh:30-37 | the parent that the tree was built from; none for the entry |
| `DominatorTree.Dominates` | include/bamf/graph/DominatorTree.hh:16-28 | the walk up the tree finds the dominator exactly when it is on the parent chain |
| `PassExactness.PassIsAdvancingDominance` | include/bamf/graph/DominanceComputer.hh:57-77 | on every graph the pass computes dominance in the graph without its retreating edges, and nothing else |
| `PassExactness.ExactWhenSettled` | include/bamf/graph/DominanceComputer.hh:58-77 | the parents are exact exactly when another round of the loop would have changed none of them |
| `PassExactness.ExactExactly` | include/bamf/graph/DominanceComputer.hh:58-77 | the parents are exact exactly when, in the graph without retreating edges, what strictly dominates the target of a retreating edge dominates its source; a condition on graph and search order alone |
| `PassExactness.PassNotAlwaysExact` | include/bamf/graph/DominanceComputer.hh:58-77 | an irreducible graph of four vertices with its search and its index, on which the pass gets through and a computed parent is not the immediate dominator |
| `PassExactness.ItsSearch` | include/bamf/graph/DepthFirstSearch.hh:36-58 | those orders are the ones that the recursive search of that graph finds |
| `PassExactness.PassMayThrow` | include/bamf/graph/DominanceComputer.hh:61-72 | a reducible graph, a loop with its body before its header, with the orders its search finds, on which the seed is a vertex without a parent |
| `Frontiers.LocalRule` | src/analyses/ControlFlowAnalyser.cc:36-40 | a successor that is no child is in the frontier |
| `Frontiers.UpRule` | src/analyses/ControlFlowAnalyser.cc:43-49 | what is in the frontier of a child and is itself no child is in the frontier |
| `Frontiers.RulesAreFrontier` | src/analyses/ControlFlowAnalyser.cc:34-50 | the two rules give the frontier and nothing else, given the frontiers of the children |
| `Frontiers.VertexFrontier` | src/analyses/ControlFlowAnalyser.cc:34-50 | for any tree, one round computes exactly what the two rules give from the sets of the children, which may come in any order |
| `Frontiers.RulesGiveFrontiers` | src/analyses/ControlFlowAnalyser.cc:30-50 | with the true dominator tree, sets that obey the two rules everywhere are the dominance frontiers: y with x dominating a predecessor of y and not strictly dominating y |
| `Frontiers.TreePostOrder` | src/analyses/ControlFlowAnalyser.cc:33-34 | the search of the tree lists every vertex once and children before parents |
| `Frontiers.Run` | src/analyses/ControlFlowAnalyser.cc:30-50 | for any tree that the pass may have computed all sets obey the rules, and with the true dominator tree each is the dominance frontier |
| `ControlFlow.BuildCfg` | src/analyses/ControlFlowAnalyser.cc:15-26 | the edges are exactly those from a block to a destination that one of its branches names, block by block, and the entry is that of the function |
| `ControlFlow.Analyse` | src/analyses/ControlFlowAnalyser.cc:11-51 | for every function an analysis results exactly when no seed lookup throws, in the same terms; its tree is that of the pass and its frontiers obey the rules; it is exact exactly when the condition of `PassExactness.ExactExactly` holds, so always on reducible functions |
| `ControlFlow.ControlFlowAnalysis.Dominates` | src/analyses/ControlFlowAnalysis.cc:20-27 | in one block the earlier instruction dominates, strictly; across blocks the block does, over all paths |
| `Verifier.RunOn` | src/debug/Verifier.cc:16-34 | no error is reported exactly when every instruction dominates every user that is not a phi; what is used in an unreachable block must be computed there, since the source asserts that the tree holds the block of a user |
| `Verifier.VerifiedMeansDefinedBeforeUse` | src/debug/Verifier.cc:16-34 | when all blocks are reachable, that is so exactly when along every path every instruction but a phi runs after what it uses |
| `Verifier.VerifiedOperands` | src/debug/Verifier.cc:16-34 | no error is reported exactly when the definition of every result that an instruction other than a phi reads stands before it in its block or in a block that dominates it, and the alloc of every variable it names does |
| `Verifier.VerifiedIsAvailable` | src/debug/Verifier.cc:16-34 | where results are known and phis stand first, that is availability of the operands of every instruction but phis, which the runs of every pass are stated with, together with the same for variables |
| `Verifier.VerifiedRuns` | src/debug/Verifier.cc:16-34 | in every run from the entry, what an instruction uses has been executed when control is in front of it; blocks may be unreachable |
| `TreeWalk.Pop` | src/transforms/AllocPromoter.cc:97-100 | popping a block and pushing its children keeps the order of the walk: every dominator of a visited block has been visited, and the waiting blocks that a visited one dominates are on top |
| `TreeWalk.StillInside` | src/transforms/AllocPromoter.cc:143-145 | once the walk has left the subtree of a visited block it does not come back to it |
| `TreeWalk.AllVisited` | src/transforms/AllocPromoter.cc:97-146 | when nothing waits, every reachable block has been visited |
| `TreeWalk.TreeChildren` | src/transforms/AllocPromoter.cc:143-145 | the successors in the tree are the children, each once |
| `TreeWalk.WalkIsPreorder` | src/transforms/AllocPromoter.cc:97-146 | the walk takes every reachable block once, the entry first, dominators first, and what a block dominates in one piece |
| `TreeWalk.OrderExists` | src/transforms/AllocPromoter.cc:97-146 | every tree has an order in which it is walked |
| `TreeWalk.OneOrder` | src/transforms/AllocPromoter.cc:97-146 | and no other |
| `AllocPromoter.IsDead` | src/transforms/AllocPromoter.cc:26-33 | true exactly when no user is a store |
| `AllocPromoter.IsPromotable` | src/transforms/AllocPromoter.cc:35-44 | true exactly when every store among the users stores through the variable |
| `AllocPromoter.CollectVars` | src/transforms/AllocPromoter.cc:48-77 | exactly the allocs that are neither dead nor have their address stored |
| `AllocPromoter.InsertPhis` | src/transforms/AllocPromoter.cc:79-92 | every variable gets one empty phi with a new identity in each block of the frontier of a block that stores it and can be run, and no other phi is inserted |
| `AllocPromoter.ScanInst` | src/transforms/AllocPromoter.cc:101-125 | a load takes the top of its stack, if there is one, and a store or an inserted phi pushes; then the stacks hold what the instructions so far have pushed last |
| `AllocPromoter.ScanBlock` | src/transforms/AllocPromoter.cc:101-125 | the same for a whole block, phis first |
| `AllocPromoter.UpdateSuccessors` | src/transforms/AllocPromoter.cc:127-140 | the inserted phis of exactly the successors take the top of the stack of their variable as the value from this block, if there is one |
| `AllocPromoter.WalkTree` | src/transforms/AllocPromoter.cc:94-146 | the whole walk, in the one order that the tree gives it: every load has been replaced by what was pushed last where it is, if anything was, and every phi has from each predecessor what was pushed last when the walk left it |
| `AllocPromoter.RemoveStores` | src/transforms/AllocPromoter.cc:148-157 | the stores to the variables go, nothing else does, and a change is reported exactly when there was a variable |
| `AllocPromoter.Run` | src/transforms/AllocPromoter.cc:46-159 | one run leaves such a function: each block in the frontier of a block that can be run and stores a variable has one phi for it and no other block has one; a phi has a value for block b exactly when b can be run and is a predecessor and something has been pushed for the variable when the walk leaves b: what b stores last, or else its phi, or else what the block visited last before that pushes one; loads are replaced in the same terms, and the stores are gone; without variables nothing changes |
| `AllocPromoter.PhiTakesStored` | src/transforms/AllocPromoter.cc:127-140 | so an inserted phi takes from a predecessor that stores the variable the value of the last store there |
| `AllocPromoter.RunOn` | src/transforms/AllocPromoter.cc:167-174 | at most two runs where the first frees no variable; no variable is left, and the function is what one run makes of it |
| `NextRun.AddressesFound` | src/transforms/AllocPromoter.cc:110-119 | a value is replaced by the address of a variable exactly when it carries it: directly, or through loads whose stores on top stored it |
| `NextRun.SecondRunFinds` | src/transforms/AllocPromoter.cc:46-174 | the variables that the second run finds are exactly those that the first has freed, so it finds none, and the loop stops, exactly when none is freed; freed is what some remaining store uses, and all of them store through, counting a promoted load as the address that it carries |
| `NextRun.AddressFreeFreesNone` | src/transforms/AllocPromoter.cc:35-44 | none is freed where no address is stored to a promoted variable |
| `FreedVariable.ThirdRun` | src/transforms/AllocPromoter.cc:167-174 | a function with a variable that holds the address of another: the second run promotes that one, so there is a third |
| `AllocPromoter.PromotionKeepsRuns` | src/transforms/AllocPromoter.cc:46-159 | wherever the walk is right, every run returns the same value with the same memory and the same other cells, and every promoted load that is available has the value of its replacement; a variable that may be loaded before it is stored starts undefined |
| `PromotedVariables.PlanIsSound` | src/transforms/AllocPromoter.cc:46-159 | what a run leaves is sound where the walk is right: wherever a variable is still to be loaded and has no phi, the walk enters the block with the store or phi on top that it has on top when it leaves each predecessor |
| `PromotedVariables.PushedAfterSite` | src/transforms/AllocPromoter.cc:97-125 | the value pushed last is that of the store or phi that comes last |
| `PromotedVariables.ServedExactly` | src/transforms/AllocPromoter.cc:97-125 | the walk is right exactly when, wherever a variable is still to be loaded and has no phi, the store or phi on top comes last on every path from the entry |
| `PromotedVariables.ReachedIsServed` | src/transforms/AllocPromoter.cc:97-125 | so it is where every load follows a store in its block or is dominated by the only store |
| `PromotedVariables.ReachedStartsClear` | src/transforms/AllocPromoter.cc:97-125 | and there a variable may hold anything at first |
| `CounterVariable.CounterIsServed` | src/transforms/AllocPromoter.cc:79-146 | a loop that counts in a variable, whose loads take phis: the walk is right if it takes the exit before the body |
| `CounterVariable.ExitLastIsWrong` | src/transforms/AllocPromoter.cc:94-146 | if it takes the body first, the exit is given a value that the body computes, and the function that returned 0 at once returns no more |
| `CounterVariable.CounterIsSetup` | src/transforms/AllocPromoter.cc:46-159 | the promoter takes the function in either order |
| `Rewrite.HeldAvail` | src/transforms/AllocPromoter.cc:94-146 | under that condition what stands for a variable that is still to be loaded is defined on every path there |
| `Rewrite.HeldOutside` | src/transforms/AllocPromoter.cc:94-146 | and entering a block does not compute it anew, unless it is a phi inserted for the variable |
| `Rewrite.SoundPlanKeepsRuns` | src/transforms/ConstantFolder.cc:59-140 | replacing results by values that are equal in every run, inserting phis and removing the stores of promoted variables keeps every run, if one value stands for a variable on whichever edge control comes, wherever it is still to be loaded; the meaning theorem of both passes |
| `ConstantFolder.Round` | src/transforms/ConstantFolder.cc:59-136 | one popped instruction: everything foldable and not folded stays in the list, and either fewer results are used or the list gets shorter |
| `ConstantFolder.QueuedAfter` | src/transforms/ConstantFolder.cc:74-78 | pushing the users back is enough: whatever a replacement made foldable is among them |
| `ConstantFolder.FewerUsed` | src/ir/Value.cc:19-28 | replacing the uses of a used result leaves strictly fewer used results |
| `ConstantFolder.StepShrinks` | src/transforms/ConstantFolder.cc:59-136 | so the list cannot be refilled forever: a fold that uses nothing up pushes nothing and changes nothing |
| `ConstantFolder.RemoveAll` | src/transforms/ConstantFolder.cc:138-140 | the folded instructions are removed, each once, and no other |
| `ConstantFolder.FixpointReached` | src/transforms/ConstantFolder.cc:59-140 | when the list is empty, no binary or compare has two constant operands and no phi has exactly one incoming value |
| `ConstantFolder.RunOn` | src/transforms/ConstantFolder.cc:47-141 | the pass terminates and has carried out a sound plan, and no binary or compare that it leaves has two constant operands and no phi has exactly one incoming value; blocks may be unreachable and phis may have values for blocks that are no predecessors |
| `ConstantFolder.FoldingIsSound` | src/transforms/ConstantFolder.cc:14-43 | every replacement is justified wherever the code can be run: a folded constant is the value the instruction computes |
| `ConstantFolder.FoldingKeepsRuns` | src/transforms/ConstantFolder.cc:47-141 | every run reaches the same block or returns the same value, with the same memory and cells |
| `Words.BitwiseByBits` | src/transforms/ConstantFolder.cc:14-31 | and, or and xor of two words, bit by bit |
| `Words.ShiftByBits` | src/transforms/ConstantFolder.cc:24-25 | a shift moves every bit up by the count, modulo 64, and fills in zeros |
| `CfgShape.FollowEnds` | src/transforms/CfgSimplifier.cc:44-55 | following blocks that only branch on ends in a block that stays, and one that stays has a predecessor in the graph computed at first |
| `CfgSimplifier.Run` | src/transforms/CfgSimplifier.cc:18-63 | every branch leads where following leads; exactly the entry and the blocks with a predecessor that are not a lone branch stay, and none but the entry is a lone branch; a change is reported exactly when a block went; phis are left as they are |
| `CfgSimplifier.RemoveBlock` | src/transforms/CfgSimplifier.cc:58-60 | a block is removed only when no branch leads to it, and nothing else changes |
| `CfgSimplifier.RemoveQueued` | src/transforms/CfgSimplifier.cc:57-61 | once all branches are redirected the whole queue can be removed, whatever the order, and exactly the skipped and unreached blocks are gone |
| `CfgSimplifier.PrunedTargets` | src/transforms/CfgSimplifier.cc:18-63 | no remaining branch leads to a removed block, and every one leads to a block with a predecessor in the graph computed at first |
| `CfgSimplifier.PrunedIsServable` | src/transforms/CfgSimplifier.cc:71-79 | a second run over the predecessors that are never recomputed removes nothing |
| `CfgSimplifier.FreshIsSafe` | src/transforms/CfgSimplifier.cc:76-77 | every branch of a function leads to a block with a predecessor in its own graph: what keeps the predecessors safe to use later |
| `CfgSimplifier.RunOn` | src/transforms/CfgSimplifier.cc:71-79 | at most two runs, if no cycle consists of branch-only blocks, and the same blocks stay; phis are left as they are |
| `CfgMeaning.Forward` | src/transforms/CfgSimplifier.cc:18-63 | a run from a block is matched by a run of no more blocks from where following leads, with the same instructions executed |
| `CfgMeaning.Backward` | src/transforms/CfgSimplifier.cc:18-63 | and the other way round |
| `CfgMeaning.SimplificationKeepsRuns` | src/transforms/CfgSimplifier.cc:18-79 | without phis, every run executes the same instructions other than branches and returns the same, in both directions |
| `MoveInserter.VisitBinary` | src/backend/MoveInserter.cc:50-59 | four instructions in place of one, in this order and right where it was, and the result renamed everywhere |
| `MoveInserter.VisitCompare` | src/backend/MoveInserter.cc:63-72 | the same for a compare |
| `MoveInserter.VisitCondBranch` | src/backend/MoveInserter.cc:74-79 | the condition moved to the register of its value, and the branch on that register at the end of the block |
| `MoveInserter.VisitLoad` | src/backend/MoveInserter.cc:81-86 | a move from the variable to a new register, and the result renamed everywhere |
| `MoveInserter.VisitPhi` | src/backend/MoveInserter.cc:88-96 | a copy in front of the terminator of every incoming block, the block of the phi itself included |
| `MoveInserter.VisitStore` | src/backend/MoveInserter.cc:98-101 | a move to the variable |
| `MoveInserter.VisitRet` | src/backend/MoveInserter.cc:103-107 | a constrained register that takes the value in front of the return |
| `MoveInserter.StepPlain` | src/backend/MoveInserter.cc:119-123 | an instruction visited in place, whatever was visited before, leaves the closed form one instruction further |
| `MoveInserter.StepPhi` | src/backend/MoveInserter.cc:119-123 | so does a phi, whose copies go to other blocks behind those put there before |
| `MoveInserter.RunOn` | src/backend/MoveInserter.cc:111-124 | all visits together leave the closed form: every block lowered, with its copies, and every use renamed at once |
| `RegAllocator.SharedLocation` | src/backend/RegAllocator.cc:39-53 | two registers share a location exactly when both are constrained to the return register |
| `RegAllocator.Locate` | src/backend/RegAllocator.cc:39-54 | a register that is written for the first time gets rax if it is constrained and otherwise a new alloc in front of the entry, everywhere it is used |
| `RegAllocator.RunOn` | src/backend/RegAllocator.cc:14-56 | exactly the written registers have a location, all others none, every new alloc is that of a register, and every use is replaced |
| `Backend.DispExact` | src/x86/Backend.cc:67-70 | a slot is addressed where it lies exactly when its offset is at most 2 to the 31 |
| `Backend.InstTranslator.VisitAlloc` | src/x86/Backend.cc:80-85 | slots are handed out 8 bytes apart, downwards |
| `Backend.InstTranslator.VisitMove` | src/x86/Backend.cc:150-160 | at most one operand of a move is in memory: a move between slots goes through rcx |
| `Backend.InstTranslator.VisitInst` | src/x86/Backend.cc:87-173 | the emitted code grows by the code of the instruction that the simulation lemmas speak of, and by nothing else |
| `Backend.InstTranslator.NumberBlocks` | src/x86/Backend.cc:191-193 | the blocks are numbered in pre-order, each once |
| `Backend.RunOn` | src/x86/Backend.cc:187-210 | the reachable blocks and no others are emitted in pre-order, and the frame has 8 bytes for every alloc |
| `StackFrame.SlotBelowFrame` | src/x86/Backend.cc:80-85 | no slot overlaps the saved rbp or the return address |
| `StackFrame.SlotWritten` | src/x86/Backend.cc:67-70 | writing a slot changes that slot and no other |
| `StackFrame.PlaceHolds` | src/x86/Backend.cc:67-78 | an emitted operand holds the value of what it stands for |
| `GroupSim.BinarySim` | src/backend/MoveInserter.cc:50-59 | the four instructions of an operation leave its result in the slot of the result, and nothing else that counts |
| `GroupSim.SetMeansCompare` | src/x86/Backend.cc:115-134 | setcc tests the flags of the compare as the IR predicate does, for all words |
| `GroupSim.SetccExact` | src/x86/Backend.cc:133-133 | written at width 8 over the register of the left operand, the result is right exactly when that operand is below 256 |
| `GroupSim.CompareSim` | src/x86/Backend.cc:115-134 | so the code of a compare leaves what the IR computes exactly when the left operand is below 256 |
| `GroupSim.LoadSim` | src/backend/MoveInserter.cc:81-86 | the code of a load; an undefined one leaves some value in the slot |
| `GroupSim.StoreSim` | src/backend/MoveInserter.cc:98-101 | the code of a store |
| `PhiCopies.CopiesRightExactly` | src/backend/MoveInserter.cc:88-96 | copying in order gives all phis the values they take together, for every environment, exactly when no phi takes an earlier phi of its block that changes on that edge |
| `CopyRuns.CopiesAreAll` | src/backend/MoveInserter.cc:88-96 | the copies that end up in a block are those of all phis with a value for it, in the order of the function |
| `CopyRuns.CopiesAtCut` | src/backend/MoveInserter.cc:111-124 | those of the phis that stand before its terminator are in the block when that is visited, so they come in front of what it reads; the others come behind that, in front of the branch |
| `Liveness.CopiesRightWhen` | src/backend/MoveInserter.cc:88-96 | for all values of the results, what the terminators read and what is read behind every edge has after the copies the value it has in the function, exactly when no result that is overwritten is read there, phis get what they take, and no copy in front of a condition or a returned value overwrites it; read means along some path before the block of the phi is entered again |
| `Liveness.StaleHarmlessWhen` | src/backend/MoveInserter.cc:88-96 | a phi that is overwritten at the end of a block that is no predecessor any more comes to no harm exactly when it is not live behind that block |
| `Liveness.MatchingPhisServe` | src/backend/MoveInserter.cc:88-96 | the condition is met where phis have values for exactly the predecessors, these end in a plain branch, and no copy takes what an earlier one has overwritten |
| `KeptResults.ReturnKept` | src/backend/MoveInserter.cc:88-96 | where the copies bring along every path what is read on it, a run that returns is a run with copies for phis that returns the same |
| `StaleCopy.StaleCodeReturns` | src/backend/MoveInserter.cc:88-96 | a function that returns 5 with a phi that has a value for a former predecessor: every call of its code returns 7 |
| `StaleCopy.StaleReturns` | src/backend/MoveInserter.cc:88-96 | that function returns 5 |
| `StaleCopy.StaleIsLive` | src/backend/MoveInserter.cc:88-96 | the phi is overwritten at the end of that block and live behind it |
| `StaleCopy.StaleIsCompilable` | src/x86/Backend.cc:177-210 | the backend takes the function |
| `LateCondition.CountdownCodeReturns` | src/backend/MoveInserter.cc:74-96 | a countdown whose branch tests the phi of its own block returns 0: every call of its code returns 1 |
| `LateCondition.CountdownReturns` | src/backend/MoveInserter.cc:74-96 | that function returns 0 |
| `LateCondition.ConditionOverwritten` | src/backend/MoveInserter.cc:74-96 | the copy for the next round stands in front of the move of the condition |
| `LateCondition.CountdownIsCompilable` | src/x86/Backend.cc:177-210 | the backend takes the function |
| `BlockSim.InstSim` | src/backend/MoveInserter.cc:50-107 | the code of any instruction of a body does what the instruction does |
| `BlockSim.BodySim` | src/x86/Backend.cc:200-202 | the code of a body does what the body does |
| `BlockSim.CopiesSim` | src/backend/MoveInserter.cc:88-96 | the code of the copies does the copies in order |
| `BlockSim.KeySim` | src/backend/MoveInserter.cc:74-79 | the condition moved to its register changes nothing else that counts: the register is that of the phi which the condition is, or one in which no result lives |
| `BlockSim.CondBranchSim` | src/x86/Backend.cc:136-142 | a conditional branch reaches the label of the block that its register says |
| `BlockSim.ResultSim` | src/backend/MoveInserter.cc:103-107 | the returned value is moved into rax, which changes nothing else that counts |
| `BlockSim.RetSim` | src/x86/Backend.cc:170-173 | a return leaves rax as it is, rbp restored and rsp above the return address |
| `CodeLayout.LabelOnce` | src/x86/Backend.cc:194-195 | the label of every emitted block stands once, at its start |
| `CodeLayout.AllLabelsResolve` | src/x86/Backend.cc:110-142 | every jump names a label that is emitted exactly once |
| `CodeLayout.BlockAt` | src/x86/Backend.cc:194-203 | the code of every block stands behind its label, whole |
| `Reentry.ReenteredNeverReturns` | src/x86/Backend.cc:194-199 | a run that keeps to its variables and comes back to the entry does so for ever |
| `ProgramSim.EndRun` | src/backend/MoveInserter.cc:74-107 | everything behind the body of a block, with copies before and behind what the terminator reads, does what the terminator and the copies do |
| `ProgramSim.BlockRun` | src/x86/Backend.cc:194-203 | the code of a block runs to where the block goes, in a related state, the copies included |
| `ProgramSim.RunFollows` | src/x86/Backend.cc:187-210 | the program follows a run with copies for phis for as long as that does not come back to the entry |
| `ProgramSim.ProgramReturns` | src/x86/Backend.cc:187-210 | such a run that returns is matched by a run of the program from its first instruction to a return with the value in rax |
| `FrameSafety.StepSafe` | src/x86/Backend.cc:59-173 | one step of framed code neither faults nor leaves the frame: the invariant up to where control comes back to the start |
| `FrameSafety.StepTracks` | src/x86/Backend.cc:170-199 | one step moves rsp by push, pop and return alone, and coming back to the start leaves it eight bytes lower |
| `FrameSafety.CodeIsFramed` | src/x86/Backend.cc:187-210 | all the code of a function is framed: it writes only rax, rcx and slots, reads flags right behind a compare, pops rbp right in front of a return, and jumps back to the prologue only for an edge to the entry |
| `FrameSafety.CodeIsFrameSafe` | src/x86/Backend.cc:170-202 | for every machine that enters the code and every number of steps: no fault; after a return rsp is eight bytes lower for each time control came back to the start; until then no byte outside the frame has changed and the saved rbp is intact; and a return, after fewer than 2 to the 61 such times, gives the caller rbp, rsp and control at the return address exactly when control never came back; where no edge leads to the entry it never does |
| `EntryLoop.SpinLeavesFrame` | src/x86/Backend.cc:194-199 | the code of a block that branches to itself writes outside its frame with the second push |
| `EntryLoop.SpinGoesRound` | src/x86/Backend.cc:194-199 | for any machine that code is back at its start after four steps, as after one prologue more |
| `EntryLoop.SpinIsEmitted` | src/x86/Backend.cc:187-210 | it is the code that emission gives for that block |
| `EntryLoop.SpinIsCompilable` | src/x86/Backend.cc:177-210 | the backend takes the function |
| `Compilation.LoweredBlock` | src/backend/MoveInserter.cc:50-107 | a lowered block is its lowered body and its lowered terminator, with some of the copies in front of what that reads and the others behind it |
| `Compilation.CopiesAre` | src/backend/MoveInserter.cc:88-96 | these copies are those of all phis that have a value for the block, in the order of the function, parted where the block stands in it |
| `Compilation.KeyOfPhi` | src/backend/MoveInserter.cc:42-47 | a condition that is a phi is tested in the register of the phi exactly when that is visited after the branch |
| `Compilation.ResultWritten` | src/backend/RegAllocator.cc:31-38 | the register of every result is written somewhere, so it gets a location |
| `Compilation.WrittenNames` | src/backend/RegAllocator.cc:31-38 | and every register but those of return values is there for a result or for the condition of a block |
| `Compilation.FrameAtMost` | src/x86/Backend.cc:80-85 | so the frame has at most one slot for each alloc, result and conditional branch |
| `Compilation.LoweredConstraints` | src/backend/RegAllocator.cc:25-28 | every constraint stands in front of the write of its register, and no register is constrained twice |
| `Compilation.NoVirtualOperands` | src/x86/Backend.cc:67-78 | after allocation no operand is virtual and every alloc has a slot |
| `Compilation.MeaningKept` | src/backend/MoveInserter.cc:88-96 | code whose calls return what runs with copies return keeps the meaning of the function under the condition of `Liveness.CopiesRightWhen` |
| `Compilation.RunOn` | src/x86/Backend.cc:177-210 | the whole backend: labels resolve; the frame has at most one slot for each alloc, result and conditional branch of the function, and with a frame in reach of its displacements calls return what runs with copies for phis return, and what runs of the function return where the copies are right, for runs that return and compare small values; every call, whatever it compares and whether or not it returns, keeps to its frame as far as `FrameSafety.CodeIsFrameSafe` says |
| `FrontendCode.LoadSim` | src/x86/Frontend.cc:24-38 | the code of a source operand leaves the value the machine reads, and changes no register, flag or memory |
| `FrontendCode.StoreSim` | src/x86/Frontend.cc:40-55 | the code of a destination leaves the machine state after the write |
| `FrontendCode.BinarySim` | src/x86/Frontend.cc:57-63 | add, and shl by less than 64, up to the flags |
| `FrontendCode.CmpSim` | src/x86/Frontend.cc:65-83 | cmp leaves the flags of the machine |
| `FrontendCode.OverflowFlag` | src/x86/Frontend.cc:70-74 | the xor-and formula is signed overflow, for all words |
| `FrontendCode.SignedMeaning` | src/x86/Frontend.cc:65-118 | after cmp of a and b, jg, jge and jle hold exactly when a is greater, greater or equal, less or equal as signed integers |
| `FrontendCode.IncSim` | src/x86/Frontend.cc:85-89 | inc, up to the flags |
| `FrontendCode.JgSim` | src/x86/Frontend.cc:91-100 | the branch goes where the machine jumps |
| `FrontendCode.JgeSim` | src/x86/Frontend.cc:102-108 | the branch goes where the machine jumps |
| `FrontendCode.JleSim` | src/x86/Frontend.cc:110-118 | the branch goes where the machine jumps |
| `FrontendCode.MovSim` | src/x86/Frontend.cc:125-127 | mov, through memory too |
| `FrontendCode.PopSim` | src/x86/Frontend.cc:129-136 | pop, unless it pops into rsp or into memory addressed by rsp |
| `FrontendCode.PopExactly` | src/x86/Frontend.cc:129-136 | pop is translated faithfully for all machines exactly when its destination is neither |
| `FrontendCode.PushSim` | src/x86/Frontend.cc:138-143 | push, of rsp too |
| `Frontend.Translator.Translate` | src/x86/Frontend.cc:233-272 | the current block grows by the code of the instruction that the simulation speaks of, and no other block changes |
| `Frontend.Translator.BuildJumpTargets` | src/x86/Frontend.cc:154-180 | every jump target and every fall-through of a conditional jump has a block of its own |
| `Frontend.Translator.StartAt` | src/x86/Frontend.cc:214-231 | an instruction that is a jump target begins its block, joined to the one before it; behind a terminator a new block begins |
| `Frontend.ChunkEnds` | src/x86/Frontend.cc:91-152 | the code of an instruction ends in a terminator exactly when control does not fall through |
| `Frontend.DecodedTranslates` | src/x86/Frontend.cc:233-272 | a decoded instruction is translated exactly when it is no call, no xor and no inc of memory |
| `Frontend.Translator.Run` | src/x86/Frontend.cc:202-276 | decoded instructions are all translated exactly when none is a call, a xor or an inc of memory; every one lies in one piece in one block, in order, and where it falls through the next one follows directly or by a branch |
| `FrontendSim.InstructionSim` | src/x86/Frontend.cc:57-152 | the code of every supported instruction has the effect of the instruction |
| `FrontendSim.StepSim` | src/x86/Frontend.cc:202-276 | from the place of an instruction the IR reaches the place of the next one, in the same block or one block later |
| `FrontendSim.Simulates` | src/x86/Frontend.cc:202-276 | every machine run passes through the places of its instructions with the same registers, memory and cmp flags, and returns what the function returns |
| `FrontendSim.SimulatesInOrder` | src/x86/Frontend.cc:202-276 | and does so in order: the blocks entered never get fewer, and grow by at most one a step |
| `FrontendSim.Lift` | src/x86/Frontend.cc:202-276 | a function results from decoded instructions exactly when none is a call, a xor or an inc of memory; each place is that of the translation of its instruction, and the simulation holds whenever control stays within the program and operands are 64 bits wide |
| `Stream.Stream.Read8` | src/support/Stream.cc:7-10 | the next byte |
| `Stream.Stream.Read16` | src/support/Stream.cc:12-15 | the next two bytes, the first the least significant |
| `Stream.Stream.Read32` | src/support/Stream.cc:17-20 | the next four bytes |
| `Stream.Stream.Read64` | src/support/Stream.cc:22-25 | the next eight bytes |
| `Stream.SpellJoined` | src/support/Stream.cc:12-25 | reading two parts and shifting the second is reading the whole |
| `Stream.WriteRead` | src/x86/Decoder.cc:307-309 | the bytes of a number that was read are the bytes it was read from |
| `Decoder.Decoder.constructor` | src/x86/Decoder.cc:58-179 | the tables built entry by entry, ranges and slash extensions included, are the opcode tables that decoding is defined with, which `Encoding.RowIs` compares with the manual |
| `Decoder.Decoder.NextImm` | src/x86/Decoder.cc:279-311 | an immediate and its recorded bytes, or truncation |
| `Decoder.Decoder.NextRm` | src/x86/Decoder.cc:316-357 | a register or memory operand and the bytes consumed for it, or the errors of the source |
| `Decoder.Decoder.NextRel` | src/x86/Decoder.cc:363-384 | a relative target counted from the end of the instruction |
| `Decoder.Decoder.NextOperands` | src/x86/Decoder.cc:271-388 | the operands in order; the 16-byte buffer is never overrun |
| `Decoder.Decoder.NextInst` | src/x86/Decoder.cc:181-390 | an instruction results exactly when some encoding of a supported form stands at the offset, and it is the instruction so encoded, whichever that is; exactly its bytes are consumed, and what is no encoding is an error |
| `Encoding.RowIs` | src/x86/Decoder.cc:58-179 | the table entry at the opcode of every supported form of the manual has the operation, the operands and the widths of that form |
| `Encoding.DecodesEncoding` | src/x86/Decoder.cc:181-390 | the bytes of every encoding, wherever they stand, decode to the instruction it is: opcode, width, registers, base and signed displacement, immediate, target |
| `Encoding.Recovered` | src/x86/Decoder.cc:181-390 | whatever decodes is the bytes of an encoding, which is found |
| `Encoding.DecodesExactly` | src/x86/Decoder.cc:181-390 | so decoding succeeds exactly on encodings |
| `Encoding.RoundTrip` | src/x86/Decoder.cc:181-390 | encoding an instruction by the manual and decoding it anywhere in a stream gives it back, with the operands that the manual means exactly under the condition of `Encoding.MeansExactly` |
| `Encoding.MeansExactly` | src/x86/Decoder.cc:271-388 | the decoded operands are those of the manual exactly when no register field is extended by REX, no operand has an index, and no immediate that is to be sign-extended is negative |
| `Encoding.TakesTooMany` | src/x86/Decoder.cc:279-384 | for the bytes of the manual, how many bytes decoding takes behind them: one for the register with number 4, three for a short jump with an address size prefix, two for mov of an immediate with an operand size prefix, and otherwise none |
| `Decoding.DecodeTakes` | src/x86/Decoder.cc:181-390 | the recorded bytes are the bytes of the stream from the offset on, as many as the length, and at most 14 |
| `Decoding.DecodeMoves` | src/x86/Decoder.cc:181-390 | the same bytes elsewhere decode to the same instruction with its relative target moved along |
| `Decoding.Redecodes` | src/x86/Decoder.cc:181-390 | decoding the recorded bytes alone gives the instruction back, moved to offset 0 |
| `Decoding.RmLengthExact` | src/x86/Decoder.cc:322-337 | an operand takes the bytes the architecture gives it exactly when it is not the register with number 4 |
| `Decoding.MovToRspTakesNext` | src/x86/Decoder.cc:322-337 | mov into rsp from any of eight registers takes the byte behind it, whatever it is |
| `Decoder.DecodeConserves` | tools/bamf-decomp/main.cc:41-43 | the instructions tile the rest of the stream, and their bytes joined are it |
| `Decoder.ProgramsExactly` | tools/bamf-decomp/main.cc:38-43 | a stream decodes exactly when it is a sequence of encodings, and to the instructions of any such sequence |
| `Decoder.DecodeAll` | tools/bamf-decomp/main.cc:38-43 | the decode loop succeeds exactly when the code is a sequence of encodings, and gives the instructions of any such sequence; their bytes joined are the whole code and they are contiguous from 0 |
| `Decompiler.Decompile` | tools/bamf-decomp/main.cc:38-46 | from bytes to a function: one results exactly when the bytes are a sequence of encodings without calls, xors and incs of memory; it simulates the code whenever control stays within the program and operands are 64 bits wide |
| `Decompiler.LiftableExactly` | tools/bamf-decomp/main.cc:38-46 | such sequences are exactly the bytes that decode to instructions that are all translated |
| `UseLists.CountReplaced` | src/ir/Instructions.cc:60-63 | replacing operands moves their count from one value to the other |
| `UseLists.CountWithoutFirst` | src/ir/Value.cc:12-17 | removing a user takes away one occurrence of it, if there is one |
| `UseLists.Value.RemoveUser` | src/ir/Value.cc:12-17 | the first occurrence goes, and a user that is not there changes nothing |
| `UseLists.Value.ReplaceUsesOfWith` | src/ir/Instructions.cc:95-98 | every operand that is the old value becomes the new one |
| `UseLists.Value.Make` | src/ir/Instructions.cc:12-15 | a new instruction is once in the list of an operand for every slot that holds it, and all lists stay exact |
| `UseLists.Value.Destroy` | src/ir/Instructions.cc:17-20 | an instruction that nothing uses leaves every list, and the others stay exact |
| `UseLists.Value.ReplaceAllUsesWith` | src/ir/Value.cc:19-28 | no slot holds the value any more, the other value has its users, and all lists stay exact |
| `ObjectRename.UsersAreObjects` | src/ir/Value.cc:8-10 | the user list of a value names exactly the instructions that the passes find as its users |
| `ObjectRename.RenameReplaces` | src/ir/Instructions.cc:60-186 | renaming a result in an instruction replaces it in its slots, for every kind of instruction, incoming values of phis included |
| `ObjectRename.ReplaceResult` | src/ir/Value.cc:19-28 | redirecting the uses of a result on the objects makes them stand for the renamed function, and the lists stay exact |
| `ObjectRename.ReplaceRegister` | src/backend/RegAllocator.cc:54-54 | the same for a virtual register and its location |
| `CountingLoop.LoopIsCompilable` | src/x86/Backend.cc:177-210 | the backend's demands are met by a loop with a variable, a compare and a phi |
| `CountingLoop.LoopCopiesServe` | src/backend/MoveInserter.cc:88-96 | the copies of the loop stand in for its phi |
| `CountingLoop.LoopIsFoldee` | src/transforms/ConstantFolder.cc:47-141 | so are the folder's |
| `CountingLoop.LoopIsReady` | src/transforms/AllocPromoter.cc:46-159 | and the promoter's, with the dominator tree of the loop |
| `CountingLoop.LoopCodeReturns` | src/x86/Backend.cc:187-210 | code that keeps the meaning of the loop, as the emitted code does, returns its limit in rax, for every limit below 256 and every machine |

## Findings

What the code does not do, each with a lemma that names the inputs exactly:

- **setcc at width 8** (src/x86/Backend.cc:115-134). The result of a compare is written to the low byte of the register
  that still holds the left operand, so it is right exactly when that operand is below 256: `GroupSim.SetccExact`,
  `GroupSim.CompareSim`. Runs in which every compare is small are what `Compilation.RunOn` promises the same result for.
- **Phi copies in order** (src/backend/MoveInserter.cc:88-96). Copies made one after another are right on an edge exactly
  when no phi takes an earlier phi of its own block that changes on that edge: `PhiCopies.CopiesRightExactly`. The
  condition that no phi takes any phi of its own block is stronger than needed.
- **Stale copies** (src/backend/MoveInserter.cc:88-96). A phi may have a value for a block that is no predecessor any
  more; the copy is made there all the same and overwrites the phi. It does no harm exactly when the phi is not live
  behind that block: `Liveness.StaleHarmlessWhen`, `Liveness.CopiesRightWhen`. A function that returns 5 and whose code
  returns 7: `StaleCopy.StaleCodeReturns`. A phi that is live behind one of two edges, with a value for the other, is
  overwritten in the same way.
- **Conditions read after copies** (src/backend/MoveInserter.cc:74-96). Copies of phis that stand before a conditional
  branch come in front of the move of its condition. That is harmful exactly when they overwrite the condition, which is
  part of the condition of `Liveness.CopiesRightWhen`. A function that returns 0 and whose code returns 1:
  `LateCondition.CountdownCodeReturns`.
- **Branches to the entry** (src/x86/Backend.cc:194-199). The label of the entry stands in front of the prologue, so each
  branch to it pushes rbp again and shifts every slot. A call returns into its caller exactly when control never comes
  back there, and after n times rsp is 8 n too low: `FrameSafety.CodeIsFrameSafe`. A function whose code leaves its frame:
  `EntryLoop.SpinLeavesFrame`. Runs of the function that come back to the entry never return
  (`Reentry.ReenteredNeverReturns`), so what is promised of runs that return does not suffer.
- **32-bit displacements** (src/x86/Backend.cc:67-70). A slot further than 2 to the 31 below rbp is addressed elsewhere:
  `Backend.DispExact`.
- **One pass for dominance** (include/bamf/graph/DominanceComputer.hh:57-77). The test for a change is inverted, so the
  loop stops after one pass; the parents are exact on reducible graphs, and otherwise exactly when
  `PassExactness.RetreatsInside` holds of graph and search order: `PassExactness.ExactExactly`. A graph where they are
  not: `PassExactness.PassNotAlwaysExact`.
- **The seed lookup throws** (include/bamf/graph/DominanceComputer.hh:41-51,61-72). The seed is the first predecessor that
  has predecessors itself, handled or not. The pass gets through exactly when it is handled for every vertex
  (`DominanceComputer.Pass`), and even an ordinary loop whose body precedes its header in the function makes it throw:
  `PassExactness.PassMayThrow`.
- **One stack for all branches** (src/transforms/AllocPromoter.cc:94-146). What a branch pushes stays on the stack when
  the walk goes on with the next one, and frontiers are not iterated. The walk is right exactly where the store or phi
  on top comes last on every path to a load: `PromotedVariables.ServedExactly`, and there the meaning is kept:
  `AllocPromoter.PromotionKeepsRuns`. A counting loop is right or wrong with the order of two siblings in the dominator
  tree, which comes from a hash table: `CounterVariable.CounterIsServed`, `CounterVariable.ExitLastIsWrong`.
- **More than two promotion runs** (src/transforms/AllocPromoter.cc:167-174). Removing a store of an address can make
  another variable promotable. The loop stops after two runs exactly when the first frees no variable:
  `NextRun.SecondRunFinds`; a function with a third run: `FreedVariable.ThirdRun`.
- **pop into rsp** (src/x86/Frontend.cc:129-136). The new rsp is stored after the destination, so pop is translated
  faithfully exactly when its destination is neither rsp nor memory addressed by rsp: `FrontendCode.PopExactly`.
- **The SIB byte** (src/x86/Decoder.cc:322-337). It is read before the mode is looked at, so a register operand with
  number 4 takes a byte too many: `Decoding.RmLengthExact`, `Decoding.MovToRspTakesNext`.
- **Prefixes and lengths** (src/x86/Decoder.cc:279-311,363-384). The prefix 67 makes the distance of a short jump four
  bytes wide, and 66 leaves the immediate of `C7` at four: three and two bytes too many, `Encoding.TakesTooMany`.
- **Extended registers, indexes and signs** (src/x86/Decoder.cc:271-388). REX.R, REX.X and REX.B and the index are
  dropped or not extended, and the immediates of `83` and of `C7` with REX.W are not sign-extended. The operands are
  those of the manual exactly where none of these comes into play: `Encoding.MeansExactly`, `Encoding.RoundTrip`. `C7` is
  taken for mov with any field in its ModRM byte; those are encodings of `Encoding.DecodesExactly` too.

## Left out

- File and ELF loading, printing, logging, statistics, names of values, the command-line drivers other than the decode loop: no algorithmic property.
- ConstantBranchEvaluator, TriviallyDeadInstPruner, PassManager, Program, Stack: they would only add easy members.
- StackSimulator and RegisterLocaliser: sound only under assumptions on aliasing that are not in the code.
- Graph::disconnect, Graph::remove and Graph::edges: no pass modelled here uses them.
- Compilation.RunOn: covers functions whose variables live in the entry block and have no address taken, without Shl, where every phi has a value; a phi without any gets no location. The same result is promised for runs that return and whose compares are small, and for frames of at most 2 to the 31 bytes; frame safety has neither restriction on runs.
- Compilation.RunOn: constants are values, so two branches on equal constants share a register here, where the source has one register for each constant object.
- FunctionObject.ReplaceAllUses: one step on the value of a function; `ObjectRename.ReplaceResult` proves that the user lists carry it out. Object identity of operands beyond that, and phi incoming blocks as operands, are not modelled.
- UseLists: covers operands of instructions, not basic blocks as operands, and not null as the replacement. PhiInst::replace_uses_of_with on incoming blocks is not modelled.
- Verifier.RunOn: assumes the true dominator tree, and that what is used in an unreachable block is computed in that block; otherwise the source fails an assertion in the tree.
- AllocPromoter.PromotionKeepsRuns: nothing is promised where the walk is not right. That is not always wrong: two stores may store the same value, and a path may never be taken.
- AllocPromoter.Run: assumes the true dominator tree, which the analysis finds exactly under the condition of `ControlFlow.Analyse`.
- AllocPromoter.RunOn: a variable that is stored its own address is not covered. An address has no number in the IR, so a run that computes with one is stuck there.
- AllocPromoter.RunOn: claims nothing of a third run; the second run finds no variable and is shown to change nothing.
- ConstantFolder.RunOn: the list of instructions to remove is a set; the source would remove an instruction that was pushed twice a second time. Shift counts of 64 and more get a run stuck, as the source leaves them undefined.
- ConstantFolder.RunOn: assumes that in unreachable code phis with a single incoming value do not feed each other in a circle; there the list would never become empty.
- CfgSimplifier.RunOn: assumes that no cycle consists of branch-only blocks.
- CfgSimplifier.Run: meant for functions without phis; the source takes removed blocks out of the incoming blocks of phis, the model leaves phis as they are. CfgMeaning.SimplificationKeepsRuns is for functions without phis; with phis the recorded predecessor becomes the destination block itself, so there is nothing to preserve.
- Frontend.Translator.Run: operand widths other than 64 bits, flags of add, inc and shl (undefined here until the next cmp), sign extension of immediates and memory operands with an index are outside of the simulation. The operands of shl are loaded left to right; C++ leaves the order open.
- FrontendSim.Lift: shl is simulated for an immediate count below 64.
- Decoder.Decoder.NextInst: reading past the end of the stream is a truncation error here; the source reads out of bounds.
- Decoder.DecodeAll: the order in which the two halves of a number are read is left to right.
