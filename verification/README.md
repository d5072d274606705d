# PARS: verified models of the back end, the binary translator and the undo log

PARS is a processor simulator. A Pin frontend feeds basic blocks to a block-granular out-of-order back end, and a
binary translator optimises the program beforehand. This project models the parts of it that carry deep
invariants, in Dafny, and proves what those parts are for.

**Register renaming** (`RenameSpec`, `RenameWindow`, `RenameRecovery`, `RenameMachine`, `RenameReset`,
`RegisterRename`, `GrfManager`). The classes `RegisterRename` and `GrfManager` update maps, register states, link
chains and free lists in place, and each operation equals a function on tables. Over these functions: every
physical register is in exactly one place, no assertion of the source fires once `canRename` holds, a squash equals
undoing every in-flight rename, and after any interleaving of renames, out-of-order completions, in-order commits and
squashes the physical registers hold what sequential execution of the unsquashed instructions gives.

**Block commit and squash** (`ProtocolSpec`, `ProtocolSteps`, `ProtocolFrontEnd`, `ProtocolStages`,
`ProtocolCycle`, `ProtocolRuns`, `ProtocolDetect`, `ProtocolPlaced`, `ProtocolSeen`, `ProtocolEpisode`, `ProtocolStuck`,
`ProtocolRescue`, `ProtocolRefill`, `ProtocolStall`, `SmallBlocks`, `FailingRuns`, `HangingRun`, `BlockProtocol`). The
class `BackEnd` runs the stages of a cycle in the order of `runCore`. Each stage method equals a function of the state and
of what the environment decides: widths, finished loads and units, issued instructions, free wires. The runs interleave
any such cycles with blocks delivered by the frontend. What has committed is always exactly a leading part of the correct
path; only wrong-path blocks are deleted; a violation starts a squash in the cycle that finds it; a squash episode restarts
at most as often as its first squash number is large, and exactly when it can end is known; the squash finds the offending
block in front of both tables; and no assertion of the model fails while the frontend refills the block cache whenever the
back end asks for it.

**Compiler passes.** Dominators, dominator tree and dominance frontiers (`Cfg`, `BasicBlocks`, `Dominators`,
`DomTree`), phi placement (`PhiPlacement`), liveness (`Liveness`, `BlockEntry`), colouring (`InterfNodes`, `Coloring`,
`Interference`), register allocation and its meaning (`RegisterAllocate`, `Allocation`, `ScheduledAllocation`), list
scheduling (`QuickSort`, `Dependence`, `ListSchedule`, `DependencySetup`) and basic-block formation (`BlockForming`).
Each pass is an imperative method over objects and lists, proved against a definition that does not mention the pass:
path dominance, the least closed set, path liveness, execution of the program before and after.

**Undo log** (`UndoLog`). Recovery restores memory however wrong-path writes overlap.

An object that the source points to is named by its position in a list, its number or its address. Where the
source iterates over a map or a set, the model leaves the order open. A source assertion is a proof obligation
where it cannot fail, and an `ok` result, a status or a missing state where it can. Memory, values and what
instructions compute are arbitrary functions. `Collections` holds what all modules share.

## Findings

Where the code does not do what it is for, an input shows it and a theorem says when it does.

| finding | source | input | condition |
|---|---|---|---|
| `build_dominators` sweeps until no set changes, but the "all" flag of a block can clear while its set stays; with several entries the loop can end with a dominator missing | src/binaryTranslator/dominator.cpp:27-62 | `Dominators.StopsEarly` | per visit `Dominators.ChangeMissed` (if and only if); for the pass `Dominators.BuildDominators` under `Timely`, which one entry meets (`SingleEntryIsTimely`), and so does a list in which reachable blocks follow an entry or a reachable ancestor (`ListedInOrderIsTimely`); sufficient and not necessary (`TimelyIsNotNeeded`) |
| `livenessAnalysis` looks only at the sizes of the sets at the ends of blocks and can end with a live register missing | src/binaryTranslator/basicblock.cpp:926-962 | `Liveness.SizeTestStopsEarly` | `Liveness.LivenessAnalysis` under `EnteredAtHead`, which the blocks of `make_basicblock` meet (`BlockEntry.FormedBlocksAreEnteredAtHead`); shown sufficient only |
| a definition that is not live out of its instruction gets no edge to what stays live past it, and the assignment may overwrite a live register | src/binaryTranslator/registerAllocate.cpp:284-301 | `Allocation.DeadDefinitionLosesValue` | for one assignment `Allocation.RunsAlikeExactly`, for all of a graph `Allocation.AllocationExactly` (both if and only if); met when definitions are live out (`Allocation.LiveDefsMeet`) |
| the interference graph is built after list scheduling from live sets computed before it, and the schedule may put a definition between another one and its use with both in one register | src/binaryTranslator/registerAllocate.cpp:464-493 | `ScheduledAllocation.ScheduleLosesValue` | `ScheduledAllocation.ScheduledExactly`, and for one assignment `Allocation.RunsAlikeExactly` on the scheduled block (both if and only if) |
| `commitImpl` asserts that fetch has marked the block as done; nothing in the back end alone ensures it | src/backend/bb/commit.cpp:103-107 | `FailingRuns.UnrefilledRunFails` | per cycle `ProtocolRefill.CycleFailsExactly` (if and only if); for runs `ProtocolRefill.RefilledNeverFails` under `Refilled`, and without refills `ProtocolStall.StalledCanFail` |
| `getNewBB` marks the current block as done before it looks into the cache; if the cache is empty, the next attempt fails the assertion of `setDoneFetch` | src/backend/bb/fetch.cpp:140-153 | `FailingRuns.DrainingRunFails` | `ProtocolCycle.FetchAborts` (if and only if); never with the frontend running (`ProtocolCycle.RunningLeavesOpen`) |
| when a store that is on the wrong path also finds a load violated, `completeIns` records the load only; if the store completes its block, nothing blames that block any more, and the squash of the load waits for ever for it to commit | src/backend/bb/execution.cpp:157-178 | `HangingRun.SquashNeverEnds` | `ProtocolRescue.EpisodeEndsExactly` (if and only if) |

Three of these do not happen in the program as it stands. `make_basicblock` never forms a block that control enters past
its head, as the liveness input has (src/binaryTranslator/make_basicblock.cpp:17-135). `runCore` leaves for the frontend
where the run that fails in commit goes on, and `backEnd` calls it again with at least 550 blocks
(src/frontend/pars.cpp:6, src/frontend/pars.cpp:204-207), so `BlockProtocol.BackEnd.BackEndRun` never fails. The call with
FRONTEND_DONE that the run failing in fetch needs is commented out (src/frontend/pars.cpp:227-246). Scheduling before
assignment does happen: the assertion that would rule list scheduling out with the GLOBAL mode is commented out as a bad
combination (src/binaryTranslator/main.cpp:106). No cycle of the run in which
the squash never ends leaves for the frontend, so the program may take it; the stall assertion of `verifySim` then stops it
(src/backend/bb/commit.cpp:337-343).

Code and comment differ once: the comment on `quicksortLongestPath` says increasing, the code sorts in decreasing order
(src/binaryTranslator/quickSort.cpp:23-33), as the scheduler needs; the model follows the code.

## Model

| member | source | states |
|---|---|---|
| `BasicBlocks.BasicBlock.SetDominators` | src/binaryTranslator/basicblock.cpp:477-486 | adds the block to its own dominators and reports whether it was missing |
| `BasicBlocks.BasicBlock.SetDominatorsTo` | src/binaryTranslator/basicblock.cpp:595-623 | the set becomes the intersection plus the block, and a change is reported exactly when the set changed, although the test compares sizes and looks for new members only |
| `BasicBlocks.BasicBlock.BuildSDominators` | src/binaryTranslator/basicblock.cpp:489-495 | the strict dominators are the dominators without the block |
| `BasicBlocks.BasicBlock.BuildImmediateDominators` | src/binaryTranslator/basicblock.cpp:497-518 | keeps exactly the strict dominators that every other strict dominator strictly dominates |
| `BasicBlocks.BasicBlock.InsertPhiFunc` | src/binaryTranslator/basicblock.cpp:629-640 | the first phi of a variable gets as many operands as the block has ancestors, each of them the variable; a further one changes nothing |
| `Cfg.DomChain` | src/binaryTranslator/basicblock.cpp:489-518 | the dominators of one block are totally ordered by dominance |
| `Cfg.DomPred` | src/binaryTranslator/dominator.cpp:36-50 | a strict dominator of a block dominates each of its reachable ancestors |
| `Cfg.NoMutualDom` | src/binaryTranslator/dominator.cpp:9-63 | two different blocks never dominate each other |
| `Dominators.VisitBlock` | src/binaryTranslator/dominator.cpp:33-60 | one visit computes the meet over the processed ancestors and reports a change exactly when the set changed |
| `Dominators.VisitKeepsInv` | src/binaryTranslator/dominator.cpp:33-60 | every visit keeps: unprocessed sets hold at most the block itself, processed sets hold all path dominators |
| `Dominators.ChangeMissed` | src/binaryTranslator/basicblock.cpp:595-623 | the change test misses a visit exactly when the block held only itself under its "all" flag and its processed ancestors share no other block |
| `Dominators.DominatedIsNoticed` | src/binaryTranslator/dominator.cpp:55-57 | a block with a strict dominator is never missed |
| `Dominators.VisitLowersMeasure` | src/binaryTranslator/dominator.cpp:27-62 | every visit that changes the state lowers a measure, so the sweeps end |
| `Dominators.FixpointIsDominance` | src/binaryTranslator/dominator.cpp:9-63 | a fixpoint of the visits is exactly path dominance at each block |
| `Dominators.TimelyEndIsFixpoint` | src/binaryTranslator/dominator.cpp:27-62 | if every reachable block has a strict dominator or is processed by the first sweep, the sweep that ends the loop leaves a fixpoint |
| `Dominators.SingleEntryIsTimely` | src/binaryTranslator/dominator.cpp:9-26 | with one entry the condition always holds |
| `Dominators.ListedInOrderIsTimely` | src/binaryTranslator/dominator.cpp:29-34 | it holds for any entries if each reachable block follows an entry or a reachable ancestor in the list |
| `Dominators.StopsEarly` | src/binaryTranslator/dominator.cpp:27-62 | six blocks with two entries on which the loop ends after its second sweep with a dominator missing |
| `Dominators.TimelyIsNotNeeded` | src/binaryTranslator/dominator.cpp:27-62 | five blocks with two entries that are not timely, on which the loop ends after its second sweep with the right sets |
| `Dominators.Sweep` | src/binaryTranslator/dominator.cpp:29-61 | a sweep visits the blocks in list order and reports exactly whether some set changed |
| `Dominators.BuildDominators` | src/binaryTranslator/dominator.cpp:9-63 | terminates for any entries, with the state of the first sweep that changes no set; under the timely condition each block ends with exactly the blocks on every path from the entries |
| `DomTree.OneParent` | src/binaryTranslator/basicblock.cpp:497-518 | a block with strict dominators has exactly one immediate dominator, the closest of them, for any entries |
| `DomTree.NoParent` | src/binaryTranslator/basicblock.cpp:497-518 | entries, unreachable blocks and any other block without strict dominators have no parent; with one entry there are no others |
| `DomTree.ChildIsDeeper` | src/binaryTranslator/basicblock.cpp:533-542 | child links lead to blocks with strictly more dominators, so they have no cycle |
| `DomTree.ChildTowards` | src/binaryTranslator/basicblock.cpp:533-542 | below a strict dominator there is a child of it on the way to the block |
| `DomTree.BuildStrictDominators` | src/binaryTranslator/dominator.cpp:77-95 | every block gets its strict dominators |
| `DomTree.BuildIdom` | src/binaryTranslator/dominator.cpp:97-101 | every block gets its parents |
| `DomTree.BuildDominatorTree` | src/binaryTranslator/dominator.cpp:77-116 | the three passes leave the dominator tree: strict dominators, parents and children by path dominance |
| `DomTree.FrontierSplits` | src/binaryTranslator/dominator.cpp:128-154 | the dominance frontier is its local part and what comes up through the children |
| `DomTree.SiblingsDisjoint` | src/binaryTranslator/dominator.cpp:134-145 | the subtrees of two children share no block |
| `DomTree.AddChildFrontier` | src/binaryTranslator/dominator.cpp:138-146 | adds exactly the members of the child's frontier not strictly dominated |
| `DomTree.AddDescendents` | src/binaryTranslator/dominator.cpp:147-153 | adds exactly the descendants not strictly dominated |
| `DomTree.FindDF` | src/binaryTranslator/dominator.cpp:128-154 | visits each block of the subtree once, the revisit assertion never fires, and each frontier is exactly the blocks whose ancestor is dominated and that are not strictly dominated |
| `DomTree.RootOf` | src/binaryTranslator/dominator.cpp:156-174 | every block lies below a block without strict dominators, where a traversal starts |
| `DomTree.BuildDominanceFrontier` | src/binaryTranslator/dominator.cpp:156-174 | all blocks are visited and all frontiers are exact |
| `PhiPlacement.SourceDominates` | src/binaryTranslator/ssa.cpp:52-87 | walking along a path, some definition or phi block dominates the position reached |
| `PhiPlacement.ConvergenceGetsPhi` | src/binaryTranslator/ssa.cpp:52-87 | if two distinct definition blocks have non-empty paths that meet only at a block, that block is in every set closed under dominance frontiers |
| `PhiPlacement.LeastClosedUnique` | src/binaryTranslator/ssa.cpp:52-87 | the least closed set is unique |
| `PhiPlacement.PhiIsForced` | src/binaryTranslator/ssa.cpp:66-84 | each frontier member that gets a phi is in every closed set |
| `PhiPlacement.DrainWorklist` | src/binaryTranslator/ssa.cpp:62-85 | the worklist ends, with the frontier of every block that was on it handled |
| `PhiPlacement.PlaceVariable` | src/binaryTranslator/ssa.cpp:57-86 | one variable gets phis in exactly the least closed set |
| `PhiPlacement.PhiFuncPlacement` | src/binaryTranslator/ssa.cpp:52-87 | terminates; every variable has phis, with one operand per ancestor, in exactly the least set closed under frontiers of its definitions and phis |
| `Liveness.Instruction.UpdateInOutSet` | src/binaryTranslator/instruction.cpp:740-857 | one update is the GLOBAL transfer on the sets of the two successors, and no reported change means the instruction is stable |
| `Liveness.UpdateKeepsSound` | src/binaryTranslator/instruction.cpp:740-857 | an update adds only registers that some path uses before a definition |
| `Liveness.NoChangeIsStable` | src/binaryTranslator/instruction.cpp:824-857 | the size test of an update misses no change |
| `Liveness.StableIsComplete` | src/binaryTranslator/registerAllocate.cpp:53-62 | a fixpoint holds everything live, by induction on the use path |
| `Liveness.SoundFixpointIsExact` | src/binaryTranslator/registerAllocate.cpp:53-62 | a sound fixpoint is exactly path liveness |
| `Liveness.Block.UpdateInOutSet` | src/binaryTranslator/basicblock.cpp:926-962 | the inner loop ends with the block stable; the block copies its first in set and last out set; the reported change is a change of these two |
| `Liveness.OthersStayStable` | src/binaryTranslator/basicblock.cpp:926-962 | updating a block without a change of its first in set leaves every other block stable, so the comparison of block sets alone suffices |
| `Liveness.Round` | src/binaryTranslator/registerAllocate.cpp:55-61 | a round keeps the sets sound; if control enters blocks at their heads, a round without a reported change leaves every instruction stable |
| `Liveness.LivenessAnalysis` | src/binaryTranslator/registerAllocate.cpp:53-62 | terminates with sets that hold live registers only, and all of them if control enters blocks at their heads |
| `Liveness.SizeTestStopsEarly` | src/binaryTranslator/basicblock.cpp:926-962 | a jump into the middle of a block: a round changes no set at the ends of blocks, and a live register is missed |
| `BlockEntry.FormedBlocksAreEnteredAtHead` | src/binaryTranslator/make_basicblock.cpp:17-135 | control enters the blocks that block forming makes only at their heads |
| `InterfNodes.InterfNode.AddEdge` | src/binaryTranslator/interfNode.cpp:52-59 | both ends have the edge afterwards, and no other edge is new |
| `InterfNodes.InterfNode.RemoveANeighbor` | src/binaryTranslator/interfNode.cpp:82-91 | one neighbour leaves the dynamic list and set, the static list stays |
| `InterfNodes.InterfNode.RemoveFromGraph` | src/binaryTranslator/interfNode.cpp:73-80 | the dynamic graph loses exactly the node's edges, at both ends, and stays symmetric |
| `InterfNodes.InterfNode.AssignReg` | src/binaryTranslator/interfNode.cpp:32-50 | assigns the least register no static neighbour has, and fails only when none is left |
| `Coloring.PickNode` | src/binaryTranslator/registerAllocate.cpp:181-217 | picks a node with most neighbours below the limit, or with most neighbours when none is below it |
| `Coloring.Simplify` | src/binaryTranslator/registerAllocate.cpp:179-228 | removes every node once; without a dense core each had fewer than K neighbours left |
| `Coloring.RoomLeft` | src/binaryTranslator/interfNode.cpp:32-50 | a node with fewer than K coloured neighbours finds a register |
| `Coloring.Colourable` | src/binaryTranslator/registerAllocate.cpp:172-239 | a graph without a dense core has a proper colouring |
| `Coloring.Select` | src/binaryTranslator/registerAllocate.cpp:230-237 | adjacent nodes get different registers, each the first that its neighbours leave; the assertion cannot fire if every node had fewer than K neighbours when removed |
| `Coloring.AssignGlobalRegisters` | src/binaryTranslator/registerAllocate.cpp:172-239 | on completion adjacent nodes have different global registers and each node the lowest one free; it completes whenever every set of nodes has one with fewer than 70 neighbours in the set |
| `Coloring.AssignLocalRegisters` | src/binaryTranslator/registerAllocate.cpp:104-170 | the same over the local register file |
| `Interference.GetNode` | src/binaryTranslator/registerAllocate.cpp:285-289 | finds or makes the node of a register |
| `Interference.AddClique` | src/binaryTranslator/registerAllocate.cpp:284-301 | the graph gains exactly the registers of the set and the edges between them |
| `Interference.AddNodes` | src/binaryTranslator/registerAllocate.cpp:351-356 | the graph gains nodes and no edge |
| `RegisterAllocate.AddInstruction` | src/binaryTranslator/registerAllocate.cpp:278-376 | live-out registers pairwise, definitions pairwise and live-in nodes enter the graph; fails exactly when the size assertion does |
| `RegisterAllocate.GraphGrows` | src/binaryTranslator/registerAllocate.cpp:251-376 | adding an instruction adds exactly its interferences |
| `RegisterAllocate.MakeInterference` | src/binaryTranslator/registerAllocate.cpp:242-405 | visits exactly the connected part of the block and leaves exactly its interference graph |
| `RegisterAllocate.SetArchRegs` | src/binaryTranslator/registerAllocate.cpp:421-434 | each operand of an instruction gets the register of its node, in operand order |
| `RegisterAllocate.SetArchReg` | src/binaryTranslator/registerAllocate.cpp:415-445 | the traversal replaces the operands of each block once and covers everything connected to the block |
| `RegisterAllocate.AllocateFrom` | src/binaryTranslator/registerAllocate.cpp:487-497 | graph, proper lowest-free assignment and replaced operands of the whole connected part; fails only with a live set over 70 or a dense core |
| `RegisterAllocate.AllocatedPartRunsAlike` | src/binaryTranslator/registerAllocate.cpp:241-445 | over every run the allocated program keeps each live virtual register in its assigned register, if each definition is live out of its instruction |
| `Allocation.StepSimulates` | src/binaryTranslator/registerAllocate.cpp:278-301 | one step over assigned registers does what the step over virtual registers does |
| `Allocation.RunSimulates` | src/binaryTranslator/registerAllocate.cpp:241-445 | at every point of every run the live registers agree and both runs end together |
| `Allocation.ProperKeepsApart` | src/binaryTranslator/registerAllocate.cpp:284-301 | a proper colouring keeps each definition apart from what stays live past it, where the graph joins the two |
| `Allocation.AllocationPreservesMeaning` | src/binaryTranslator/registerAllocate.cpp:241-445 | any graph in which definitions meet what stays live past them, and any proper colouring of it, preserve every run |
| `Allocation.LiveDefsMeet` | src/binaryTranslator/registerAllocate.cpp:284-301 | in the graph of the pass a definition that is live out of its instruction meets what else stays live there |
| `Allocation.RunsAlikeExactly` | src/binaryTranslator/registerAllocate.cpp:241-445 | one assignment keeps every run, whatever the instructions compute, if and only if it keeps every definition apart from what stays live past it |
| `Allocation.ApartExactly` | src/binaryTranslator/registerAllocate.cpp:284-301 | every proper assignment of a graph does so at an instruction if and only if for no definition and live register without an edge the graph with one node for the two has a proper assignment |
| `Allocation.AllocationExactly` | src/binaryTranslator/registerAllocate.cpp:241-445 | both together: every proper assignment keeps every run if and only if no such pair may share a register anywhere |
| `Allocation.UnmetDefinitionBreaks` | src/binaryTranslator/registerAllocate.cpp:284-301 | where a definition does not meet a register that stays live past it and the graph with one node for the two has no dense core, they may share a global register, and a program meaning and related states lose the live value in one step |
| `Allocation.DeadDefinitionExact` | src/binaryTranslator/registerAllocate.cpp:53-62 | the exact live sets of a three-instruction program with a dead definition |
| `Allocation.DeadDefinitionGraph` | src/binaryTranslator/registerAllocate.cpp:278-376 | the graph of the pass on it has two nodes and no edge |
| `Allocation.DeadDefinitionLosesValue` | src/binaryTranslator/interfNode.cpp:32-50 | the lowest-free assignment gives both nodes one register, and the live value is lost |
| `Allocation.Overwrites` | src/binaryTranslator/registerAllocate.cpp:357-374 | with one register for a definition and for a register live past it, the live value is lost in one step |
| `ScheduledAllocation.ScheduledExactly` | src/binaryTranslator/registerAllocate.cpp:464-493 | every proper assignment for the graph of the original order is right for the scheduled block if and only if in the scheduled order no definition may share a register with what stays live past it |
| `ScheduledAllocation.DefineAndUseExact` | src/binaryTranslator/registerAllocate.cpp:464-464 | the exact live sets of a four-instruction block whose definitions are all live out |
| `ScheduledAllocation.DefineAndUseGraph` | src/binaryTranslator/registerAllocate.cpp:278-376 | the graph of the pass on it has two nodes and no edge |
| `ScheduledAllocation.TwoLinks` | src/binaryTranslator/instruction.cpp:528-586 | dependence setup links each definition to its use and nothing else |
| `ScheduledAllocation.DefinitionsFirst` | src/binaryTranslator/listSchedule.cpp:29-88 | every schedule of the block starts with the two definitions, for any latencies |
| `ScheduledAllocation.ScheduleLosesValue` | src/binaryTranslator/registerAllocate.cpp:474-493 | for any latencies, any graph with the links of the block and any schedule of it, the lowest-free assignment for the graph of the original order gives both definitions one register and loses the first one |
| `QuickSort.Swap` | src/binaryTranslator/quickSort.cpp:13-21 | removal and insertion at two positions exchange the elements |
| `QuickSort.PartitionLongestPath` | src/binaryTranslator/quickSort.cpp:36-55 | the pivot ends in place with nothing smaller before it and nothing larger after it, and the stretch is only reordered |
| `QuickSort.QuicksortLongestPath` | src/binaryTranslator/quickSort.cpp:23-33 | sorts the stretch in descending order by permuting it |
| `Dependence.LongerThanDependent` | src/binaryTranslator/listSchedule.cpp:18-24 | with positive latencies an instruction has a longer path than each dependent |
| `ListSchedule.FindLongestPath` | src/binaryTranslator/listSchedule.cpp:7-25 | terminates on an acyclic block with the maximum latency sum over in-block chains |
| `ListSchedule.SetLongestPaths` | src/binaryTranslator/listSchedule.cpp:42-46 | every instruction gets its longest path |
| `ListSchedule.SortedIsTopological` | src/binaryTranslator/listSchedule.cpp:49-49 | the list sorted by longest path is already a topological order |
| `ListSchedule.SortByLongestPath` | src/binaryTranslator/listSchedule.cpp:36-49 | a permutation of the block in descending order of the longest path, which is topological |
| `ListSchedule.Round` | src/binaryTranslator/listSchedule.cpp:52-73 | picks exactly the first NUM_EU ready instructions of the sorted list, in its order, or all when there are fewer |
| `ListSchedule.RoundInOrder` | src/binaryTranslator/listSchedule.cpp:52-73 | whatever may run and stands before a picked instruction in the list is picked before it |
| `ListSchedule.PartialRoundDeeper` | src/binaryTranslator/listSchedule.cpp:51-78 | a round that is not full finishes one more level of depth |
| `ListSchedule.RoundProgress` | src/binaryTranslator/listSchedule.cpp:51-78 | every round schedules something and is full or finishes a level |
| `ListSchedule.ListSchedule` | src/binaryTranslator/listSchedule.cpp:29-88 | terminates with a permutation in which in-block ancestors come first, made of rounds over a list sorted by longest path, within n / NUM_EU + L rounds, L the longest chain |
| `DependencySetup.DependencyTable.DependencyTableCheck` | src/binaryTranslator/instruction.cpp:528-586 | the instruction gets exactly the links to the last writers of what it reads and, if its memory order is kept, to the last store; then it enters the tables |
| `DependencySetup.DependencyTable.BrDependencyTableCheck` | src/binaryTranslator/basicblock.cpp:1079-1097 | each branch gets exactly the links to everything before it, besides those it has |
| `DependencySetup.SetupBlock` | src/binaryTranslator/dependencySetup.cpp:18-40 | on an SSA block the links are exactly: each reader to its in-block writer, memory operations to the last store before them by mode, branches to everything before; all lead forward |
| `DependencySetup.OrdersAgree` | src/binaryTranslator/listSchedule.cpp:29-88 | two orders that keep the data links leave every register alike |
| `DependencySetup.SchedulePreservesRegisters` | src/binaryTranslator/listSchedule.cpp:29-88 | every order with in-block ancestors first leaves an SSA register block with the registers of the original order |
| `DependencySetup.MemoryAndBranchesKept` | src/binaryTranslator/instruction.cpp:546-586 | in every such order the stores stay in program order, loads whose order is kept stay behind all earlier stores, and branches behind everything before them |
| `DependencySetup.ScheduleBlock` | src/binaryTranslator/dependencySetup.cpp:28-40 | setup and scheduling together leave a schedule by longest path of the exact links that preserves the final registers; stores, and loads by mode, stay behind every earlier store, and a branch behind everything before it |
| `BlockForming.Blocks.PlaceIns` | src/binaryTranslator/make_basicblock.cpp:29-95 | one instruction is placed at the end; the blocks stay well formed, and each goes on until control leaves it, it is full, or a branch target follows |
| `BlockForming.Blocks.FormBlocks` | src/binaryTranslator/make_basicblock.cpp:17-96 | the blocks concatenate to the instruction list; targets start a block, j/b/r/c/s end one, no block exceeds cluster_size + 1, and none ends earlier: before the next block stands a control transfer, a full block, or the next starts with a branch target |
| `BlockForming.Blocks.DropDeadBlocks` | src/binaryTranslator/make_basicblock.cpp:100-117 | exactly the empty blocks and single-NOP blocks go, and the NOP addresses are collected |
| `BlockForming.Blocks.RemoveDeadIns` | src/binaryTranslator/make_basicblock.cpp:127-135 | exactly the instructions with collected addresses leave the list |
| `BlockForming.LiveSpellsKept` | src/binaryTranslator/make_basicblock.cpp:100-135 | with distinct addresses, dropping blocks and dropping instructions by address agree |
| `BlockForming.Blocks.MakeBasicblock` | src/binaryTranslator/make_basicblock.cpp:17-135 | afterwards the blocks still spell the list, none is empty or a NOP alone, and all are well formed; they are those of a list whose blocks end no earlier than they must, and all that was lost are NOPs and such blocks |
| `UndoLog.MemoryBuffer.Save` | src/frontend/memlog.cpp:7-14 | keeps the first saved byte of each address |
| `UndoLog.MemoryBuffer.Recover` | src/frontend/memlog.cpp:16-26 | writes every logged mapped byte back and empties the log |
| `UndoLog.SaveKeepsRestored` | src/frontend/memlog.cpp:7-14 | saving bytes about to be overwritten does not change what recovery would restore |
| `UndoLog.StoreKeepsRestored` | src/frontend/memlog.cpp:7-26 | a store to logged addresses does not change what recovery would restore |
| `UndoLog.RecoverUndoesWrites` | src/frontend/memlog.cpp:7-26 | for any writes, overlapping or repeated, each preceded by its save, recovery restores the memory of the last recovery point |
| `UndoLog.Frontend.ReadMemOrig` | src/frontend/pars.cpp:406-446 | a store of at most 32 bytes that does not fault is fully covered by the log |
| `UndoLog.Frontend.WrongPathStore` | src/frontend/pars.cpp:142-153 | a store that could not be logged never executes; leaving the wrong path restores the memory of its start |
| `UndoLog.Frontend.WrongPathOther` | src/frontend/pars.cpp:142-153 | a flag left by an earlier store ends the wrong path with the memory restored |
| `UndoLog.Frontend.EnterWrongPath` | src/frontend/pars.cpp:833-844 | the memory at this point is what recovery will restore |
| `UndoLog.Frontend.Recover` | src/frontend/pars.cpp:71-89 | memory is as it was when the wrong path was entered and the log is empty |
| `RegisterRename.RegisterRename.constructor` | src/backend/bb/registerRename.cpp:51-111 | builds the initial table, which meets the rename invariant with nothing in flight |
| `RegisterRename.InitInv` | src/backend/bb/registerRename.cpp:51-111 | the initial table places every register once |
| `RegisterRename.RegisterRename.GetAvailablePR` | src/backend/bb/registerRename.cpp:151-171 | succeeds whenever any segment has a free register; takes the last of the first non-empty segment, going round from the one that serves the window |
| `RegisterRename.RegisterRename.SetAsAvailablePR` | src/backend/bb/registerRename.cpp:173-182 | the register joins the free list of its home segment |
| `RegisterRename.RegisterRename.GetNumAvailablePR` | src/backend/bb/registerRename.cpp:184-191 | the free registers of all segments together |
| `RegisterRename.RegisterRename.UpdatePRstate` | src/backend/bb/registerRename.cpp:246-254 | moves a register to the next state; the state assertions are its precondition |
| `RegisterRename.RegisterRename.SquashRenameReg` | src/backend/bb/registerRename.cpp:199-235 | maps, states and free lists are exactly those rebuilt from the committed map |
| `RenameSpec.AnyFreeIsFound` | src/backend/bb/registerRename.cpp:151-171 | the round-robin search finds a segment whenever some register is free |
| `RenameSpec.SegmentServes` | src/backend/bb/registerRename.cpp:315-322 | segment i serves the windows from i * n up to (i + 1) * n, where n is the number of windows for each segment |
| `RenameSpec.SegmentHolds` | src/backend/bb/registerRename.cpp:307-313 | segment i holds the registers after i * n up to (i + 1) * n, where n is the size of a segment |
| `RenameSpec.RenameKeepsInv` | src/backend/bb/grfManager.cpp:118-130 | renaming a write keeps the invariant |
| `RenameSpec.CompleteKeepsInv` | src/backend/bb/grfManager.cpp:143-153 | completing an in-flight write keeps the invariant |
| `RenameSpec.CommitKeepsInv` | src/backend/bb/grfManager.cpp:155-175 | committing the oldest write keeps the invariant |
| `RenameSpec.SquashKeepsInv` | src/backend/bb/registerRename.cpp:199-235 | after a squash the invariant holds with nothing in flight, whatever was |
| `RenameRecovery.ExactlyOnePlace` | src/backend/bb/registerRename.cpp:61-109 | in every state each physical register is exactly one of committed, free in its home segment once, or in flight |
| `RenameRecovery.ChainEndsAtCommitted` | src/backend/bb/registerRename.cpp:237-254 | from the fetch map the previous-register links pass the in-flight writers youngest to oldest and end at the committed map |
| `RenameRecovery.FreeListFits` | src/backend/bb/registerRename.cpp:173-182 | a free list never outgrows the rename register file |
| `RenameRecovery.UndoKeepsInv` | src/backend/bb/grfManager.cpp:118-130 | undoing the youngest rename keeps the invariant |
| `RenameRecovery.SquashIsUndoAll` | src/backend/bb/registerRename.cpp:199-228 | the squash gives the same maps, states and free registers as undoing every in-flight rename, youngest first |
| `RenameWindow.SourceIsNotAvailable` | src/backend/bb/grfManager.cpp:100-130 | a source of an in-flight instruction is never on a free list |
| `RenameWindow.RenameKeepsWindow` | src/backend/bb/grfManager.cpp:100-141 | renaming keeps: each source is the register of the youngest older in-flight writer, else the committed one |
| `RenameWindow.ReadyKeepsWindow` | src/backend/bb/grfManager.cpp:29-59 | dropping valid sources keeps the invariant |
| `RenameWindow.CompleteKeepsWindow` | src/backend/bb/grfManager.cpp:143-153 | completion in any order keeps the invariant |
| `RenameWindow.CommitKeepsWindow` | src/backend/bb/grfManager.cpp:155-175 | in-order commit keeps it |
| `RenameWindow.SquashKeepsWindow` | src/backend/bb/grfManager.cpp:177-181 | a squash keeps it with nothing in flight |
| `GrfManager.GrfManager.CanRename` | src/backend/bb/grfManager.cpp:86-98 | true exactly when the free registers of all segments suffice for the destinations |
| `GrfManager.GrfManager.RenameRegs` | src/backend/bb/grfManager.cpp:100-141 | after canRename no assertion fires; sources are renamed before destinations and the window gains the instruction |
| `GrfManager.GrfManager.IsReady` | src/backend/bb/grfManager.cpp:29-59 | ready exactly when every source left is valid; valid ones are dropped |
| `GrfManager.GrfManager.CompleteRegs` | src/backend/bb/grfManager.cpp:143-153 | the destinations become valid and no assertion fires |
| `GrfManager.GrfManager.CommitRegs` | src/backend/bb/grfManager.cpp:155-175 | the oldest instruction commits, replaced registers are freed, and no assertion fires |
| `GrfManager.GrfManager.SquashRenameReg` | src/backend/bb/grfManager.cpp:177-181 | every in-flight instruction is dropped and the invariant holds |
| `RenameMachine.ReadsSequentialValues` | src/backend/bb/grfManager.cpp:29-59 | an instruction that waits for nothing reads exactly the values of the sequential machine |
| `RenameMachine.StepKeeps` | src/backend/bb/grfManager.cpp:29-181 | rename, readiness check, out-of-order completion, in-order commit and squash keep the value invariant |
| `RenameMachine.RunRefinesSequential` | src/backend/bb/grfManager.cpp:29-181 | after every interleaving the physical registers hold what sequential execution of the renamed stream without its squashed instructions gives: through the committed map, in the destinations of complete instructions, and in the sources of those that wait for nothing; the window is the uncommitted rest of the stream |
| `RenameMachine.StepFollows` | src/backend/bb/grfManager.cpp:118-181 | committed instructions and window stay the stream: a rename appends, a commit moves the border, a squash cuts at it |
| `RenameMachine.CommittedStays` | src/backend/bb/grfManager.cpp:155-181 | nothing that has committed is ever taken back |
| `RenameMachine.CommittedMapHoldsSequentialState` | src/backend/bb/registerRename.cpp:141-148 | after any run the committed map leads to the value that executing the committed instructions of the stream one by one gives each architectural register |
| `RenameMachine.ValidSourceStaysValid` | src/backend/bb/registerRename.cpp:268-277 | a source once valid stays valid with its value until its reader leaves, so pruning it is sound |
| `RenameReset.ResetHolds` | src/backend/bb/registerRename.cpp:51-111 | the state after construction meets the value invariant and the empty stream |
| `RenameReset.FromReset` | src/backend/bb/registerRename.cpp:51-111 | every run from construction agrees with sequential execution of its stream |
| `ProtocolSteps.CommitKeepsInv` | src/backend/bb/commit.cpp:78-128 | committing the front block keeps the protocol invariant and the block is on the correct path |
| `ProtocolSteps.OffenderAtFront` | src/backend/bb/execution.cpp:299-304 | once the front of bbROB is not older than the squash number it is the offending block, in front of both tables |
| `ProtocolSteps.DetectedBlames` | src/backend/bb/execution.cpp:157-178 | after every completion the recorded bad instruction lies in a dispatched block that is on the wrong path or violated, and that block is not younger than the squash number |
| `ProtocolSteps.SettledSN` | src/backend/bb/execution.cpp:182-184 | the squash number then names exactly that block |
| `ProtocolSteps.BpSquashStream` | src/backend/bb/commit.cpp:145-235 | a branch squash deletes only wrong-path blocks and pushes the others back in order |
| `ProtocolSteps.SquashKeepsInv` | src/backend/bb/commit.cpp:145-279 | both squashes keep the invariant |
| `ProtocolFrontEnd.NextToDispatch` | src/backend/bb/schedulers.cpp:390-396 | bbROB holds exactly the blocks before the next instruction's block, and that block or not |
| `ProtocolFrontEnd.PushRobKeepsCore` | src/backend/bb/schedulers.cpp:337-355 | the age assertions hold, and bbROB stays a prefix of bbQUE that ends with the dispatched block |
| `ProtocolFrontEnd.DispatchKeepsCore` | src/backend/bb/schedulers.cpp:274-335 | dispatch is in program order |
| `ProtocolFrontEnd.FetchOneKeeps` | src/backend/bb/fetch.cpp:82-89 | the instruction fetched is the next one of the youngest queued block |
| `ProtocolStages.FrontFetched` | src/backend/bb/commit.cpp:91-111 | a complete front block was fetched to its end unless it is the only block queued |
| `ProtocolStages.CommitStageKeeps` | src/backend/bb/commit.cpp:78-128 | commit keeps the invariant; outside normal operation its assertion cannot fail, since the offending block stays behind |
| `ProtocolRefill.CommitFailsExactly` | src/backend/bb/commit.cpp:103-107 | commit's assertion fails exactly in normal operation with everything queued complete and on the correct path, the last block not marked, and a width for all of it |
| `ProtocolStages.MemoryStageKeeps` | src/backend/bb/memory.cpp:31-86 | completing loads and flushing the load queue keep the invariant |
| `ProtocolStages.CompleteStageKeeps` | src/backend/bb/execution.cpp:89-214 | the squash number changes only downwards, or from zero, and then names a blamed block |
| `ProtocolDetect.ViolationStartsSquash` | src/backend/bb/execution.cpp:157-184 | the completion of a wrong-path instruction, or of a store that finds a load violated, sets the squash number to the head of that block or of an older one in the same cycle, and from normal operation the squash begins |
| `ProtocolStages.SquashCtrlKeeps` | src/backend/bb/execution.cpp:265-316 | every transition of the pipe state machine keeps what the later stages rely on |
| `ProtocolStages.ExecutionStageKeeps` | src/backend/bb/execution.cpp:53-86 | in an episode the number never rises, and going back to PIPE_WAIT_FLUSH strictly lowers it |
| `ProtocolStages.SquashStageKeeps` | src/backend/bb/sysCore.cpp:127-130 | at PIPE_SQUASH_ROB the squash type is valid and bbROB ends empty |
| `ProtocolStages.WrongPathDeleted` | src/backend/bb/commit.cpp:145-235 | the squash of a wrong path deletes the offending block with the wrong-path blocks behind it, up to the first block of the correct path, and gives the rest back to the cache in order |
| `ProtocolStages.ViolatedPushedBack` | src/backend/bb/commit.cpp:237-279 | the squash for a violated load deletes nothing and gives all blocks back to the cache in order |
| `ProtocolCycle.SchedulerStageKeeps` | src/backend/bb/schedulers.cpp:68-88 | dispatch and window flush keep the invariant |
| `ProtocolCycle.PortsYounger` | src/backend/bb/fetch.cpp:163-172 | in an episode nothing in the ports is older than the offending block, so the flush empties them |
| `ProtocolCycle.FetchAborts` | src/backend/bb/fetch.cpp:140-153 | fetch's assertion fails exactly when the current block is already marked as done and the stage does not go to the frontend |
| `ProtocolCycle.RunningLeavesOpen` | src/backend/bb/fetch.cpp:127-153 | with the frontend running it never fails, and no block is left marked without a successor |
| `ProtocolCycle.FrontEndKeeps` | src/backend/bb/fetch.cpp:35-55 | decode and fetch keep the invariant |
| `ProtocolCycle.CycleKeeps` | src/backend/bb/sysCore.cpp:120-147 | every cycle keeps the invariant and moves an episode forward, whatever the environment decides; it fails only in normal operation |
| `ProtocolCycle.RunningStaysOpen` | src/backend/bb/sysCore.cpp:120-147 | with the frontend running a cycle can fail only in commit |
| `ProtocolRuns.FeedKeeps` | src/global/g_variable.h:165-174 | a block delivered by the frontend keeps the invariant |
| `ProtocolRuns.RunSafe` | src/backend/bb/sysCore.cpp:120-147 | every reachable state meets the invariant |
| `ProtocolRuns.CommitsTheCorrectPath` | src/backend/bb/commit.cpp:78-128 | over every run committed, queued and pending blocks are the delivered stream without some wrong-path blocks, and what commits is the correct path in order: nothing lost, repeated or reordered |
| `ProtocolRuns.RestartsBounded` | src/backend/bb/execution.cpp:265-275 | within an episode the restarts plus the squash number never exceed the first number |
| `ProtocolSeen.RunSeen` | src/backend/bb/execution.cpp:157-184 | in every reachable state the squash under way takes each block flagged for a violated load, and each wrong-path block of which a load has its address |
| `ProtocolEpisode.SettlingCycle` | src/backend/bb/execution.cpp:265-316 | in a squash that has overlooked no block, a cycle in which units and loads finish and what may commits lowers the squash number or brings the squash to its next part |
| `ProtocolEpisode.SquashEnds` | src/backend/bb/execution.cpp:265-316 | such cycles end the squash: commit brings the offending block to the front, both tables are emptied, and the back end works again |
| `ProtocolStuck.StuckForEver` | src/backend/bb/execution.cpp:299-304 | once a block is overlooked and nothing under way can bring the squash number down to it, the squash goes on for ever, whatever is delivered and decided |
| `ProtocolRescue.EpisodeEndsExactly` | src/backend/bb/execution.cpp:265-316 | every reachable squash can end if and only if no block is doomed in it, that is overlooked with nothing under way that can lower the number to it |
| `HangingRun.SquashNeverEnds` | src/backend/bb/execution.cpp:157-178 | 54 small blocks and seven cycles, none of which leaves for the frontend, after which the squash never ends, whatever is delivered and decided |
| `ProtocolRefill.SafeCommits` | src/backend/bb/commit.cpp:103-107 | while the last instruction of the unmarked block is in a port, commit cannot fail |
| `ProtocolRefill.SafeCycle` | src/backend/bb/sysCore.cpp:120-147 | with the frontend running a cycle from a safe state fails no assertion, and leaves one unless it stops for the frontend; then filling the cache up makes it safe |
| `ProtocolRefill.RefilledNeverFails` | src/backend/bb/sysCore.cpp:133-136 | a run whose frontend is running and refills the cache above BB_NEAR_EMPTY_SIZE whenever a cycle left for it never fails |
| `ProtocolRefill.CycleFailsExactly` | src/backend/bb/commit.cpp:103-107 | after any run with the frontend running, a cycle fails exactly when everything queued is complete, the last block is not marked and the width suffices |
| `ProtocolPlaced.DispatchedIsPlaced` | src/backend/bb/schedulers.cpp:274-335 | in every reachable state each dispatched instruction of a queued block that no squash will take back is in a window, a unit, memory or complete, in one place only; in normal operation there is nothing else in these places |
| `ProtocolStall.StalledCanFail` | src/backend/bb/sysCore.cpp:120-147 | wherever a run waits for the frontend behind a block read to its end, with only unviolated correct-path blocks queued, going on without a delivery can fail |
| `FailingRuns.UnrefilledRunFails` | src/backend/bb/sysCore.cpp:133-136 | 51 one-instruction blocks and six cycles that ignore the stop: commit fails |
| `FailingRuns.DrainingRunFails` | src/backend/bb/fetch.cpp:140-153 | one block and three cycles after the frontend is done: fetch marks the block twice and fails |
| `BlockProtocol.BackEnd.CommitImpl` | src/backend/bb/commit.cpp:78-128 | commits exactly the leading complete blocks, up to the width, and reports the failed assertion |
| `BlockProtocol.BackEnd.Squash` | src/backend/bb/commit.cpp:130-143 | dispatches on the squash type, which is valid, and resets it |
| `BlockProtocol.BackEnd.BpMispredSquash` | src/backend/bb/commit.cpp:145-235 | the index loops delete exactly the leading wrong-path blocks of bbQUE, push the others back in order with their states reset, and meet every assertion |
| `BlockProtocol.BackEnd.MemMispredSquash` | src/backend/bb/commit.cpp:237-279 | pushes all of bbQUE back in order with states reset |
| `BlockProtocol.BackEnd.FindWrongPath` | src/backend/bb/commit.cpp:164-194 | start_indx is 0 and stop_indx the last block before the first correct-path one |
| `BlockProtocol.BackEnd.SquashBBROB` | src/backend/bb/commit.cpp:150-162 | empties bbROB from the back when nothing in it is older than the squash number |
| `BlockProtocol.BackEnd.Memory` | src/backend/bb/memory.cpp:31-86 | finished loads complete; a flush drops what is not older than the squash number |
| `BlockProtocol.BackEnd.CompleteIns` | src/backend/bb/execution.cpp:89-214 | completion, violation detection, squash type and squash number as the stage function gives them, so that `ViolationStartsSquash` holds of it |
| `BlockProtocol.BackEnd.UpdateBBROB` | src/backend/bb/schedulers.cpp:337-355 | a new youngest block enters bbROB and the age assertion holds |
| `BlockProtocol.BackEnd.UpdateBbWindows` | src/backend/bb/schedulers.cpp:274-335 | instructions move from the port to the windows in order |
| `BlockProtocol.BackEnd.Scheduler` | src/backend/bb/schedulers.cpp:68-88 | dispatch, or the flush of the windows |
| `BlockProtocol.BackEnd.FlushPort` | src/backend/unit/port.cpp:201-212 | drops from the back what is not older than the squash number |
| `BlockProtocol.BackEnd.Decode` | src/backend/bb/decode.cpp:20-58 | moves instructions between the ports, or flushes |
| `BlockProtocol.BackEnd.FetchBB` | src/backend/bb/fetch.cpp:107-153 | keeps the current block, goes to the frontend, or marks it done and takes the next block; reports the failed assertion |
| `BlockProtocol.BackEnd.FetchImpl` | src/backend/bb/fetch.cpp:58-105 | fetches up to the width across blocks, and asks for the frontend exactly when the stage function does |
| `BlockProtocol.BackEnd.RunCycle` | src/backend/bb/sysCore.cpp:121-146 | one iteration runs the stages in order, equals the cycle function, keeps the invariant, and returns to the frontend exactly when the cycle stops |
| `BlockProtocol.BackEnd.RunCore` | src/backend/bb/sysCore.cpp:120-147 | the loop ends with the first cycle that stops for the frontend or fails; with the frontend running no cycle fails from a safe state |
| `BlockProtocol.BackEnd.BackEndRun` | src/frontend/pars.cpp:201-212 | the back end runs only with at least 550 cached blocks; then no assertion fails, and the next call may follow |

## Left out

- BuildDominators: without the timely condition its result is the state of the last sweep, which need not be dominance (`StopsEarly`).
- LivenessAnalysis: if control enters a block past its head the sets are sound but may miss a live register (`SizeTestStopsEarly`).
- FormedBlocksAreEnteredAtHead: the program must jump only to branch targets and fall through to the next listed instruction; blocks of later passes are not covered.
- AllocateFrom: one connected part of the program, as `allocate_register` handles each of its heads; several heads of one part, phi elimination and scheduling before the graph are not part of it.
- SetArchReg: the filter on blocks that were removed from the list is not modelled.
- AllocatedPartRunsAlike: the program keeps its order; with scheduling in between the property is false (`ScheduleLosesValue`).
- ScheduledExactly: one straight-line block; the schedule of a whole program is not modelled.
- AllocationPreservesMeaning: requires that each definition meets what stays live past it, which holds when definitions are live out; without it the property can be false (`DeadDefinitionLosesValue`), and `AllocationExactly` says when.
- UnmetDefinitionBreaks: one way, with a condition that is easy to check; `ApartExactly` and `AllocationExactly` are exact.
- SchedulePreservesRegisters: register operations in SSA form only, as the pass states; memory effects are not part of it. In both modes stores are not made dependent on earlier loads.
- ScheduleBlock: what memory holds is not part of it; stores stay behind earlier stores, but in both modes not behind earlier loads.
- MakeBasicblock: the edges between blocks, block ids and `bbMap` are not modelled; a branch target that was a dropped NOP is not redirected.
- WrongPathStore: only stores that the frontend instruments write memory on the wrong path.
- IsReady: the communication delay between register segments (`isGrfNearby`) is not modelled.
- RefilledNeverFails: fetch's assertion that bbQUE never becomes full (src/backend/bb/fetch.cpp:117-119) and the assertions of `commitBB` (src/backend/bb/commit.cpp:288-299) and `verifySim` are not modelled, so a run of the source may fail there.
- CycleFailsExactly: the same assertions are not modelled.
- UnrefilledRunFails: the run shows what the refill is needed for; it is no run of the program, which leaves for the frontend.
- StalledCanFail: one continuation that fails is given; which continuations fail is not characterised beyond `CycleFailsExactly`.
- EpisodeEndsExactly: says whether some choices of the environment end a squash; how soon they come is left to latencies and wires, and the stall assertion of `verifySim` is not modelled.
- SquashNeverEnds: the same assertion stops the program where the model waits for ever.
- CommitsTheCorrectPath: input blocks are non-empty with ascending ids, and a block's instructions are all on the wrong path or none is.
- CommitImpl: the assertions of `commitBB` on the load and store queues are not modelled.
- Memory: caches and miss latencies are choices of the environment.
- CompleteIns: which of the complete younger loads a store violates, the front of the load queue excepted as the scan leaves out entry 0 (src/backend/bb/lsq.cpp:139), and which wires are free, come from the environment; loads that are not complete are never found.
- UpdateBbWindows: window capacities and `canRename` are choices of the environment.
- Scheduler: issue to the units is part of execution, and readiness updates are left to the renaming model.
- FetchBB: empty blocks are not delivered, so `getNewBB` never drops one, and bbQUE has no capacity.
- FetchImpl: the capacity of the port is part of the count of instructions.
- RunCycle: the branch predictor stage is not modelled, and the register squash belongs to the renaming model.
- RunCore: wires, port and table capacities, latencies and window counts are choices of the environment, so any number of steps may happen in a cycle; the choice list is finite.
- BackEndRun: the semaphores, the branch prediction before the call and `g_wrong_path` are not modelled.
- Block windows, the issue order, runahead permits and CDB forwarding: the windows and the port to the units are one set of waiting instructions.
- The counter of completed instructions of a block is the set of its completed instructions.
- The renaming model and the block protocol are separate; a block's register operations are those of its instructions.
- Wire counts of the register file.
- Local register file, LOCAL_GLOBAL liveness sets and the LOCAL_GLOBAL part of the interference graph; only `assign_local_registers` itself is modelled.
- SSA renaming with its empty-stack case, phi elimination into sequential moves, and the MOV elimination passes.
- Superblocks, phrase blocks, loops and depth-first numbering; branch predictors, BTB and caches.
- Pin instrumentation, YAML and file input, statistics, energy counters and debug printing.
- Faults during `read_mem_orig` and the other reasons to leave the wrong path are parameters.
