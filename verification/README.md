# A model of the Crix missing-check analysis

Crix looks for missing security checks in a program given in LLVM's intermediate
representation. This project models its analysis engine over an abstract SSA program and proves
what its algorithms compute. Every worklist, depth-first search and sweep of the engine below is
an imperative method that is proved to terminate and proved against a declarative meaning:
reachability, the slice of a value, the set of checks, the counters of a run.

The parts, in the order in which they build on each other:

- **Graphs, Cfg** (`Graphs.dfy`, `Cfg.dfy`): directed graphs as successor functions, reachability,
  worklist and depth-first exploration with a shared visited set, and the control-flow graph with
  its successor and predecessor lists.
- **Error flags** (`Flags.dfy`, `EdgeFlags.dfy`, `BlockMarks.dfy`): the flag byte of blocks and
  edges, how flags are overwritten, merged and or-ed.
- **Edge marking** (`HandleMarking.dfy`, `ReturnMarking.dfy`, `ForwardMarking.dfy`,
  `BackwardMarking.dfy`, `MayMarking.dfy`, `EdgeSpread.dfy`, `Doom.dfy`, `ReturnAims.dfy`,
  `ForwardAims.dfy`, `ReturnRuns.dfy`, `EdgeMarking.dfy`, `SwitchOrder.dfy`): the four propagation worklists and the run
  over all flagged blocks. Handle flags have an exact meaning: an edge is marked if and only if a
  chain of single-successor blocks forces control from its end into a handler. Return flags may be
  flipped between Must and May, and the order of the blocks can decide which edges keep one. For
  every order they have bounds and coverage. Where no returning block leads to a returning block and
  no branch above one has more than two targets, the Must and May flags above returning blocks are
  exact whatever the order: an edge is Must if every path from its end runs into a block that only
  Must, and May if some path runs into a block that May. Below returning blocks, where none of them
  is both, an edge is May if some block that May leads to it and Must otherwise. Two inputs show the order of the blocks
  deciding: one where a returning block leads to another, one with a three-way switch.
- **Security checks** (`Ir.dfy`, `ErrorFlow.dfy`, `ValueFlow.dfy`, `ReturnFlow.dfy`,
  `SecurityChecks.dfy`, `SecurityPass.dfy`, `ReturnedValues.dfy`): the abstract program, which values
  may be error codes, the backward flow of returned values that flags the blocks, the set of checks
  read off the marked edges, and what all of it says about returned constants, selects and calls.
- **Slicing** (`Slicing.dfy`, `UseSearch.dfy`, `TrackedValues.dfy`): block reachability, the path
  test, the sources of a checked value, the uses of a checked target, and which instructions lead
  from one value to the next.
- **Searches for checks** (`ForwardSearch.dfy`, `PointSearch.dfy`, `BackwardSearch.dfy`,
  `RepeatedValue.dfy`, `CheckedValues.dfy`): is a source checked later, is a use checked earlier, and
  which instructions count as a check. The backward search
  walks over points (a value at a function, a scope and a depth) but remembers only values. So a yes
  always has a witness, a no has a set of unchecked points that stand for all values met, the answer
  is exact where no value is met at two points, and a recursive program shows a witness that is
  missed because its value was seen elsewhere.
- **The cross-check** (`Ledger.dfy`, `CheckStage.dfy`, `UncheckStage.dfy`, `MissingChecks.dfy`,
  `CheckedKeys.dfy`, `Reports.dfy`): the counters, the two stages, the driver that sweeps over the
  modules until nothing changes, and the ratings. The two stages are tied together: a key is checked
  exactly when some analysed function has such a check, and the result of a function is reported
  exactly when it is checked somewhere and some call of it uses the result untested.
- **The call graph** (`CallTargets.dfy`, `CallGraph.dfy`): narrowing indirect call targets layer by
  layer, one representative per function hash, and the two inverse indexes.

Conventions of the model:

- Blocks, values, functions and calls are numbers; a program lists nodes with operands, users,
  parents and bodies. `Program`, `Cfg` and `Modules` are subset types: every listed index exists.
- A reference parameter that a function of the source updates is a value that goes in and a value
  that comes out. The static sets and counters of a pass are fields of a class; the counters of
  sources and of uses are one `Book` each.
- An absent key of a map of flags or counters reads as zero. The source inserts zero entries when
  it looks a key up; the model does not, and `ReadChecks` shows that the early exit on empty maps
  never loses a check.
- Sets that the source iterates in an unspecified order are taken element by element in any order.
- Results of other components are parameters: the alias relation, callers and callees as the
  cross-check sees them, hashes, type tables, the error-handler names, source-line names.

Where the code and its comments or documentation differ, the model follows the code. Examples:
the May-handle branch of the flag merge sets a return flag; once a flag is both Must and May the
order of the predecessors can decide the integrated flag (`Flags.MergeAllDependsOnOrder`, exactly
when: `Flags.MergeOrderIsFree`); the order of the blocks can decide which edges get a return flag
(`EdgeMarking.BlockOrderMatters`, `SwitchOrder.SwitchOrderMatters`); a sibling edge that is only May leaves
the "all zero" answer untouched; checks are compared by their subject only, so the comparison
predicate of a modelled check never matters (`Ledger.ModeledIsChecked`); a transit set is looked up
under a hash cut to 32 bits (`CallTargets.WideTransitsAreLost`); transit sets are intersected one
after the other, which is the plain intersection only if that is not empty
(`CallTargets.NarrowingIsIntersection`) and depends on their order exactly when the sets that matter
share no candidate (`CallTargets.VisitOrderIsFree`, on an input in `CallTargets.VisitOrderDecides`);
the backward search can miss a check (`RepeatedValue.MissesTheWitness`).

## Model

| member | source | states |
|---|---|---|
| Flags.UpdateReturnFlag | analyzer/src/lib/SecurityChecks.cc:192-199 | a non-zero new return nibble replaces the old one, a zero one changes nothing, and no other bit is touched |
| Flags.UpdateHandleFlag | analyzer/src/lib/SecurityChecks.cc:201-212 | Must-handle is never lost once set, the return nibble stays, and Must-handle results exactly from either side having it |
| Flags.MergeIsLarger | analyzer/src/lib/SecurityChecks.cc:214-238 | on flags of the chains 0 < Must < May (return) and 0 < Must (handle) one merge is the maximum |
| Flags.MergeAllIsMaximum | analyzer/src/lib/SecurityChecks.cc:291-301 | folding the merge over any number of incoming chain flags gives their least upper bound |
| Flags.MergeAllIgnoresOrder | analyzer/src/lib/SecurityChecks.cc:291-301 | so the integrated flag depends neither on the order nor on the repetition of predecessors |
| Flags.MergeAllDependsOnOrder | analyzer/src/lib/SecurityChecks.cc:214-238 | outside the chains it can: from zero, a Must flag and one that is both Must and May give different results in the two orders |
| Flags.MergeOrderIsFree | analyzer/src/lib/SecurityChecks.cc:291-301 | for all flags the marking can set, the integrated flag is the same for every order of the predecessors if and only if a May flag comes in, or the start is Must or May already, or no two incoming flags compete for what the start leaves open |
| Flags.PrevailingFlagStays | analyzer/src/lib/SecurityChecks.cc:291-301 | a May flag, or a Must flag among flags none of which is only May, keeps its return nibble through the integration |
| BlockMarks.MarkBBErr | analyzer/src/lib/SecurityChecks.cc:241-256 | the flag is or-ed into the block's flag and no other block changes |
| BlockMarks.AbsorbedTwice | analyzer/src/lib/SecurityChecks.cc:241-256 | marking is cumulative: two rounds of marks equal one round of their union |
| BlockMarks.AbsorbedBits | analyzer/src/lib/SecurityChecks.cc:241-256 | started from an empty map, each bit of a block's flag says exactly which marks were made there |
| HandleMarking.RecurMarkEdgesToErrHandle | analyzer/src/lib/SecurityChecks.cc:397-430 | marks exactly the edges into blocks that lead to the handler backwards over single-successor predecessors and edges unmarked at the start; nothing else changes; it terminates on cycles |
| ReturnMarking.RecurMarkEdgesToErrReturn | analyzer/src/lib/SecurityChecks.cc:433-463 | overwrites exactly the edges into blocks backward reachable over edges whose initial return nibble differs from the flag; every other edge and all handle bits stay |
| ForwardMarking.IntegrateIncoming | analyzer/src/lib/SecurityChecks.cc:291-301 | the integrated flag is the fold of the merge over the predecessors other than the edge's own source |
| ForwardMarking.MarkOutgoing | analyzer/src/lib/SecurityChecks.cc:302-308 | all edges out of a block take over the return nibble, and exactly those whose nibble differed wait |
| ForwardMarking.RecurMarkEdgesFromBlock | analyzer/src/lib/SecurityChecks.cc:259-310 | stops at a block that resets the error; otherwise the result is that of a first-in-first-out run of steps each of which integrates all other incoming edges into the waiting flag and hands the outcome to the edges out of the block; only return nibbles of edges below change, none goes back to zero, every edge after a changed edge is marked, and a prevailing flag marks exactly the edges reached over differing nibbles; it terminates although nibbles flip |
| BackwardMarking.CheckSiblings | analyzer/src/lib/SecurityChecks.cc:348-370 | the answer "all Must" is exact, and when it is no the answer "all zero" means that no sibling is Must, which a sibling that is only May satisfies |
| BackwardMarking.MarkMustPreds | analyzer/src/lib/SecurityChecks.cc:371-382 | exactly the edges into the block that are not Must become Must, and they all wait |
| BackwardMarking.MarkBefore | analyzer/src/lib/SecurityChecks.cc:331-391 | one step: nothing without predecessors or return flag, May over the whole backward closure, Must on the entering edges, or nothing, by the flag and the siblings |
| BackwardMarking.RecurMarkEdgesToBlock | analyzer/src/lib/SecurityChecks.cc:313-393 | only return nibbles of edges above change and none goes back to zero; the effect is exact unless the first step climbs, and then the edges into every block with a single target that leads to the marked edge over such blocks and edges not yet Must carry a return flag; the result is that of a first-in-first-out run of single steps; it terminates although nibbles flip |
| BackwardMarking.RunIsDetermined | analyzer/src/lib/SecurityChecks.cc:313-393 | such a run leaves no choice: the flags at its start and the worklist determine every flag at its end |
| ReturnAims.ClimbIsExact | analyzer/src/lib/SecurityChecks.cc:313-393 | a run that starts with a new Must edge ends with exactly the Must flags that all paths justify, where two-way branches lead into returning blocks that do not lead back |
| ReturnAims.OneMoreEdge | analyzer/src/lib/SecurityChecks.cc:506-512 | marking one more edge into a returning block, Must or May, and all that follows from it keeps every return nibble above returning blocks exact |
| ForwardAims.OneMoreOut | analyzer/src/lib/SecurityChecks.cc:513-518 | marking one more edge out of a returning block and all that follows from it keeps the flags right for the edges marked so far: an edge is May exactly if it is one of them and leaves a block with May, or one of these leads to it |
| ReturnRuns.AllRunIsExact | analyzer/src/lib/SecurityChecks.cc:486-520 | from a map without return flags, with returning blocks apart and two-way branches above them, the nibble of every edge that no returning block leads to is, for every block order: that of the returning block it enters, else Must if its end is doomed, else May if its end leads to a block with May, else zero |
| ReturnRuns.AllRunIsExactBelow | analyzer/src/lib/SecurityChecks.cc:486-520 | from a map without return flags, with returning blocks apart and none of them both Must and May, the nibble of every edge that some returning block leads to is, for every block order: May if a returning block with May leads to its start, else Must |
| EdgeMarking.HandlerAdds | analyzer/src/lib/SecurityChecks.cc:397-430 | one handler adds exactly the edges from which single-successor blocks force control into it; stopping at edges marked before loses nothing |
| EdgeSpread.MarkEdgesTo | analyzer/src/lib/SecurityChecks.cc:506-512 | all edges into a returning block get a return flag, which is carried back over them; only edges before the block change; a May flag leaves marked edges behind every change; where only May flags occur the marked edges are a fold of backward closures |
| EdgeSpread.MarkEdgesFrom | analyzer/src/lib/SecurityChecks.cc:513-518 | all edges out of a returning block get a return flag, which is carried on over them; only edges after the block change; unless a successor returns an error itself, marked edges follow every change; where only May flags occur the marked edges are a fold of forward closures |
| EdgeMarking.MarkBlock | analyzer/src/lib/SecurityChecks.cc:486-520 | one flagged block contributes its forced handle edges exactly and its return flags within bounds, and keeps a map without gaps in the return flags free of gaps where returning blocks do not lead to each other |
| EdgeMarking.MarkedTwice | analyzer/src/lib/SecurityChecks.cc:486-520 | marking from some blocks and then from others is marking from all of them |
| EdgeMarking.MarkAllEdgesErrFlag | analyzer/src/lib/SecurityChecks.cc:481-523 | from a closed map: Must-handle edges are exactly those forced into a handler block; return nibbles change only before or after a returning block and never go back to zero; both sides of every returning block are covered; only the three known flags occur; without a Must block no edge becomes Must. From a map without return flags, where no returning block leads to a returning block over an edge: every edge after a returning block is marked; if all of them have May an edge is marked if and only if it lies before or after one; and with two-way branches above them every nibble that no returning block leads to is the one of ReturnRuns.AllRunIsExact, and if none of them has both bits every other nibble is the one of ReturnRuns.AllRunIsExactBelow. Where only May flags occur the marked edges are the fold of closures over the block list |
| EdgeMarking.BlockOrderMatters | analyzer/src/lib/SecurityChecks.cc:481-523 | two orders of the same six blocks, both from the entry block: with two blocks that may return an error, one leading to the other, the worklists leave different edges marked |
| MayMarking.BlockOrderDecides | analyzer/src/lib/SecurityChecks.cc:481-523 | the folds of closures over these two block lists differ at the edge between blocks 3 and 5 |
| SwitchOrder.SwitchOrderMatters | analyzer/src/lib/SecurityChecks.cc:481-523 | two orders of the same ten blocks, both from the entry block: with two Must blocks that lead nowhere, below a three-way switch, the edge out of the entry block ends with a return flag in one order and without in the other |
| EdgeMarking.EmptyMapIsClosed | analyzer/src/lib/SecurityChecks.cc:680-700 | the empty map with which the marking starts satisfies what the exactness of handle flags needs |
| ErrorFlow.MayReturnErr | analyzer/src/lib/SecurityChecks.cc:527-601 | answers yes exactly when some function reached over the followed calls sets an error code, on recursive call graphs too |
| ErrorFlow.FindSameVariablesFrom | analyzer/src/lib/SecurityChecks.cc:1088-1121 | returns exactly the values reached by any chain of store and load through one pointer |
| ValueFlow.VisitLoad | analyzer/src/lib/SecurityChecks.cc:838-863 | a load leads to the values stored to its pointer, each marked or followed |
| ValueFlow.VisitPhi | analyzer/src/lib/SecurityChecks.cc:864-887 | a PHI leads to its incoming values, error constants marking the incoming block |
| ValueFlow.VisitSelect | analyzer/src/lib/SecurityChecks.cc:888-925 | a select with an error constant is recorded, its other operand marked or followed |
| ValueFlow.IsCheckedAtOnce | analyzer/src/lib/SecurityChecks.cc:978-1020 | the loop over the saved copies of a call's result decides exactly whether the branch at the end of the block compares one of them |
| ValueFlow.VisitCall | analyzer/src/lib/SecurityChecks.cc:944-1024 | what a call contributes: error-pointer helpers, copying functions, callees that may return an error, checked at once or not |
| ValueFlow.VisitValue | analyzer/src/lib/SecurityChecks.cc:833-1068 | one step of the value flow performs exactly the marks and the successors of the value's kind |
| ReturnFlow.CheckErrValueFlow | analyzer/src/lib/SecurityChecks.cc:805-1069 | visits exactly the values not seen before that flow into the returned value, whatever the queue order, and or-s in exactly their contributions |
| ReturnFlow.CheckErrReturn | analyzer/src/lib/SecurityChecks.cc:605-625 | with one visited set for all returns the block map ends as the bitwise or of the contributions of all values that flow into any return |
| SecurityChecks.CheckErrHandle | analyzer/src/lib/SecurityChecks.cc:628-677 | exactly the listed blocks that call an error handler gain the Must-handle flag |
| SecurityChecks.HandlingMeans | analyzer/src/lib/SecurityChecks.cc:628-677 | a block handles errors if and only if one of its calls has a listed name: the text before the first space, or for a printk the name on its source line |
| SecurityChecks.CountSuccessors | analyzer/src/lib/SecurityChecks.cc:745-784 | the counters are non-zero together exactly when the edges out of the block are mixed |
| SecurityChecks.ConditionOf | analyzer/src/lib/SecurityChecks.cc:735-800 | finds the condition of a branch, switch or recorded select exactly when it qualifies as a check |
| SecurityChecks.AddSecurityCheck | analyzer/src/lib/SecurityChecks.cc:1072-1085 | afterwards the condition has an entry, no other condition gains or loses one |
| SecurityChecks.ReadChecks | analyzer/src/lib/SecurityChecks.cc:720-801 | exactly one entry for each condition that qualifies, made by its first check; the early exit on empty maps drops none |
| SecurityChecks.OneEntryPerCondition | analyzer/src/lib/SecurityChecks.cc:1072-1085 | two entries with the same condition are the same entry |
| SecurityChecks.EntryForEveryCheck | analyzer/src/lib/SecurityChecks.cc:680-802 | a condition has an entry if and only if some instruction checks it |
| SecurityPass.BlocksMean | analyzer/src/lib/SecurityChecks.cc:605-677 | after both block passes the flagged blocks are exactly those that set an error code or call a handler, and their Must and May bits are those of the value flow |
| SecurityPass.MarkingMeans | analyzer/src/lib/SecurityChecks.cc:481-523 | the marked edges in terms of the code: handle flags exactly; return flags by bounds and coverage; and where the blocks that set an error code do not lead to each other, by the exact Must and May flags after them if none sets both, and by the exact flags before them if the branches there are two-way |
| SecurityPass.SecurityChecksPass.IdentifySecurityChecks | analyzer/src/lib/SecurityChecks.cc:680-802 | the whole pass on one function: its edges mean what the code says, its checks are exactly the qualifying conditions, and the shared select set grows by exactly the selects that flow into a return |
| SecurityPass.HandleCheckMeans | analyzer/src/lib/SecurityChecks.cc:680-802 | the handle criterion says exactly that some successor is forced into a handler and some successor is not |
| SecurityPass.ReturnCheckMeans | analyzer/src/lib/SecurityChecks.cc:745-784 | under these conditions the return criterion of a branch before the returning blocks says exactly that some successor is sure to return an error and some is not |
| SecurityPass.BranchCheckMeans | analyzer/src/lib/SecurityChecks.cc:735-800 | and such a branch is a security check if and only if it splits what is sure to return an error from the rest, or what is forced into a handler from the rest |
| SecurityPass.NoReturnCheckAfter | analyzer/src/lib/SecurityChecks.cc:745-784 | under these conditions a branch after a block that returns an error never has Must edges beside others |
| SecurityPass.ConditionIsOperand | analyzer/src/lib/SecurityChecks.cc:735-800 | the condition of a check is what the branch or switch decides on, or the condition of a recorded select |
| SecurityPass.NoErrorNoBranchCheck | analyzer/src/lib/SecurityChecks.cc:680-802 | a function that sets no definite error code and calls no handler has no branch checks |
| ReturnedValues.VisitSays | analyzer/src/lib/SecurityChecks.cc:833-1068 | which marks a value makes, instruction by instruction: error constants as ranges of numbers at their blocks, selects, error-pointer helpers, copied errors, callees that may return an error, and arithmetic |
| ReturnedValues.VisitLooks | analyzer/src/lib/SecurityChecks.cc:833-1068 | which values a value leads to: stored, incoming, selected, passed on or copied ones, and no constants |
| ReturnedValues.InfluencesAre | analyzer/src/lib/SecurityChecks.cc:605-625 | the values looked at are exactly those that some returned value comes from in any number of steps |
| ReturnedValues.MarksAre | analyzer/src/lib/SecurityChecks.cc:605-625 | a block is marked exactly when a value that flows into a return says so |
| ReturnedValues.SelectsAre | analyzer/src/lib/SecurityChecks.cc:888-925 | the recorded selects are exactly those flowing into a return of whose two values one is an error code and the other is not |
| ReturnedValues.ReturnedPhiConstant | analyzer/src/lib/SecurityChecks.cc:864-887 | a returned PHI whose value from block b is a constant x: b is marked Must if -4096 < x < 0 and May if 0 <= x < 4096 |
| ReturnedValues.ReturnedStoredConstant | analyzer/src/lib/SecurityChecks.cc:838-863 | the same for a constant stored to the variable whose value is returned |
| ReturnedValues.MayReturnMeans | analyzer/src/lib/SecurityChecks.cc:527-601 | a function may return an error exactly when it or a function it goes on to stores an error code, calls for a pointer or calls an error-pointer helper |
| ReturnedValues.ComparedAtOnce | analyzer/src/lib/SecurityChecks.cc:978-1020 | a call whose result is an operand of the condition on which its block branches or switches is checked at once |
| ReturnedValues.EarlyReturnIsCheck | analyzer/src/lib/SecurityChecks.cc:680-802 | a branch between a block that returns a small negative constant and one that only returns a small other one is a check |
| ControlFlow.BackwardIsForward | analyzer/src/lib/DataFlowAnalysis.cc:39-62 | forward and backward reachability of blocks are dual |
| Slicing.CollectSuccReachBlocks | analyzer/src/lib/DataFlowAnalysis.cc:39-49 | the recursion explores what is reachable past the blocks already in the set |
| Slicing.CollectPredReachBlocks | analyzer/src/lib/DataFlowAnalysis.cc:52-62 | the same against the edges |
| Slicing.CollectedForward | analyzer/src/lib/DataFlowAnalysis.cc:39-49 | from an empty set it collects exactly the blocks that are reachable |
| Slicing.CollectedBackward | analyzer/src/lib/DataFlowAnalysis.cc:52-62 | from an empty set it collects exactly the blocks that reach the block |
| Slicing.PathExists | analyzer/src/lib/DataFlowAnalysis.cc:664-715 | the breadth-first path test is exact and terminates on cycles |
| Slicing.PossibleUseStResult | analyzer/src/lib/DataFlowAnalysis.cc:664-715 | in one block: the store comes no later; across blocks: the instruction's block is reachable from the store's |
| Slicing.PathTestAgrees | analyzer/src/lib/DataFlowAnalysis.cc:39-62 | across blocks the path test agrees with both collections |
| Slicing.FindInFuncSourceCV | analyzer/src/lib/DataFlowAnalysis.cc:291-428 | explores the slice past the tracked values and adds exactly the sources and critical variables of what is newly tracked |
| Slicing.SliceKeepsSourcesCritical | analyzer/src/lib/DataFlowAnalysis.cc:291-428 | the sources stay inside the critical variables whenever they start so |
| Slicing.TargetsJoin | analyzer/src/lib/MissingChecks.cc:223-264 | slicing several operands yields the union of what each yields alone, in any order |
| Slicing.IdentifyCheckedTargets | analyzer/src/lib/MissingChecks.cc:223-264 | with one tracked set shared by all operands the targets of a check are all sources its operands come from |
| TrackedValues.TargetsMean | analyzer/src/lib/DataFlowAnalysis.cc:291-428 | the sources of the operands of a check are exactly those that tracking back finds: constants, parameters, allocations and calls, through operands and through what was stored earlier to an alias of a loaded pointer, and what earlier calls are given in the slot of such an alias |
| UseSearch.FindUses | analyzer/src/lib/DataFlowAnalysis.cc:525-650 | explores the forward flow of a target past the visited values and adds exactly the uses of what is newly visited |
| UseSearch.CollectUses | analyzer/src/lib/DataFlowAnalysis.cc:525-650 | from an empty set: exactly the uses after the check of everything the target flows to |
| TrackedValues.UsesMean | analyzer/src/lib/DataFlowAnalysis.cc:525-650 | the uses of a target are exactly the instructions after the check, other than the check, that use a value the target is carried to: addresses, accesses through it, comparisons, and calls at the slot of the argument |
| ForwardSearch.IsCheckedForward | analyzer/src/lib/MissingChecks.cc:543-642 | either a witness flow to a checked value, or everything newly reachable is explored and none of it is checked |
| ForwardSearch.AnyIsChecked | analyzer/src/lib/MissingChecks.cc:944-955 | with one visited set over all tracked values the answer is yes exactly when some tracked value flows to a checked one, in any order |
| CheckedValues.CheckedForwardMeans | analyzer/src/lib/MissingChecks.cc:543-642 | a source is checked exactly when it flows, over computed values and over loads of an alias it was stored to, to a value with a user in scope that is a comparison (of a checked key), a switch, a return or a recorded call |
| CheckedValues.TestedSourceIsChecked | analyzer/src/lib/MissingChecks.cc:566-575 | a source that is compared, switched on or returned in scope is checked |
| CheckedValues.SavedSourceIsChecked | analyzer/src/lib/MissingChecks.cc:596-606 | so is one that is stored and tested after a load through an alias |
| BackwardSearch.IsCheckedBackward | analyzer/src/lib/MissingChecks.cc:361-541 | a yes has a witness chain of backward steps none of whose values was seen before; after a no every newly seen value has a point on the way that is not checked and whose next values were all seen; it terminates on recursive call graphs |
| PointSearch.NoHasCover | analyzer/src/lib/MissingChecks.cc:361-541 | a no from nothing seen has a cover: points on the way, the start among them and none a hit, one for each value met, closed under steps up to their values |
| PointSearch.AnswerIsExact | analyzer/src/lib/MissingChecks.cc:361-541 | a search that remembers values instead of points answers yes exactly when a chain of steps leads to a hit, if no value is met at two points |
| BackwardSearch.WitnessCrossesFewCalls | analyzer/src/lib/MissingChecks.cc:361-541 | a witness from depth one crosses at most four call sites |
| BackwardSearch.UseIsChecked | analyzer/src/lib/MissingChecks.cc:1060-1086 | for one use: a yes always has a witness, even one that repeats no value; a no has a cover without a checked point; the answer is exact, across call sites too, where no value is met at two points; where nothing comes from a parameter that holds, and a yes means a checked value inside the function |
| CheckedValues.WitnessMeans | analyzer/src/lib/MissingChecks.cc:361-541 | a use has a witness exactly when it stems from a value guarded in its scope: compared if the key is checked, switched on, or given to a call recorded as a check; stepping through operands, stores to aliases, and arguments at callers within five levels |
| CheckedValues.GuardedUseIsChecked | analyzer/src/lib/MissingChecks.cc:430-441 | an argument that is compared or switched on in scope counts as checked, whatever else the search remembers |
| CheckedValues.SavedUseIsChecked | analyzer/src/lib/MissingChecks.cc:448-480 | so does a value loaded from a slot to which a tested value was stored |
| RepeatedValue.MissesTheWitness | analyzer/src/lib/MissingChecks.cc:361-541 | a recursive program with complete call graph: the visit of a use counts a missing check although a witness exists, because the checked value was seen in the scope of the use already |
| Ledger.EveryRunIsBalanced | analyzer/src/lib/MissingChecks.cc:698-720 | over every sequence of checks and visits: a key has a count, a set entry and exactly one model together; unchecked values number at most the unchecked count, that is at most the total, and only checked keys have totals |
| Ledger.ModeledIsChecked | analyzer/src/lib/MissingChecks.cc:722-742 | a comparison counts as a modelled check of a key exactly when the key was checked, whatever the comparison |
| Ledger.VisitsKeepChecks | analyzer/src/lib/MissingChecks.cc:894-1088 | no step of stage 2 changes the checked keys, their models or their counts |
| Ledger.TimesIgnoresOrder | analyzer/src/lib/MissingChecks.cc:744-892 | how often a key is checked does not depend on the order of the recorded places |
| Ledger.RecordedTimes | analyzer/src/lib/MissingChecks.cc:698-708 | after stage 1 the count of a key is the number of places where it was checked |
| Ledger.RecordedKeys | analyzer/src/lib/MissingChecks.cc:698-708 | stage 1 adds exactly the keys of the recorded places and touches no missing check |
| Ledger.VisitsAreCounted | analyzer/src/lib/MissingChecks.cc:710-720 | after stage 2 the counters of a checked key have grown by exactly its visits and misses, those of other keys not at all |
| Ledger.CountersMean | analyzer/src/lib/MissingChecks.cc:1090-1184 | counters and rating after recorded checks followed by visits, as one closed form |
| Ledger.RatingIsFraction | analyzer/src/lib/MissingChecks.cc:1090-1184 | a rating exists exactly for checked keys with a missing check, never divides by zero and lies in (0, 1] |
| CheckStage.CountSources | analyzer/src/lib/MissingChecks.cc:763-848 | each place where a target of the check stands for a source is recorded once: callers of an argument, a called function's result, users that pass a pointer out |
| CheckStage.CountUses | analyzer/src/lib/MissingChecks.cc:850-891 | each call argument that a target flows to after the check is recorded once |
| CheckStage.CountSrcUseChecks | analyzer/src/lib/MissingChecks.cc:744-892 | one check is recorded once at each of its source places and each of its use places |
| CheckedKeys.SourceKeysMean | analyzer/src/lib/MissingChecks.cc:763-848 | a check records a source under a key exactly when one of its targets is the result of a direct call (the called function at -1), a parameter (each indirect caller at its slot), or passed to an earlier direct call (the called function at the slot) |
| CheckedKeys.UseKeysMean | analyzer/src/lib/MissingChecks.cc:850-891 | a check protects a use under a key exactly when a target is carried to an argument of a direct call after it |
| CheckedKeys.ModuleKeysMean | analyzer/src/lib/MissingChecks.cc:1227-1326 | after stage 1 the checked keys are exactly those of comparisons recorded as checks in functions of 1 to 500 blocks that stand for their hash |
| CheckedKeys.ResultKeyMeans | analyzer/src/lib/MissingChecks.cc:744-892 | the result of a function counts as checked exactly when some analysed function checks the result of a call of it |
| CheckedKeys.ComparedCallIsTarget | analyzer/src/lib/MissingChecks.cc:223-264 | an integer comparison of the result of a call is a check of that call |
| UncheckStage.VisitPosition | analyzer/src/lib/MissingChecks.cc:991-1057 | one output position of a direct call: filtered as the source filters, missed exactly when no tracked value is checked later |
| UncheckStage.VisitDirect | analyzer/src/lib/MissingChecks.cc:970-1058 | the positions of a direct call from the returned value on, stopping at the shorter of arguments and parameters |
| UncheckStage.VisitCallee | analyzer/src/lib/MissingChecks.cc:907-959 | one callee of an indirect call: its parameter and the loads behind it, searched in the callee |
| UncheckStage.VisitUse | analyzer/src/lib/MissingChecks.cc:1060-1086 | one argument of a call: visited once, with a justified answer, only when its key was checked |
| UncheckStage.CountSrcUseUnchecks | analyzer/src/lib/MissingChecks.cc:894-1088 | the source book of a function becomes exactly the one that its probes yield, the use book the one its arguments yield |
| CheckedKeys.ProbesMean | analyzer/src/lib/MissingChecks.cc:907-1058 | what stage 2 searches for at one call: the used result under (callee, -1), pointer arguments under their slot, parameters of the callees of an indirect call; in the blocks after the call or after the entry of the callee; never for the six skipped functions |
| CheckedKeys.ModuleProbesMean | analyzer/src/lib/MissingChecks.cc:1227-1326 | over a list of functions these are the probes of all instructions of functions of 1 to 500 blocks that stand for their hash |
| CheckedKeys.UseProbesMean | analyzer/src/lib/MissingChecks.cc:1060-1086 | and the uses: each argument of such a direct call, judged in the blocks before it except its own |
| UncheckStage.UsesVisitedKeepChecks | analyzer/src/lib/MissingChecks.cc:1060-1086 | visiting uses keeps the checked keys and the balance |
| MissingChecks.CountChecks | analyzer/src/lib/MissingChecks.cc:1227-1326 | all checks of a function are recorded, in any order |
| MissingChecks.MissingChecksPass.DoFunction | analyzer/src/lib/MissingChecks.cc:1227-1326 | a function contributes to the current stage only, and nothing when it is a declaration, too large or a duplicate |
| MissingChecks.StageTwice | analyzer/src/lib/MissingChecks.cc:1227-1326 | a stage over some functions and then others is the stage over all of them |
| MissingChecks.MissingChecksPass.DoModulePass | analyzer/src/lib/MissingChecks.cc:1227-1326 | one module advances the books by its functions; only the last module moves to the next stage and asks for another sweep |
| MissingChecks.MissingChecksPass.Sweep | analyzer/src/lib/Analyzer.cc:77-98 | a sweep completes one stage for every module before any module enters the next |
| MissingChecks.MissingChecksPass.Run | analyzer/src/lib/Analyzer.cc:61-107 | with at least one module exactly two sweeps, ending at stage 3 with index 0, stage 2 starting from the complete books of stage 1; from empty books both end balanced and hold exactly the keys of stage 1 |
| MissingChecks.SourceCountsMean | analyzer/src/lib/MissingChecks.cc:894-1184 | after both stages: the check count of a source is the number of its recorded places, its total and its misses are those of the probed places judged with the complete first stage, and its rating follows |
| MissingChecks.UseCountsMean | analyzer/src/lib/MissingChecks.cc:894-1184 | after both stages: the check count of a use is the number of its recorded places, its total is the number of probed arguments of a checked key, and its misses and rating are those of justified answers |
| MissingChecks.CrossCheckIsBalanced | analyzer/src/lib/MissingChecks.cc:1227-1326 | after both stages both books are balanced and still hold exactly the keys and models of stage 1 |
| MissingChecks.ProcessResults | analyzer/src/lib/MissingChecks.cc:1090-1184 | reports exactly the checked keys with a missing check, each with its share in (0, 1] |
| Reports.MissesMean | analyzer/src/lib/MissingChecks.cc:894-1184 | after both stages a value is listed as missing a check of a key exactly when the key was checked somewhere and an untested probe of the key has the value |
| Reports.SourceReportMeans | analyzer/src/lib/MissingChecks.cc:1090-1184 | a source key is reported exactly when it is checked somewhere and some probe of it is untested |
| Reports.ResultReportMeans | analyzer/src/lib/MissingChecks.cc:744-1184 | over a whole run: the result of g is reported if and only if some analysed function checks the result of a call of g and some analysed call of g uses its result without a test in the blocks after the call |
| Reports.ReportedUse | analyzer/src/lib/MissingChecks.cc:1060-1184 | a reported use is protected by some check, and some visited argument of that use is not itself guarded before its call |
| Reports.UnguardedUseIsReported | analyzer/src/lib/MissingChecks.cc:1060-1184 | a use that some check protects is reported as soon as some visited argument of it stems from nothing guarded |
| CallTargets.NextLayerBaseType | analyzer/src/lib/CallGraph.cc:415-448 | the next layer lies strictly below, so the descent ends |
| CallTargets.NextLayerMeans | analyzer/src/lib/CallGraph.cc:415-448 | the next layer is the first field address below any loads and conversions, and only if its type is composite and its indices are constant |
| CallTargets.FuncSetIntersection | analyzer/src/lib/CallGraph.cc:404-411 | the collected set is the intersection |
| CallTargets.NarrowByTransits | analyzer/src/lib/CallGraph.cc:490-513 | one layer narrows by each transit set in turn, or by its own set when it has no transit |
| CallTargets.FindCalleesWithMLTA | analyzer/src/lib/CallGraph.cc:450-529 | fails exactly when no function has the signature; otherwise the first-layer set narrowed by every set consulted before an escape |
| CallTargets.ConsultedMeans | analyzer/src/lib/CallGraph.cc:450-529 | the sets a call is narrowed by are exactly those of the layers above the first one whose type or field escapes: of its transits under the hash cut to 32 bits, or its own when it has none |
| CallTargets.CandidatesShrink | analyzer/src/lib/CallGraph.cc:450-529 | going a layer further never adds a candidate and never empties the set |
| CallTargets.CandidateIsKept | analyzer/src/lib/CallGraph.cc:450-529 | a function in every consulted set is never dropped |
| CallTargets.NarrowingIsIntersection | analyzer/src/lib/CallGraph.cc:482-513 | the outcome is the plain intersection of all consulted sets if and only if that intersection is not empty |
| CallTargets.VisitOrderIsFree | analyzer/src/lib/CallGraph.cc:482-513 | with any candidates at all, every order of the sets gives the same outcome if and only if some candidate is in each set that holds a candidate |
| CallTargets.VisitOrderDecides | analyzer/src/lib/CallGraph.cc:493-501 | type tables on which the order decides: two transit sets without a common candidate, and the callee left is the one whose set was filed under the smaller hash |
| CallTargets.WideTransitsAreLost | analyzer/src/lib/CallGraph.cc:487-493 | transits filed under hashes of more than 32 bits are never consulted, whatever else the table holds |
| CallGraph.RepresentativeIsFirst | analyzer/src/lib/CallGraph.cc:592-601 | the representative of a hash is its first definition, and there is one as soon as a definition has the hash |
| CallGraph.LinkedIsLast | analyzer/src/lib/CallGraph.cc:580-590 | the linked definition of a name is the last external one |
| CallGraph.CallGraphPass.DoInitialization | analyzer/src/lib/CallGraph.cc:573-603 | names, signatures, address-taken functions and representatives index exactly the functions seen so far, in order |
| CallGraph.DirectCallee | analyzer/src/lib/CallGraph.cc:658-676 | a direct call has at most one callee, the representative of the resolved function's hash, and none exactly when no definition has that hash |
| CallGraph.SyscallNames | analyzer/src/lib/CallGraph.cc:580-590 | names that begin with SyS_ are linked as sys_, all others as they are |
| CallGraph.DirectCallMeans | analyzer/src/lib/CallGraph.cc:658-676 | a direct call calls g exactly when g is the first definition with the hash of what the called function is linked to: itself if defined, else the last external definition of its name, else itself |
| CallGraph.LinkedCallHasCallee | analyzer/src/lib/CallGraph.cc:660-668 | a direct call to a declaration that some module defines and exports has exactly one callee |
| CallGraph.IndirectCallees | analyzer/src/lib/CallGraph.cc:640-655 | an indirect call keeps only defined address-taken functions of its signature, keeps some whenever there is one, and keeps those in every consulted set |
| CallGraph.LinkedCallsAre | analyzer/src/lib/CallGraph.cc:612-684 | the calls that are linked are exactly those of visited functions that are the first definition with their hash |
| CallGraph.FindCallees | analyzer/src/lib/CallGraph.cc:633-676 | the callees found from the tables are the targets of the call |
| CallGraph.CallGraphPass.DoModulePass | analyzer/src/lib/CallGraph.cc:612-684 | links exactly the calls of the representatives of a module |
| CallGraph.CallGraphPass.Run | analyzer/src/lib/Analyzer.cc:61-107 | after the whole pass from empty tables: f is a callee of c exactly when c is a caller of f, a direct call has at most one callee, it is a representative, and no two representatives share a hash |

## Left out

- BackwardSearch.IsCheckedBackward: one visited set is shared by different scopes and depths, so where a value is met at two points a no only says that some point of each value met is not checked; RepeatedValue.MissesTheWitness shows that a witness can be missed there. Beyond "no value is met at two points" the answer can depend on the order in which call sites are taken, and no sharper condition is stated.
- BackwardMarking.RecurMarkEdgesToBlock: after a climb the final nibbles are those of the first-in-first-out run; a closed form for them is stated where returning blocks lie apart and branches are two-way (ReturnAims.ClimbIsExact), not in general.
- EdgeMarking.MarkAllEdgesErrFlag: where returning blocks lead to each other, or a branch above a Must block has three targets, the return flags can depend on the order of the blocks (EdgeMarking.BlockOrderMatters, SwitchOrder.SwitchOrderMatters), and only bounds, coverage and the run itself are stated; the conditions under which they do not are sufficient, not necessary. Where a returning block is both Must and May, edges after returning blocks are stated as marked, not as Must or May.
- UncheckStage.CountSrcUseUnchecks: the visits of uses are exact, but where a value is met at two points the answer of a visit is known up to a witness on yes and a cover on no, as in the search itself.
- Widths: counters and argument numbers are unbounded; the 8-bit argument numbers and the wrap-around of unsigned counters are not modelled. Bits above the low byte of a flag are never written and are left out.
- Thresholds: the comparisons of a rating with 0.3 and 0.1 and the floating-point rounding; the exact rational share is where the model stops.
- Undefined behaviour of the source: the last operand of a call without arguments, a missing parameter of a callee with variable arguments, and a configured argument number out of range contribute nothing in the model.
- The constant-expression branch of findInFuncSourceCV, which the test for constants before it makes unreachable.
- Conditional compilation: loop unrolling and the sound-mode call targets, which the default configuration switches off.
- The collection of type confinements, escapes and transits (typeConfineInInitializer, typeConfineInStore, typeConfineInCast): their tables are arbitrary parameters of the call-graph model.
- Hashing of functions and types: hashes are given numbers, and nothing is claimed about collisions.
- Pointer analysis: the alias relation is an arbitrary parameter.
- findSourceCV, findSourceCVAlias, findSources, performBackwardAnalysis, findClosestBranch, findParallelPaths, findPaths, findErrorCodes and identifyIndirectTargets: unused or disabled variants.
- The module loop of the security-check pass (block limit and storing of results) and the initialisation and finalisation loops of the driver around the cross-check, which do nothing there.
- The counter of conditional statements, debug output, source lines, module loading and command-line options.
