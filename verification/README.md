# Verified models of the register allocator and the front end

These Dafny modules model the parts of the repository in which a mistake would
be hardest to see, and prove what their comments and assertions promise.

| modules | what they model |
|---|---|
| GreedyState, GreedyFrames, Eviction, EvictionLaws, CascadeMeasure, Greedy, RecoloringTheorems | the driving loop of the greedy register allocator, its eviction protocol and last-chance recoloring with its undo stack |
| HintRecoloring | repairing broken copy hints after allocation |
| LocalSplit, SplitChoice, SplitSweep | the window search of local live range splitting, what it comes across and how good its choice is |
| Segments, BlockInterference, CacheEntry, InterferenceCache | the per-block interference cache and its one-pass iterators |
| Hopfield, HopfieldEnergy, PlacementSpec, PlacementSums, PlacementRuns, PlacementMustSpill, PlacementFixedPoints, PlacementLimits, SpillPlacement | spill placement as a Hopfield network with saturating weights, a dead zone and a work list |
| Dominators, HoistCopies, TransferValues, LiveBlocks | hoisting of back-copies, handing a parent interval to its new intervals, and the classification of live blocks |
| Decimal, KeywordTrie | the keyword trie of the lexer and its text form |
| Mangling, Scopes | keys and symbols of functions, and the scope tree in which calls are resolved |

State that the source changes in place is a class here, with fields of the same
meaning and methods with the same branches; what the methods compute is given by
functions and predicates on values, and the theorems are about these. Loops over
unordered containers are modelled for every order. Spill weights are real
numbers; allocation orders, hints and preferences may depend on the current
assignment in any way. A pointer into a tree (trie nodes, scopes) is the
allocation number of the node.

Where the code and its own documentation differ, the model follows the code:

- The eviction code asserts that an evictee is of an older cascade, or spillable
  while the evictor is not (third-party/src/RegAllocGreedy.cpp:477-479). The test
  before it also lets an unspillable range evict an unspillable one with a larger
  order, of a newer cascade. `RecoloringTheorems.AssertedLegalCanFail` gives a run
  of evictions that ends in one, `AssertedLegalExactly` the condition.
- SpillPlacement.h (lines 144-150) promises that no MustSpill constraint is
  violated. A bundle that preferred a register when it received the constraint
  and was not updated since is still reported:
  `PlacementMustSpill.MustSpillIgnoredExactly`, with a query that shows it in
  `PlacementLimits.MustSpillCanSurviveFinish`. What the register allocator does
  after adding constraints, a scan or an iteration that empties its list, honours
  them all: `PlacementMustSpill.HonouredWhenSettled`.
- SpillPlacement.cpp (lines 19-25) calls the plain energy a Lyapunov function.
  With the dead zone it can rise: `PlacementLimits.PlainEnergyCanRise`. (At the
  smallest threshold it cannot: `HopfieldEnergy.PlainEnergyAtOne`.)
  `HopfieldEnergy.PlainEnergyRisesExactly` says when, and `PotentialFalls` gives
  the potential that does fall.
- The work list can be empty in a state that is not stable, because a move
  between "spill" and "undecided" wakes nobody:
  `PlacementLimits.EmptyTodoIsNotAFixedPoint`. `PlacementFixedPoints.LostAtExactly`
  says which turns leave a bundle behind, and by `RunIsStable` a query without such
  a turn is stable once its list is empty. A bundle left behind may be found again
  later: `FixedPointExactly`.
- The cost that back-copy hoisting weighs is documented as that of all copies
  (SplitKit.cpp:1010). It leaves out the first copy of a value whose own
  definition has not come before in the list, and every copy in the block found
  so far: `HoistCopies.CostCanFallShort` shows a hoist refused for that reason, and
  `CostIsAllExactly` says when all copies are counted.
- The local split keeps a window marked as best that need not have the largest
  gain (`SplitChoice.ChosenNotLargest`); `LargestExactly` says when it has, and
  `LossBound` how much can be lost.
- A saved keyword trie that holds the empty word does not load again:
  `KeywordTrie.RoundTripExactly`.
- Whether a recursive call finds its function depends on how that is written: a
  function without a declared return type is not known in its own body, unless its
  key was defined before, so the call is an error or means an outer function of
  the same key. `Scopes.RecursiveCallExactly` gives the condition.
- A declaration without a body (Parser.cpp:704-711) creates a function for the
  scope it stands in, not under its own name: `ForwardDeclaration` of
  `Scopes.BlockScopeManager`. The state table accepts the keyword for functions at
  the top level alone (Parser.cpp:26), so it always stands in the root, where the
  name is built from the parent that the root does not have (Parser.cpp:1275) and a
  null pointer is read; the model reports failure. Nor can one be parsed inside a
  body: the case of `Scopes.RecursiveCallExactly` with a function declared directly
  in the body, like nested functions, is one that the scope tree allows and the
  present state table never produces.

## Model

| member | source | states |
|---|---|---|
| Greedy.RAGreedy.TryRegister | third-party/src/RegAllocGreedy.cpp:1802-1905 | one register of the order leaves the frame of the search intact, is free when it succeeds and changes neither stack nor fixed set when it fails; nothing is touched where a fixed interference or a range that may not move is in the way, and a register whose interferences fit elsewhere is not missed |
| Greedy.RAGreedy.TryLastChanceRecoloring | third-party/src/RegAllocGreedy.cpp:1767-1909 | whatever happens in the nested calls, the state stays interference-free and in class, fixed ranges keep their registers, every changed assignment is on the undo stack with its old register, and a register returned is one of the order and free for the range; a failure leaves the stack as it was and the fixed set with the range added, unless the search was cut off; the registers of the order have their turns one by one, and none is passed over whose interferences all have room elsewhere in the state of its turn; so with all ranges done, or for the first register worth a round, it succeeds whenever there is room at the start |
| Greedy.RAGreedy.RecolorRound | third-party/src/RegAllocGreedy.cpp:1826-1905 | one candidate register: success leaves it free for the range, failure restores stack and fixed set and every candidate still alive, none of which is handed back; a round succeeds if no range must move, or a single one with a free register, or any number each with room of its own |
| Greedy.RAGreedy.TryRecoloringCandidates | third-party/src/RegAllocGreedy.cpp:1919-1949 | success means every queued range still alive holds a register; a queue of any size succeeds when each of its ranges has a free register, in all its orders, that no other queued range it overlaps can take away, even if others are evicted on the way; the recursion terminates although the depth may be unlimited, because each nested call starts with more fixed ranges |
| Greedy.RAGreedy.MayRecolorAllInterferences | third-party/src/RegAllocGreedy.cpp:1680-1722 | accepts exactly when no unit has too many interferences and every interfering range is recolorable, and then returns exactly the interfering ranges |
| Greedy.RAGreedy.PushCandidates | third-party/src/RegAllocGreedy.cpp:1829-1841 | unassigns exactly the candidates, records each once, with the register it had, and marks each as queued |
| Greedy.RAGreedy.RollBack | third-party/src/RegAllocGreedy.cpp:1886-1904 | truncates the stack, returns every recorded range that is still alive to its recorded register and leaves all others alone |
| GreedyFrames.RoundBegins | third-party/src/RegAllocGreedy.cpp:1829-1846 | taking the candidates away and giving the register to the range is an interference-free state whose stack names no range twice |
| GreedyFrames.RoundSuccess | third-party/src/RegAllocGreedy.cpp:1852-1861 | after all candidates found registers and the range gave its own back, that register is free for it and the whole round keeps the frame of the search |
| GreedyFrames.RoundRollback | third-party/src/RegAllocGreedy.cpp:1866-1905 | after the rollback loops the round as a whole keeps the frame: old assignments are back, and every candidate still alive holds its old register |
| GreedyFrames.FrameCompose | third-party/src/RegAllocGreedy.cpp:1919-1949 | steps of the search compose: what two of them keep, their sequence keeps, with undo entries and handed-back ranges appended |
| RecoloringTheorems.FailureRestores | third-party/src/RegAllocGreedy.cpp:1866-1908 | a failed attempt leaves the old assignment, less the ranges it hands back or spilled |
| RecoloringTheorems.DoneFailureIsUndone | third-party/src/RegAllocGreedy.cpp:1866-1908 | with all ranges done, a failed attempt restores the whole assignment and the stack, and hands nothing back |
| RecoloringTheorems.DoneSuccessKeepsAll | third-party/src/RegAllocGreedy.cpp:1852-1861 | with all ranges done, a successful attempt keeps every assigned range assigned, moves no fixed one, records every move once with its old register, and the result plus the new assignment is interference-free |
| RecoloringTheorems.DoneNeverDefers | third-party/src/RegAllocGreedy.cpp:2273-2293 | with all ranges done, an attempt ends with a register or a failure, never with a deferred or spilled range |
| RecoloringTheorems.TriedExactly | third-party/src/RegAllocGreedy.cpp:1680-1722 | which registers are tried, said of the ranges in the way: none is fixed, and none is done, of the same class, at the very register, and tied no less than the range |
| Greedy.RAGreedy.SelectOrSplitImpl | third-party/src/RegAllocGreedy.cpp:2220-2325 | keeps the frame of the search in every outcome, and says which it is: a register whenever one of the order is free, or evictable at any stage but the one for splitting; else the next stage, or the end of the range, exactly while its stage and weight allow it; else what last-chance recoloring finds |
| Greedy.RAGreedy.TryAssign | third-party/src/RegAllocGreedy.cpp:364-411 | takes the first free register of the order, or in its place the hint, if clearing that breaks no other, or a cheaper register that may be cleared; the one returned is free once it returns |
| Greedy.RAGreedy.TryEvict | third-party/src/RegAllocGreedy.cpp:543-556 | finds a register exactly when one within the limit may be cleared, and then the one tryFindEvictionCandidate chooses, free, with exactly its interferences handed back; else nothing changes |
| Greedy.RAGreedy.EvictInterference | third-party/src/RegAllocGreedy.cpp:447-484 | unassigns exactly the interfering ranges, hands each back once, and gives each the cascade number of the evictor |
| RecoloringTheorems.AssertedLegalExactly | third-party/src/RegAllocGreedy.cpp:477-479 | the asserted legality of an eviction holds of an evictable range exactly when that range is spillable or of no newer cascade |
| RecoloringTheorems.AssertedLegalCanFail | third-party/src/RegAllocGreedy.cpp:477-479 | a run of three permitted evictions from a state without cascade numbers, the last of which the assertion forbids |
| Eviction.PassesGate | third-party/src/RegAllocEvictionAdvisor.cpp:212-269 | the chain of refusals for one interfering range, in the order of the source, is the declared gate together with the budget |
| Eviction.CanEvictInterferenceBasedOnCost | third-party/src/RegAllocEvictionAdvisor.cpp:185-273 | accepts exactly when there is no fixed interference, no unit has too many ranges, every interfering range passes the gate and the total cost is below the budget; then returns that total |
| Eviction.TryFindEvictionCandidate | third-party/src/RegAllocEvictionAdvisor.cpp:275-312 | returns a register exactly when one within the limit may be cleared, and then none of the registers looked at that qualify is cheaper; looks at all hints and at as many others as the limit says, and stops at the first hint that can be used |
| EvictionLaws.EvictedAreLighter | third-party/src/RegAllocEvictionAdvisor.cpp:135-163 | a range evicted is of an older cascade and lighter than the evictor, unless the evictor presses, or stands at its hint where the range may still be split and has no hint; never fixed, never done |
| EvictionLaws.UnlimitedExactly | third-party/src/RegAllocEvictionAdvisor.cpp:185-273 | without a budget a register can be cleared exactly when there is no fixed interference, fewer than ten ranges on each unit, and each of them may be thrown off by its weight, stage, cascade and hint |
| EvictionLaws.HintEvictionExactly | third-party/src/RegAllocEvictionAdvisor.cpp:165-174 | for a hint, exactly when in addition none of them is of a newer cascade or at its own hint, nor a local range that only moves the pressure about |
| EvictionLaws.CheapEvictionExactly | third-party/src/RegAllocEvictionAdvisor.cpp:285-290 | for a cheaper register, exactly when in addition each is lighter than the evictor |
| EvictionLaws.CanTakeExactly | third-party/src/RegAllocEvictionAdvisor.cpp:275-312 | which registers tryFindEvictionCandidate may take at which cost limit, without naming costs |
| EvictionLaws.TotalCostExactly | third-party/src/RegAllocEvictionAdvisor.cpp:203-256 | the cost of clearing a register breaks no hint exactly when no range in the way has one or a newer cascade, and its weight is that of the heaviest |
| EvictionLaws.SetHintsExactly | third-party/src/RegAllocEvictionAdvisor.cpp:242-252 | the ranges met on a unit cost one for each hint and ten for each newer cascade broken |
| EvictionLaws.CanReassignExactly | third-party/src/RegAllocGreedy.cpp:413-445 | a local range can be reassigned exactly when some other register of its order is free of virtual interference with it |
| Eviction.EvictFrame | third-party/src/RegAllocGreedy.cpp:447-484 | evicting what may be evicted keeps the state sound: freed register, numbered cascades, fixed ranges untouched |
| CascadeMeasure.CascadeBound | third-party/src/RegAllocGreedy.cpp:450-453 | no cascade number exceeds the number of ranges |
| CascadeMeasure.CascadeSlackShrinks | third-party/src/RegAllocEvictionAdvisor.cpp:194-248 | when all ranges are spillable, no step raises the sum of the cascade slacks, and every eviction lowers it |
| CascadeMeasure.StageSlackShrinks | third-party/src/RegAllocGreedy.cpp:2270-2278 | no step lowers a stage, and a deferral raises one |
| Greedy.LoopProgress | third-party/src/RegAllocBase.cpp:84-165 | each turn of the driving loop evicts somebody, advances a stage or shortens the queue |
| Greedy.LoopStep | third-party/src/RegAllocBase.cpp:84-165 | each turn keeps every live range in exactly one of queue, assignment and errors, and the assignment interference-free |
| Greedy.RAGreedy.constructor | third-party/src/RegAllocGreedy.cpp:2540-2558 | a fresh allocator with nothing assigned, fixed or numbered satisfies the invariant that the driving loop starts from |
| Greedy.RAGreedy.SeedLiveRegs | third-party/src/RegAllocBase.cpp:71-80 | queues exactly the live ranges without a register |
| Greedy.RAGreedy.AllocateNext | third-party/src/RegAllocBase.cpp:88-164 | one turn: the range taken from the queue gets a register whenever one of its order is free or evictable, moves on as its stage says, and is reported only if it is done and recoloring failed too; it gets one whenever recoloring finds room |
| Greedy.RunLaws | third-party/src/RegAllocBase.cpp:84-165 | over any run of turns the ranges reported were done from the start and had no register reserved, every new register comes from an order, and only ranges that came to be spilled and had none reserved went away |
| Greedy.AllPlaced | third-party/src/RegAllocBase.cpp:84-165 | so once the queue is empty a range holds a register if every order of it names one without fixed interference that no range it overlaps holds or may get an alias of |
| Greedy.RunSeen | third-party/src/RegAllocGreedy.cpp:286-292 | no range waits in the queue at its first stage |
| Greedy.SeededSeen | third-party/src/RegAllocBase.cpp:71-85 | the queue the loop starts with holds exactly the live ranges without a register, all past their first stage |
| Greedy.RAGreedy.AllocatePhysRegs | third-party/src/RegAllocBase.cpp:84-165 | terminates when all ranges are spillable, by a run of turns from the seeded queue to the empty one; then every live range holds a register of its class, free of interference, or is reported; only ranges that were done from the start and have no register reserved are reported, only ranges that came to be spilled go away, and every range with a register reserved holds one |
| HintRecoloring.RecolorChangesCost | third-party/src/RegAllocGreedy.cpp:2077-2085 | the hint lists measure exactly the change in the total frequency of remaining copies that a recoloring makes |
| HintRecoloring.BrokenExactly | third-party/src/RegAllocGreedy.cpp:2054-2072 | a copy goes away exactly when both its ends hold the same register or neither holds any |
| HintRecoloring.HintRecolorer.CollectHintInfo | third-party/src/RegAllocGreedy.cpp:2054-2072 | appends one entry for every full copy between the register and another one, with the register that one holds |
| HintRecoloring.HintRecolorer.GetBrokenHintFreq | third-party/src/RegAllocGreedy.cpp:2077-2085 | the summed frequency of the hints that another register would break |
| HintRecoloring.HintRecolorer.Recolor | third-party/src/RegAllocGreedy.cpp:2126-2162 | recolors exactly when the register is free, in class and no dearer; keeps interference-freedom and never raises the copy cost |
| HintRecoloring.HintRecolorer.TryHintRecoloring | third-party/src/RegAllocGreedy.cpp:2095-2170 | a whole recoloring: each register is tried at most once, in a trail of single recolorings; who ends with the color passed it to all its neighbours; only copy-related ranges change, to that color; the copy cost never rises and no interference appears |
| HintRecoloring.HintRecolorer.TryHintsRecoloring | third-party/src/RegAllocGreedy.cpp:2208-2218 | over all broken hints the copy cost never rises, the same ranges stay assigned, and every recorded range still assigned is recolored from |
| LocalSplit.FindRegMaskGaps | third-party/src/RegAllocGreedy.cpp:1409-1438 | one pass finds exactly the gaps that contain or touch a register mask, not counting one on the last use |
| LocalSplit.ShrinkKeepsMax | third-party/src/RegAllocGreedy.cpp:1540-1551 | dropping a gap below the maximum leaves the maximum, so it is recomputed only when needed |
| LocalSplit.SweepRegister | third-party/src/RegAllocGreedy.cpp:1481-1562 | keeps the largest gap weight of the present window, and ends with the best of the windows looked at, which the gap weights determine |
| LocalSplit.MovesBounded | third-party/src/RegAllocGreedy.cpp:1491-1562 | the window moves fewer than twice the number of gaps |
| LocalSplit.BestIsOneOf | third-party/src/RegAllocGreedy.cpp:1527-1536 | the best kept is one that fits, and no later window gains more than it kept; if nothing replaced it, no window gained more |
| SplitChoice.LossBound | third-party/src/RegAllocGreedy.cpp:1527-1536 | no window that fits gains more than the chosen one by more than the hysteresis, applied once for each time the choice was replaced |
| SplitChoice.LargestExactly | third-party/src/RegAllocGreedy.cpp:1527-1536 | the window chosen has the largest gain of all that fit exactly when no window it replaced on the way gained more |
| SplitChoice.SearchedIsBestOffer | third-party/src/RegAllocGreedy.cpp:1456-1562 | the search over all registers is one pass over all the windows looked at |
| SplitChoice.SearchLoss | third-party/src/RegAllocGreedy.cpp:1456-1562 | the same bound on the loss for the search over all registers |
| SplitChoice.ChosenNotLargest | third-party/src/RegAllocGreedy.cpp:1529-1535 | the loss is real: a sweep that keeps the worse of two windows that fit |
| SplitSweep.FitsExactly | third-party/src/RegAllocGreedy.cpp:1510-1527 | a window fits exactly when it is legal and no gap it closes is hopeless or heavier than 2007/2048 of the estimated weight |
| SplitSweep.EveryEndMet | third-party/src/RegAllocGreedy.cpp:1491-1562 | the sweep meets every right end up to where it stands |
| SplitSweep.SweepEnds | third-party/src/RegAllocGreedy.cpp:1553-1557 | and it ends at the last gap |
| SplitSweep.SweepFinds | third-party/src/RegAllocGreedy.cpp:1491-1562 | wherever a window can be grown gap by gap without ceasing to fit, the sweep meets one at least as wide that ends at the same gap and fits |
| LocalSplit.TryLocalSplit | third-party/src/RegAllocGreedy.cpp:1380-1602 | over all registers: the window is in bounds, not the whole range, with fewer gaps when progress is required; it is justified by the windows looked at, none is returned only if no window gains, and it is marked exactly when it makes no progress |
| Segments.AdvanceTo | third-party/src/InterferenceCache.cpp:143-149 | moves to the first segment that ends after the position |
| BlockInterference.NaiveUnique | third-party/src/InterferenceCache.cpp:159-257 | the naive scan has one answer: first and last interference of a block are determined |
| BlockInterference.BothOrNeither | third-party/src/InterferenceCache.cpp:159-257 | first and last interference are both there or both absent |
| BlockInterference.FirstWithMasks | third-party/src/InterferenceCache.cpp:188-198 | the clobbering masks bring the segment minimum down to the naive first interference |
| BlockInterference.LastWithMasks | third-party/src/InterferenceCache.cpp:247-256 | the clobbering masks bring the segment maximum up to the naive last interference |
| CacheEntry.Entry.MoveTo | third-party/src/InterferenceCache.cpp:135-152 | from any earlier position every iterator ends at the first segment after the block start |
| CacheEntry.Entry.FirstInBlock | third-party/src/InterferenceCache.cpp:163-198 | the first interference of a block is the one of the naive scan; without one nothing lies ahead of the iterators |
| CacheEntry.Entry.LastInBlock | third-party/src/InterferenceCache.cpp:214-256 | the last interference is the one of the naive scan, and the iterators are left at the end of the block, also when they were backed up |
| CacheEntry.Entry.Update | third-party/src/InterferenceCache.cpp:131-257 | for any order of queries the stored block results are those of the naive scan; filled in are exactly the blocks from the one asked for up to the first that has interference, comes last or is followed by a known one, and none known before is computed again |
| CacheEntry.Entry.Get | third-party/include/llvm/CodeGen/InterferenceCache.h:127-132 | the result read is the one of the naive scan of the present sources, and a known one is read without touching anything |
| CacheEntry.Entry.CurrentResult | third-party/include/llvm/CodeGen/InterferenceCache.h:127-132 | while the entry is up to date that is the naive scan of the present contents of the register's units and of their fixed ranges |
| CacheEntry.Entry.IsCurrent | third-party/src/InterferenceCache.cpp:119-129 | answers whether every unit has the tag it was read with |
| CacheEntry.Entry.Revalidate | third-party/src/InterferenceCache.cpp:89-98 | afterwards the entry is up to date with every unit and no stored result counts |
| CacheEntry.Entry.Reset | third-party/src/InterferenceCache.cpp:100-116 | afterwards the entry represents the register, is up to date and holds no result |
| InterferenceCache.Cache.constructor | third-party/include/llvm/CodeGen/InterferenceCache.h:149-158 | a new cache satisfies the invariant, with no entry in use |
| InterferenceCache.Cache.AtMostOneEntry | third-party/src/InterferenceCache.cpp:63-87 | a register is represented by at most one entry |
| InterferenceCache.Cache.Init | third-party/src/InterferenceCache.cpp:50-61 | all entries are cleared for the new function |
| InterferenceCache.Cache.Get | third-party/src/InterferenceCache.cpp:63-87 | no referenced entry is recycled, the entry returned is up to date, it is the one that represents the register if there is one, with its results kept unless a unit changed, and there is none exactly when no entry represents the register and all are referenced |
| InterferenceCache.Cache.SetPhysReg | third-party/include/llvm/CodeGen/InterferenceCache.h:207-214 | as the reference held is given up first, as many cursors as there are entries never run out of them; the new entry is up to date and referenced |
| InterferenceCache.Cache.PickRoundRobin | third-party/src/InterferenceCache.cpp:70-86 | finds the unreferenced entry that comes first in turn, if there is one, and moves the turn on by one |
| Hopfield.MustSpillDecides | third-party/src/SpillPlacement.cpp:102-108 | a node that must spill decides against a register, whatever its neighbours are |
| Hopfield.DecideMonotone | third-party/src/SpillPlacement.cpp:152-179 | raising a neighbour never lowers a decision |
| Hopfield.SkippedNeighbourKeepsPreference | third-party/src/SpillPlacement.cpp:181-190 | after a flip, a neighbour that is skipped and whose own update would have changed no preference stays that way |
| HopfieldEnergy.EnergyChange | third-party/src/SpillPlacement.cpp:19-25 | how the energy moves with one value, for any price of a decision |
| HopfieldEnergy.DecideReadsInput | third-party/src/SpillPlacement.cpp:152-179 | absent saturation the decision is the sign of the net input outside the dead zone |
| HopfieldEnergy.PotentialFalls | third-party/src/SpillPlacement.cpp:152-179 | absent saturation the corrected potential falls with every change of a value |
| HopfieldEnergy.PlainEnergyRisesExactly | third-party/src/SpillPlacement.cpp:19-25 | the plain energy claimed never to increase rises exactly when the dead zone drops a decision that the net input still favours |
| PlacementLimits.PlainEnergyCanRise | third-party/src/SpillPlacement.cpp:19-25 | a query from prepare on, at a threshold its entry frequency gives, in which it does rise |
| HopfieldEnergy.PlainEnergyAtOne | third-party/src/SpillPlacement.cpp:250-258 | with the smallest threshold, that of a small entry frequency, the plain energy never rises |
| HopfieldEnergy.EnergyBound | third-party/src/SpillPlacement.cpp:19-25 | the potential is bounded on both sides by the room the weights leave |
| PlacementSpec.ActivateInv | third-party/src/SpillPlacement.cpp:223-243 | activating a bundle keeps the invariant of the query |
| PlacementSpec.ConstrainAllInv | third-party/src/SpillPlacement.cpp:260-279 | adding constraints keeps the invariant of the query |
| PlacementSpec.LinkAllInv | third-party/src/SpillPlacement.cpp:295-309 | adding links keeps them symmetric, self-free, one per neighbour, between active bundles, and the cached sums right |
| PlacementSpec.UpdateInv | third-party/src/SpillPlacement.cpp:325-330 | updating a bundle keeps the invariant and only adds to the work list |
| PlacementRuns.ApplyInv | third-party/src/SpillPlacement.cpp:260-375 | every query operation keeps the invariant |
| PlacementRuns.Run | third-party/src/SpillPlacement.cpp:223-375 | so does every sequence of them |
| PlacementRuns.IterateStops | third-party/src/SpillPlacement.cpp:334-351 | absent saturation iterate empties its work list within a bound given by potential and work list, even without its limit |
| PlacementRuns.IterateDescends | third-party/src/SpillPlacement.cpp:334-351 | the potential never rises over a run of iterate |
| PlacementRuns.DoomedForever | third-party/src/SpillPlacement.cpp:134-179 | once decided under a MustSpill constraint a bundle never prefers a register again, whatever operations follow, also under saturation |
| PlacementMustSpill.RunMarked | third-party/src/SpillPlacement.cpp:134-179 | from its MustSpill constraint on a bundle keeps its value and its place on the work list until it is updated, and prefers no register afterwards |
| PlacementMustSpill.MustSpillIgnoredExactly | third-party/include/llvm/CodeGen/SpillPlacement.h:144-150 | a bundle given a MustSpill constraint at any point of a query is in the result exactly when it preferred a register at that moment and was not updated since |
| PlacementMustSpill.HonouredWhenSettled | third-party/include/llvm/CodeGen/SpillPlacement.h:144-150 | a scan of the active bundles, or a work list emptied, at any later point honours every MustSpill constraint |
| PlacementLimits.MustSpillCanSurviveFinish | third-party/include/llvm/CodeGen/SpillPlacement.h:144-150 | a query from prepare on that reports a bundle under a MustSpill constraint as in a register |
| PlacementFixedPoints.LosesExactly | third-party/src/SpillPlacement.cpp:171-190 | absent saturation an update leaves a bundle behind, neither settled nor queued, exactly when it moves the updated one between spill and undecided and takes the bundle's net input across the threshold |
| PlacementFixedPoints.LostAtExactly | third-party/src/SpillPlacement.cpp:334-351 | the same for every turn of a run of iterate |
| PlacementFixedPoints.FixedPointExactly | third-party/src/SpillPlacement.cpp:334-351 | a run of iterate that empties its work list ends in a fixed point exactly when every bundle left behind is queued or settled again |
| PlacementFixedPoints.RunIsStable | third-party/src/SpillPlacement.cpp:223-375 | a whole query in which no update leaves a bundle behind is stable whenever its work list is empty |
| PlacementLimits.EmptyTodoIsNotAFixedPoint | third-party/src/SpillPlacement.cpp:171-190 | a query from prepare on that empties its work list in an unstable state |
| PlacementSpec.ScaledThreshold | third-party/src/SpillPlacement.cpp:250-258 | rounds the entry frequency over 2^13 to the nearest, and is never 0 |
| PlacementSums.ConstrainMade | third-party/src/SpillPlacement.cpp:133-150 | after adding constraints the positive bias of each active bundle is the saturated sum of the frequencies of its borders that prefer a register, the negative one its start bias and those that prefer a spill, or the maximum if one must spill |
| PlacementSums.PreferSpillMade | third-party/src/SpillPlacement.cpp:281-293 | the same for spill preferences, each counting for both bundles of the block, twice when strong |
| PlacementSums.LinkMade | third-party/src/SpillPlacement.cpp:118-131 | after adding links the weight between two bundles is the saturated sum of the frequencies of the blocks that join them, and there is a link exactly if there is such a block |
| PlacementSums.RunExactly | third-party/src/SpillPlacement.cpp:223-309 | over every sequence of operations from prepare on: active are exactly the bundles that a border or a joining block touches, with these biases and weights, whatever was updated in between |
| PlacementSums.ScanLists | third-party/src/SpillPlacement.cpp:311-323 | the bundles listed by a scan are those found afterwards to be active, to prefer a register and not to have to spill, in ascending order |
| SpillPlacement.SpillPlacement.Activate | third-party/src/SpillPlacement.cpp:223-243 | sets up exactly the activated bundle, with its bias against large bundles |
| SpillPlacement.SpillPlacement.AddConstraints | third-party/src/SpillPlacement.cpp:260-279 | the node array and the active set become those of the specified operation, which PlacementSums.ConstrainMade reads off the list of borders |
| SpillPlacement.SpillPlacement.AddPrefSpill | third-party/src/SpillPlacement.cpp:281-293 | the same for spill preferences, doubled when strong |
| SpillPlacement.SpillPlacement.AddLinks | third-party/src/SpillPlacement.cpp:295-309 | the same for links, in both directions |
| SpillPlacement.SpillPlacement.UpdateBundle | third-party/src/SpillPlacement.cpp:325-330 | reports exactly the changes of preference and queues the dissenting neighbours |
| SpillPlacement.SpillPlacement.ScanActiveBundles | third-party/src/SpillPlacement.cpp:311-323 | updates all active bundles and reports whether some prefer a register and need not spill |
| SpillPlacement.SpillPlacement.Iterate | third-party/src/SpillPlacement.cpp:334-351 | works the list off from its end, within ten turns a bundle |
| SpillPlacement.SpillPlacement.Finish | third-party/src/SpillPlacement.cpp:362-375 | returns exactly the active bundles that prefer a register, and whether that is all of them |
| Dominators.NearestCommonDominator | third-party/src/SplitKit.cpp:1057-1058 | climbing from the deeper of two blocks finds the one common dominator that every other one dominates |
| HoistCopies.FindShallowDominator | third-party/src/SplitKit.cpp:891-946 | the result lies between the definition and the block, and is the first least busy of the blocks looked at on the way out of the loops |
| HoistCopies.ShallowUnique | third-party/src/SplitKit.cpp:891-946 | definition and block determine the block found |
| HoistCopies.MergePair | third-party/src/SplitKit.cpp:1024-1066 | keeps that the pair covers every definition of the value seen so far, and what a definition adds to the cost |
| HoistCopies.NearestDoms | third-party/src/SplitKit.cpp:1016-1073 | after the first loop the pair of every value covers all its definitions, at the cost and in the block that the order of the definitions leads to |
| HoistCopies.CostExactly | third-party/src/SplitKit.cpp:1010-1065 | the cost weighed never exceeds that of all copies, and is all of it exactly when no copy of a positive frequency goes uncounted |
| HoistCopies.CostIsAllExactly | third-party/src/SplitKit.cpp:1010-1065 | with positive frequencies all copies are counted exactly when there is none, or when they all come after the value's own definition and in other blocks, and the value is neither rematerialized nor singly mapped |
| HoistCopies.CostCanFallShort | third-party/src/SplitKit.cpp:1010-1089 | two copies of which only one is counted, so that hoisting is refused in speed mode although it would cost no more than they do |
| HoistCopies.InsertHoisted | third-party/src/SplitKit.cpp:1075-1097 | every value not left alone has a definition before all its others; a value is left alone exactly when it needs a new definition and the least busy dominator costs too much in speed mode or has no place behind the parent definition; otherwise the new definition is at the last split point of that block, and there are no others |
| HoistCopies.CollectBackCopies | third-party/src/SplitKit.cpp:1099-1112 | collects exactly the other definitions of the hoisted values |
| HoistCopies.MarkDominated | third-party/src/SplitKit.cpp:969-987 | marks exactly the definitions with a strict dominator among them, in any order |
| HoistCopies.ComputeRedundantBackCopies | third-party/src/SplitKit.cpp:948-994 | adds exactly the definitions of the given values that another of the same value dominates |
| HoistCopies.HoistCopies | third-party/src/SplitKit.cpp:1001-1120 | every definition removed has one that stays or is new before it, the parent's own is never removed, and nothing that stays dominates another of its value unless the value was left alone outside speed mode; which values are left alone, which definitions are new and which are removed is said exactly, and in speed mode no new one is in a block more frequent than all copies of its value together |
| HoistCopies.NeverDearer | third-party/src/SplitKit.cpp:1085-1097 | in speed mode a hoisted copy is never dearer than the copies of its value |
| TransferValues.StretchAssigned | third-party/src/SplitKit.cpp:1130-1147 | the points up to the end found are all assigned to the interval found, 0 in holes |
| TransferValues.BlockActions | third-party/src/SplitKit.cpp:1176-1217 | a value with several definitions is cut at the block boundaries, with the action its start and the parent definition call for |
| TransferValues.TransferSegment | third-party/src/SplitKit.cpp:1127-1221 | one segment is tiled without gaps or overlaps by constantly assigned pieces |
| TransferValues.TransferValues | third-party/src/SplitKit.cpp:1124-1223 | every live point of the parent is in exactly one piece, with the value live there and the interval assigned there, and no other point is; skipped exactly if some value is recomputed |
| LiveBlocks.NotLiveIn | third-party/src/SplitKit.cpp:238-246 | a range that is not live into a block begins with the first use of the block, as asserted |
| LiveBlocks.NoUseLiveThrough | third-party/src/SplitKit.cpp:220-228 | a block without uses is live from end to end, as asserted |
| LiveBlocks.ScanBlock | third-party/src/SplitKit.cpp:230-285 | a block with uses gets one entry and one more for each gap; they cover exactly its live slots and never touch |
| LiveBlocks.CalcLiveBlockInfo | third-party/src/SplitKit.cpp:198-299 | through blocks are the met blocks without uses, use blocks get exact entries, and the three counts fit together |
| LiveBlocks.CountLiveBlocks | third-party/src/SplitKit.cpp:301-323 | counts the blocks the range meets, the number the analysis asserts at its end |
| LiveBlocks.ClassifiedOnce | third-party/src/SplitKit.cpp:198-299 | every block met is a through block or has entries, never both, and no other block is or has |
| KeywordTrie.GrowOK | src/Lexer.cpp:256-265 | a new node keeps the trie a tree and adds no word |
| KeywordTrie.LettersExactly | src/Lexer.cpp:656-662 | the walk looks under exactly the letters a word may have |
| KeywordTrie.Lexer.InitKeyword | src/Lexer.cpp:253-268 | inserts exactly the word, or refuses a word with other than lower case letters or with a token already, changing no word |
| KeywordTrie.WalkStep | src/Lexer.cpp:647-664 | the explicit stack and the visited nodes always split the trie: no node is left out and none comes twice |
| KeywordTrie.Lexer.Save | src/Lexer.cpp:639-671 | writes the text of exactly the keywords, each once, the empty one first; fails exactly when one has more than 255 letters |
| KeywordTrie.Lexer.Load | src/Lexer.cpp:672-685 | what reading word and number over and over gives, stopping at what cannot be read and passing on a refused word |
| KeywordTrie.TextRead | src/Lexer.cpp:678-681 | the text of distinct non-empty keywords reads back as these keywords |
| KeywordTrie.ShortReads | src/Lexer.cpp:678-681 | spaces, a sign or none and digits are read as the number they stand for, if a short holds it |
| KeywordTrie.ReadIsShort | src/Lexer.cpp:678-681 | and nothing else is read as a number |
| KeywordTrie.EmptyWordStops | src/Lexer.cpp:678-681 | a line for the empty word ends the loading |
| KeywordTrie.RoundTripExactly | src/Lexer.cpp:639-685 | loading what was saved gives the same keywords exactly when the empty word is not one of them |
| Decimal.DigitsInjective | src/Parser.cpp:1203-1216 | a decimal number can be told from a text behind it that does not start with a digit |
| Mangling.MangleExactly | src/Parser.cpp:1201-1216 | two functions have the same key exactly when identifier and type names agree |
| Mangling.TypeNameExactly | src/Common.cpp:94-124 | two types have the same name exactly when they are equal, both are of kinds without a name, or a struct is named like the other |
| Mangling.KeyExactly | src/Parser.cpp:1201-1216 | two functions have the same key exactly when the identifiers agree and each argument has a type that shares its name with the other |
| Mangling.SymbolExactly | src/Parser.cpp:1273-1290 | two functions have the same symbol exactly when the names of their scopes and their keys agree, although sizes and names are not separated |
| Scopes.BlockScopeManager.EnterScope | src/Parser.cpp:1181-1190 | enters the child of that name, the old one if there is one |
| Scopes.BlockScopeManager.EnterAnonymousScope | src/Parser.cpp:1191-1194 | always enters a new scope |
| Scopes.BlockScopeManager.LeaveScope | src/Parser.cpp:1195-1199 | goes back to the parent, and fails in the root |
| Scopes.BlockScopeManager.InsertFunction | src/Parser.cpp:1201-1229 | enters the scope named by the key and defines the arguments there; no lookup changes yet |
| Scopes.BlockScopeManager.MangleParams | src/Parser.cpp:1203-1216 | the key of the definition, and the name the parameters are left with |
| Scopes.BlockScopeManager.GetFunctionName | src/Parser.cpp:1273-1290 | the symbol made of the names of the scopes around, from the outside in |
| Scopes.BlockScopeManager.DeclareFunction | src/Parser.cpp:1231-1243 | creates a new function for the present scope under its symbol; it is found under its key in the scope around, the one it replaces is never found again, and no other key means anything else |
| Scopes.BlockScopeManager.DefineFunction | src/Parser.cpp:1245-1271 | at the end of a definition the scope has a function, the one declared or defined before if there is one, and it is found under its key in the scope of the definition |
| Scopes.BlockScopeManager.BeginBody | src/Parser.cpp:615-626 | with a declared return type the function is known from the opening brace on, without one exactly if the key was defined in that scope before |
| Scopes.BlockScopeManager.EndBody | src/Parser.cpp:628-653 | after the closing brace a call in the scope of the definition finds the function |
| Scopes.BlockScopeManager.ForwardDeclaration | src/Parser.cpp:704-711 | a declaration without a body creates a function for the scope it stands in and makes its own name mean nothing new; it fails in the root |
| Scopes.BlockScopeManager.GetCallee | src/Parser.cpp:1026-1054 | the same key as at the definition, resolved from the present scope outwards |
| Scopes.ResolveIsNearest | src/Parser.cpp:1040-1046 | the function found is the one of the nearest scope that holds one for the key, and none is found only if no scope around does |
| Scopes.DefinedIsFound | src/Parser.cpp:1357-1362 | a call in the scope of the definition finds the function |
| Scopes.OwnBodyCallExactly | src/Parser.cpp:1040-1046 | a call of a known function from anywhere in its body finds it exactly when no function of the same key in between hides it |
| Scopes.UnknownBodyCall | src/Parser.cpp:1040-1046 | while the function is unknown, such a call means what it means outside the scope of the definition |
| Scopes.RecursiveCallExactly | src/Parser.cpp:713-719 | at any point of a body a recursive call finds its own function exactly when there is a declared return type, an earlier definition of the key in that scope or a declaration directly in the body, and nothing hides it |
| Scopes.SymbolsDiffer | src/Parser.cpp:1273-1290 | in every valid tree two function scopes have different symbols |
| Scopes.FunctionSymbolsDiffer | src/Parser.cpp:1231-1243 | so the functions that two function scopes hold have different symbols |

## Left out

- Greedy.RAGreedy.SelectOrSplitImpl: splitting is modelled as finding nothing, and spilling as the range going away without new ranges, because the splitter and the spiller depend on classes that are not shown; the first-use cost of callee-saved registers is left out.
- Greedy.RAGreedy.AllocatePhysRegs: termination is proved for spillable ranges only, since urgent evictions ignore cascade numbers; the priority order of the queue is left open, so the result holds for every order.
- Greedy.RAGreedy.EvictInterference: live intervals are whole ranges with one overlap relation; subranges and the query cache are not modelled.
- Eviction.TryFindEvictionCandidate: hint costs are natural numbers without 32-bit wrap-around, weights are real numbers without rounding, and how many registers behind the hints the limit admits is a given function.
- HintRecoloring.HintRecolorer.TryHintRecoloring: block frequencies are natural numbers that do not saturate, and the assertion about ranges of skipped register classes is not modelled.
- LocalSplit.TryLocalSplit: gap weights and the estimated weight are arbitrary inputs; how calcGapWeights fills them is not specified, and the split itself is not carried out.
- CacheEntry.Entry.Update: live interval unions are sorted sequences of disjoint segments; the B+-tree behind them is not modelled.
- SpillPlacement.SpillPlacement.Activate: frequencies are fixed inputs; the analysis that computes them is not part of this model.
- PlacementRuns.IterateStops: proved absent saturation, as sums that saturate break the energy argument; the invariants hold with saturation.
- PlacementFixedPoints.LosesExactly: reads the decision off the net input, so it is proved absent saturation; `FixedPointExactly` and `RunIsStable` need no such condition.
- HoistCopies.HoistCopies: inserted copies are abstract definitions at the last split point, and the dominator tree is given by parents and levels.
- TransferValues.TransferValues: each piece carries the action taken; extending live ranges and computing live-in values is LiveIntervalCalc, which is not part of this model.
- LiveBlocks.CalcLiveBlockInfo: slots are integers, and a range is well formed when its starts and ends agree with its uses as the source asserts.
- KeywordTrie.Lexer.Load: a number too large for a short stops the reading, as a failed stream does; locales and wide characters are not modelled.
- Scopes.BlockScopeManager.DeclareFunction: the function type, with its extra first parameter for a nested function, is not modelled; nor is the suffix the module adds when a symbol is taken.
- Scopes.BlockScopeManager.InsertFunction: instructions, alignments and addresses of the arguments are not modelled, only their names.
- Region, block and instruction splitting, rematerialization, rewriting of instructions and the spiller.
- Pass registration, options, statistics, remarks and debug output.
- The parser's expression reduction and code emission, which are driven by the IR builder.
- Number literals, streams and identifier recognition in the lexer.
