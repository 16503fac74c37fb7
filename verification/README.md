# FlexTensor: verified models

FlexTensor streams model weights from host memory through a small ring of GPU blocks while the
model computes. This project models the parts of it that are integer, set, queue and stream
logic and proves what they promise.

The parts, and where they are:

- **Scheduling copies.** `Timeline.dfy`, `Rearrange.dfy`, `StrategyOperations.dfy`,
  `StrategyRemap.dfy`, `RearrangeTheorems.dfy` and `LongestLead.dfy` model the cyclic timeline of
  layers, the loop that moves each host-to-device copy to an earlier free slot, both checks that
  follow it, and the remapping of the tensor lists, and prove what is safe, kept and best.
- **The two-stream loaders.** `Streams.dfy` defines traces of two streams and happens-before;
  `PrefetchPolicy.dfy`, `LoaderProtocol.dfy` and `BlockLoaders.dfy` model the policy and both
  preallocated loaders, which share most of their code, as one class with a variant;
  `LoaderReads.dfy`, `LoaderWrites.dfy`, `WriteAfterRead.dfy`, `LoaderOverlap.dfy`,
  `LoaderJoins.dfy`, `LoaderWork.dfy` and `LoaderRecovery.dfy` prove read-after-write, the exact
  extent of write-after-read, which copies a layer waits for and which it leaves to overlap, what
  joins achieve, that all work is done once, and what a stopped forward leaves, for every run.
- **Planning a state transition.** `MigrationOrder.dfy`, `GreedyOrder.dfy` and
  `GreedyPreference.dfy` are the search and the greedy pass, `Placement.dfy` the validation,
  `StateTransition.dfy` and `TransitionPlan.dfy` the planner. `TransitionExecution.dfy` carries out
  the moves and `PlanExecution.dfy` the whole plan with the construction of the loader, step by
  step. `StateAdoption.dfy`, `ResidentBytes.dfy`, `ProfileRequirements.dfy` and
  `TargetFromProfile.dfy` derive the inputs of the planner from a saved profile;
  `ResidentTimeline.dfy` and `AdoptedMemory.dfy` say what those bytes are.
- **Planning memory blocks.** `BlockAssignment.dfy` says what a valid assignment of layers to
  blocks is; `BlockPlanner.dfy` is the backtracking planner over arrays.
- **The profile block.** `SlotLayout.dfy`, `ProfileLayout.dfy`, `LayoutMeaning.dfy`,
  `ProfileBlock.dfy` and `ProfileController.dfy` model the packed block with its shared prefix,
  byte by byte.
- **Smaller parts.** `WarmupLoader.dfy` (reference counts of the discovery loader),
  `PhaseMachine.dfy` (forwards until inference) and `TransferInterpolator.dfy` (predictions in
  log-log space, over the reals).

Where the source updates state, a class with the same fields or a method with the same loops is
proved against a function of the old state or against an independent definition; the theorems
are about those functions and definitions.

What the proofs show that the source does not say, or says differently:

- Rearranging is safe for a minimum gap of 1 or 2 and for no other gap: for any other gap there
  is an overlap-free schedule that it rejects. For every gap and schedule the exact condition is
  given. Transfer labels, blocks and sizes are conserved in every case.
- `check_transfer_constraint` can never report a violation.
- `remap_strategy` is lossless exactly when no two labels that hold lists have one target and a
  label that holds a list is reused only after its own list has moved. A swap breaks the second
  condition, a merge the first. What rearranging returns satisfies both for the lists of the
  transfers. A list under a label that is no transfer is replaced exactly when a transfer moves
  there; strategies keep only empty lists under such labels.
- A copy into a block is not always ordered after the last read of the block: occupancy is
  forgotten at the end of a forward, after the preload and at a join, so the first refill of a
  block in a forward or piece has no wait. Every later refill, and every refill against readers
  of earlier pieces, is ordered. The exact condition for every pair is proved, with a concrete
  schedule in which the pair is unordered. Reads are right in every run nevertheless, in the
  sense that the last copy issued into the block is the right one and happens before the read.
- The module documentation of `src/flextensor/piecewise_prefetch_policy.py` (lines 19-25) says
  that at the last layer strict mode does not raise for copies meant for the next forward,
  because their layers were already waited for in this one. From the second forward on that need
  not be so: a layer served only by such a copy has nothing to wait for, because the scheduled
  transfers are cleared at the end of each forward and at each join. The model follows the code,
  gives a schedule whose second forward raises without any join, and proves exactly when strict
  mode raises at the last layer and at a join, for forwards with any joins.
- A compute waits for more than its own data: for every copy of its piece issued up to the last
  one that was due. Exactly which copies those are is proved for every run of both loaders; all
  later copies overlap with the compute.
- Recovery after a stopped forward joins and forgets, but copies nothing in again. The next forward
  reads right exactly when the stop left the data for it in the blocks: the proofs give the
  condition in terms of the schedule and the layer at which the forward stopped.
- `target_from_profile` never produces inputs that planning rejects.

`dafny verify dfyconfig.toml` checks the whole project with Dafny 4.11.

## Model

| member | source | states |
|---|---|---|
| `RearrangeTheorems.GapNeverRaisesIff` | src/flextensor/strategy_operations.py:612-749 | A minimum gap never rejects any overlap-free schedule if and only if it is 1 or 2; the default is 1 |
| `RearrangeTheorems.RaisesExactlyWhenUnsafe` | src/flextensor/strategy_operations.py:676-747 | For every gap and every overlap-free schedule, rearranging raises exactly when some turn has a candidate slot that reaches back to its block's previous compute; a result is overlap-free |
| `RearrangeTheorems.SmallGapNeverRaises` | src/flextensor/strategy_operations.py:727-749 | With gap 1 or 2 the closing checks never fire on an overlap-free schedule |
| `RearrangeTheorems.OtherGapsRaise` | src/flextensor/strategy_operations.py:692-701 | A four-layer overlap-free schedule that every gap other than 1 and 2 rejects, because `lower > higher` is read as a cyclic window |
| `RearrangeTheorems.RunRelabels` | src/flextensor/strategy_operations.py:676-725 | For every gap and schedule the loop only relabels: each transfer keeps its compute label and block, no two end in one slot, and no transfer comes closer to its compute |
| `RearrangeTheorems.RunReusesAfterMove` | src/flextensor/strategy_operations.py:717-725 | Targets are used once, and a slot that held a transfer only after that transfer has had its turn |
| `RearrangeTheorems.RearrangedListsFollow` | src/flextensor/strategy_operations.py:791-829 | For any rearrangement and any table of lists, also one with labels that are no transfers: remapping puts each transfer's list under the transfer's new slot, and every other label keeps its list unless a transfer's list came there |
| `RearrangeTheorems.NoTensorLost` | src/flextensor/strategy_operations.py:791-829 | When labels without a transfer hold empty lists, as layers whose tensors all stay on the GPU do, no list with tensors is lost and none appears |
| `RearrangeTheorems.OtherListStaysIff` | src/flextensor/strategy_operations.py:791-829 | A list under a label that is no transfer, different from the transfers' lists, survives exactly when no transfer's list lands on it |
| `RearrangeTheorems.BlockSizesStayExact` | src/flextensor/state_handler.py:258-266 | After rearranging and remapping, the largest label size of each block is what it was, so the untouched block sizes stay exact |
| `RearrangeTheorems.OnePreloadPerBlock` | src/flextensor/strategy_operations.py:752-788 | On an overlap-free schedule at most one transfer of a block wraps around, so preloading never copies over itself |
| `Rearrange.RunOverlapFreeIff` | src/flextensor/strategy_operations.py:676-725 | From a schedule without overlaps, the schedule after the loop is overlap-free if and only if every turn was safe: one unsafe move is never repaired later |
| `Rearrange.SmallGapAlwaysSafe` | src/flextensor/strategy_operations.py:689-725 | With gap 1 or 2 every turn of the loop is safe, whatever the earlier turns did |
| `StrategyOperations.FindPreviousComputePosition` | src/flextensor/strategy_operations.py:432-457 | Sorting and stepping back finds the largest compute position of the block that is below the transfer, or -1; the sort raises exactly when some compute layer of the block has no position |
| `StrategyOperations.CheckTransferConstraint` | src/flextensor/strategy_operations.py:460-510 | On any map, whatever labels it names, this check never reports a violation, because the predecessor found is always strictly earlier; it raises exactly when a transfer with a position and a block shares that block with one whose compute layer is unknown |
| `StrategyOperations.CheckOverlapConstraint` | src/flextensor/strategy_operations.py:513-609 | The pairwise range check accepts exactly the overlap-free schedules |
| `StrategyOperations.PairsApartIsClashFree` | src/flextensor/strategy_operations.py:574-607 | The sets of positions of the pairs of a block are disjoint, and no transfer meets a compute, exactly when no two of its transfers hold the block at one time |
| `StrategyOperations.LargestGapSlot` | src/flextensor/strategy_operations.py:702-716 | The chosen slot is a candidate with the largest gap to the compute, and the first of those |
| `StrategyOperations.LocalSlots` | src/flextensor/strategy_operations.py:677-705 | The candidate slots of a transfer: its own and the free ones in its window |
| `StrategyOperations.MoveTransfers` | src/flextensor/strategy_operations.py:676-725 | The loop computes the run of moves and the remap in order |
| `StrategyOperations.RearrangeTransfers` | src/flextensor/strategy_operations.py:612-749 | The whole function: early return, moves, both checks, and what it returns |
| `LongestLead.EveryTurnTakesLongestLead` | src/flextensor/strategy_operations.py:676-725 | For any gap and schedule: at each turn only that transfer's copy moves, and of its own slot and the free positions open to it no position has a longer lead before its compute |
| `LongestLead.TurnTakesLongestLead` | src/flextensor/strategy_operations.py:689-716 | Open are the positions before the compute when the block was not read before it, and otherwise those `gap` or more after its last earlier read and before the compute, or round the cycle when that window is empty |
| `LongestLead.NothingBetterIsOverlapFree` | src/flextensor/strategy_operations.py:676-725 | With the default gap, on an overlap-free schedule: at each turn no free slot that keeps the schedule overlap-free gives a longer lead than the one taken, except a slot after the compute for a transfer whose block was not read before |
| `StrategyOperations.FindTransfersForPreload` | src/flextensor/strategy_operations.py:752-788 | Exactly the transfers whose compute comes before them |
| `StrategyRemap.RemapStrategy` | src/flextensor/strategy_operations.py:791-829 | The loop over the remap, one entry after another |
| `StrategyRemap.LosslessIff` | src/flextensor/strategy_operations.py:791-829 | For a table of different lists, remapping loses none if and only if no two labels with lists have one target and a label with a list is reused only after its own list has moved |
| `StrategyRemap.SwapLoses` | src/flextensor/strategy_operations.py:791-829 | Two labels that change places: the targets differ, and one list is lost |
| `StrategyRemap.MergeLoses` | src/flextensor/strategy_operations.py:791-829 | Two labels that move to one: no label is reused, and one list is lost |
| `StrategyRemap.CreateAllocationOrdered` | src/flextensor/strategy_operations.py:832-871 | Each label is in the group of its block once, and groups are sorted by position |
| `StrategyRemap.GroupLabels` | src/flextensor/strategy_operations.py:856-862 | Labels are grouped by block, each once |
| `Timeline.ArcsMeet` | src/flextensor/strategy_operations.py:583-607 | Two cyclic spans meet exactly when one begins inside the other |
| `Sorting.SortSorts` | src/flextensor/strategy_operations.py:432-457 | Python's stable sort orders by any strict order |
| `Streams.HappensBeforeAcross` | src/flextensor/loaders.py:1403-1560 | An operation happens before a later one of the other stream exactly when that stream first waits for an event recorded after it |
| `LoaderReads.EveryRunReadsItsData` | src/flextensor/loaders.py:1387-1521 | For every overlap-free schedule, both loaders, any prefetch policy, any number of complete forwards and joins after any layers: whenever a layer computes, the last copy into its block is its own transfer, and that copy happens before the compute |
| `LoaderReads.PreloadIsReady` | src/flextensor/loaders.py:1387-1397 | After the preload, with at most one wrapped transfer a block, every wrapped transfer's data is in its block |
| `LoaderReads.TrapKeeps` | src/flextensor/loaders.py:1403-1521 | One trap, with or without a join after it, keeps every live block filled, and its own compute reads right |
| `LoaderReads.JoinSettles` | src/flextensor/loaders.py:1524-1560 | A join makes all earlier copies happen before whatever computes next and leaves every block's data in place |
| `LoaderReads.ForwardsKeep` | src/flextensor/loaders.py:1623-1762 | Any number of complete forwards re-establishes what the preload established |
| `LoaderJoins.JoinsSettle` | src/flextensor/loaders.py:1499-1560 | After every join and every last-layer exit, also when a strict policy raises, all transfer work happens before the next compute operation and all event maps are empty |
| `LoaderJoins.StrictPolicyRaisesIff` | src/flextensor/piecewise_prefetch_policy.py:93-151 | For every overlap-free schedule, any earlier forwards and any joins in this one: at the last layer of the reordered loader a strict policy raises exactly when a wrapped transfer of the last piece is for a layer that had nothing to wait for in this forward: no copy earlier in that layer's piece and, unless it was in the first piece of the first forward, no preload |
| `LoaderJoins.StrictJoinRaisesIff` | src/flextensor/loaders.py:1524-1560 | At a join after a layer a strict policy raises exactly when some transfer was issued in the piece that ends and not waited for in it, and never after the last layer |
| `LoaderJoins.StrictPolicyWithoutJoins` | src/flextensor/piecewise_prefetch_policy.py:93-151 | In a forward without joins it never raises in the first one, and from the second on exactly when some wrapped transfer is the only copy for its layer |
| `LoaderJoins.SecondForwardRaises` | src/flextensor/piecewise_prefetch_policy.py:19-25 | A concrete schedule whose second forward, without any join, ends with a strict policy raising |
| `LoaderJoins.ForwardRemembers` | src/flextensor/piecewise_prefetch_policy.py:75-91 | Before every layer of every forward, with any joins: exactly which labels are scheduled, outstanding and waited for |
| `LoaderJoins.RollingNeverRaises` | src/flextensor/loaders.py:1476-1487 | The rolling loader leaves no prefetch outstanding after any trap, so its policy never raises |
| `LoaderOverlap.CopyBeforeComputeIff` | src/flextensor/loaders.py:1682-1691 | For both loaders, every overlap-free schedule, any policy, any earlier forwards and joins: a copy issued before the compute of layer c happens before it if it belongs to an earlier piece, and within a piece if and only if some layer of the piece no earlier than the copying one issued a copy that was due by then; a copy is due at the exit of its own layer in the rolling loader and at the entry of the layer it is for in the reordered one. All other copies of the piece are left to overlap with the compute |
| `LoaderWork.RunsDoTheirWork` | src/flextensor/loaders.py:1387-1560 | In every run the copies and computes are those of the preload and then, forward after forward, each layer's copy followed by its compute: none is left out, repeated or reordered |
| `LoaderRecovery.ForwardAfterStopIff` | src/flextensor/loaders.py:1407-1438 | A forward that stops anywhere, before, in or after the compute of any layer: every compute of the next forward reads its own data if and only if no block lost data that an earlier forward or the preload had copied in for the next one, that is no other transfer of the block was issued before that data's own layer would have copied it again |
| `LoaderRecovery.StoppedRunsRead` | src/flextensor/loaders.py:1407-1438 | In every run of forwards that complete or stop, as long as each stop meets that condition, every compute reads its own data |
| `LoaderRecovery.StopKeepsIff` | src/flextensor/loaders.py:1407-1438 | Where a forward stops, a wrapped transfer's data is still in its block exactly under that condition |
| `LoaderRecovery.StartRecovers` | src/flextensor/loaders.py:1411-1436 | The first-layer enter after a stop lets every copy issued before arrive, issues neither copies nor computes and forgets every event |
| `WriteAfterRead.WriteAfterReadIff` | src/flextensor/loaders.py:1443-1458 | A copy is ordered after an earlier compute if the compute belongs to an earlier piece, and within a piece if and only if some copy so far waited for the reader at that layer or a later one; for both loaders, any policy and any joins |
| `WriteAfterRead.RefillFollowsReaders` | src/flextensor/loaders.py:1704-1712 | In every run of either loader, a copy into a block happens after every earlier compute that reads the block, in the first piece or a later one, wherever the reader's own transfer was issued, unless compute and copy are in a piece that has not filled the block before |
| `WriteAfterRead.ReadersAreCovered` | src/flextensor/loaders.py:1704-1712 | Once a piece has filled a block, its next copy into it waits for a layer no earlier than any layer of the piece that reads the block |
| `WriteAfterRead.WrapAroundRefillUnordered` | src/flextensor/loaders.py:1516-1518 | A concrete overlap-free schedule in which a block filled by a wrapped transfer is read and then refilled in one forward with no order between the two |
| `WriteAfterRead.UncoveredIsUnordered` | src/flextensor/loaders.py:1443-1458 | An uncovered pair is ordered in neither direction |
| `PrefetchPolicy.PiecewisePrefetchPolicy.OnSchedule` | src/flextensor/piecewise_prefetch_policy.py:80-84 | The prefetch becomes outstanding |
| `PrefetchPolicy.PiecewisePrefetchPolicy.OnWait` | src/flextensor/piecewise_prefetch_policy.py:86-91 | The compute label is waited for and no longer outstanding |
| `PrefetchPolicy.PiecewisePrefetchPolicy.BrokenPrefetches` | src/flextensor/piecewise_prefetch_policy.py:106-112 | At the last layer, labels waited for in this pass do not count as broken; at other joins every outstanding one does |
| `PrefetchPolicy.PiecewisePrefetchPolicy.OnPieceJoin` | src/flextensor/piecewise_prefetch_policy.py:93-151 | The state is cleared before a strict policy raises, and when it raises or warns |
| `PrefetchPolicy.PiecewisePrefetchPolicy.Reset` | src/flextensor/piecewise_prefetch_policy.py:75-78 | A new pass starts with nothing outstanding and nothing waited for |
| `PrefetchPolicy.RememberedIff` | src/flextensor/piecewise_prefetch_policy.py:75-112 | Over any events: a prefetch is outstanding exactly when its schedule was not followed by a wait for its label, another schedule for it, a join or a new pass, and a label counts as waited for exactly when it was since the pass began |
| `PrefetchPolicy.WarnsOnceIff` | src/flextensor/piecewise_prefetch_policy.py:114-151 | Over any number of forwards and joins, a policy that only warns does so at a join exactly when that join breaks a prefetch that no earlier join broke |
| `BlockLoaders.PreallocatedLoader.constructor` | src/flextensor/loaders.py:1334-1380 | Construction preloads |
| `BlockLoaders.PreallocatedLoader.Preload` | src/flextensor/loaders.py:1623-1633 | Copies, join and tracking of the wrapped transfers |
| `BlockLoaders.PreallocatedLoader.BeginFirstLayer` | src/flextensor/loaders.py:1407-1438 | Recovery or clearing of the maps at the first layer |
| `BlockLoaders.PreallocatedLoader.ForkTransferStream` | src/flextensor/loaders.py:1440-1446 | The transfer stream is forked once until the next join |
| `BlockLoaders.PreallocatedLoader.WaitForTransfer` | src/flextensor/loaders.py:1682-1691 | The compute stream waits for the event scheduled under the label, if any |
| `BlockLoaders.PreallocatedLoader.ScheduleBlockTransfer` | src/flextensor/loaders.py:1700-1725 | Waits for the last reader recorded for the block, then copies and records |
| `BlockLoaders.PreallocatedLoader.EnterRolling` | src/flextensor/loaders.py:1403-1473 | The whole enter of the rolling loader |
| `BlockLoaders.PreallocatedLoader.EnterReordered` | src/flextensor/loaders.py:1639-1698 | The whole enter of the reordered loader |
| `BlockLoaders.PreallocatedLoader.ExitRolling` | src/flextensor/loaders.py:1476-1521 | The whole exit of the rolling loader, and when it raises |
| `BlockLoaders.PreallocatedLoader.ExitReordered` | src/flextensor/loaders.py:1727-1762 | The whole exit of the reordered loader, and when it raises |
| `BlockLoaders.PreallocatedLoader.JoinAfterForward` | src/flextensor/loaders.py:1524-1560 | The join at a piece boundary, and when it raises |
| `BlockLoaders.PreallocatedLoader.RunForward` | src/flextensor/loaders.py:1403-1560 | A complete forward with joins after chosen layers |
| `BlockLoaders.PreallocatedLoader.RunForwards` | src/flextensor/loaders.py:1403-1560 | Any number of complete forwards, each with its own joins |
| `BlockLoaders.Run` | src/flextensor/loaders.py:1334-1560 | A loader constructed on an overlap-free schedule and run for any number of forwards with any joins has issued operations in which every layer reads its own data |
| `MigrationOrder.MaskDeterminesHost` | src/flextensor/state_transition.py:315 | The set of remaining moves determines both byte deltas, whatever the order of the moves made |
| `MigrationOrder.ExhaustedMeansInfeasible` | src/flextensor/state_transition.py:308-344 | Pruning by visited sets loses nothing: when every visited set is expanded, no feasible order leaves room |
| `MigrationOrder.FindMigrationOrder` | src/flextensor/state_transition.py:308-344 | The search finds an order that fits and leaves room, or shows that none does, or at least `limit` sets of remaining moves are reachable by feasible orders; it terminates because a set is visited once |
| `MigrationOrder.ReachableCount` | src/flextensor/state_transition.py:316-329 | At most two to the number of moves sets of remaining moves are reachable |
| `MigrationOrder.SubsetsSize` | src/flextensor/state_transition.py:316-329 | There are two to the number of moves sets of remaining moves |
| `GreedyOrder.OrderMigrations` | src/flextensor/state_transition.py:355-413 | An order that fits after every move, greedy unless the greedy pass dead-ends; the capacity error means that no order fits, with the bytes reported |
| `GreedyOrder.MaxByKey` | src/flextensor/state_transition.py:401 | A largest candidate by bytes and then by names |
| `GreedyOrder.OrderingReachesFinalHost` | src/flextensor/state_transition.py:386-390 | The bytes after all the moves do not depend on their order |
| `GreedyOrder.SearchInstead` | src/flextensor/state_transition.py:376-391 | What the fallback to the search returns |
| `GreedyPreference.GreedyPrefers` | src/flextensor/state_transition.py:364-405 | At each turn of the greedy pass the move goes to the host exactly when one that does fits and either the promotions left need more than the GPU has room for or none of them fits; it is the largest of those of its direction that fit |
| `GreedyPreference.DeadEndFitsNothing` | src/flextensor/state_transition.py:376-391 | The search is used only after a greedy beginning that leaves moves of which none fits |
| `Placement.TensorsOkMeans` | src/flextensor/state_transition.py:193-209 | The loop over tensors accepts exactly inventories of well-formed tensors that share neither ids nor names |
| `Placement.ValidateTensors` | src/flextensor/state_transition.py:190-209 | Accepts exactly the well-formed tensor inventories and collects their storages |
| `Placement.ValidateStorages` | src/flextensor/state_transition.py:211-225 | Accepts exactly the well-formed storage inventories |
| `Placement.ValidateModelState` | src/flextensor/state_transition.py:184-234 | Accepts exactly the well-formed placements |
| `Placement.ValidateTransitionInputs` | src/flextensor/state_transition.py:237-298 | Accepts exactly the inputs a transition may be planned for |
| `StateTransition.TensorNamesByStorageId` | src/flextensor/state_transition.py:301-305 | The sorted names of each storage's tensors |
| `StateTransition.SortedNamesMean` | src/flextensor/state_transition.py:301-305 | Those are exactly the names of the tensors on the storage, in order |
| `StateTransition.RequiredMoves` | src/flextensor/state_transition.py:425-436 | The moves built are the required ones, each once |
| `StateTransition.OrderOf` | src/flextensor/state_transition.py:355-413 | Every list of the required moves, each once, is an ordering of the list the planner builds |
| `StateTransition.MigrationPeaks` | src/flextensor/state_transition.py:439-450 | The exact peaks over the moves |
| `StateTransition.ConstructionPeak` | src/flextensor/state_transition.py:458-463 | The exact host peak and the final host level of building the loader |
| `TransitionPlan.PlanStateTransition` | src/flextensor/state_transition.py:416-478 | Soundness and completeness of planning: invalid inputs are exactly those rejected; a plan makes the required moves, each once, fits after every move and while the loader is built, and reports the exact peaks; the capacity error means that no order whatever fits; the limit error means that at least 10000 sets of remaining moves are reachable within capacity |
| `TransitionPlan.NoOrderingMeansNoneFits` | src/flextensor/state_transition.py:376-391 | An exhausted search rules out every list of the moves |
| `TransitionPlan.NoRoomMeansNoneFits` | src/flextensor/state_transition.py:453-465 | When building the loader does not fit after one order, it fits after none |
| `TransitionPlan.FindPinningGroups` | src/flextensor/state_transition.py:467-472 | The names of the newly pinned storages, sorted |
| `TransitionPlan.PinningGroupsMean` | src/flextensor/state_transition.py:467-472 | One group for each storage that becomes pinned |
| `TransitionPlan.LimitNeedsManyMoves` | src/flextensor/state_transition.py:328-329 | So many reachable sets, and hence the limit error, need fourteen moves or more |
| `TransitionExecution.PlanIsSafe` | src/flextensor/state_transition.py:416-478 | Carrying out a plan reaches the target placement, never takes more than the granted memory on either side, and loses no bytes |
| `PlanExecution.PlanExecutes` | src/flextensor/state_transition.py:416-478 | Carrying out a plan step by step, the moves, each pinning copy beside its home, each retained allocation with the copy it is filled from, the GPU blocks and the releases: at no step is more held than granted, both reported peaks are exactly the most held, and in the end the storages are where the target has them, without the released homes |
| `PlanExecution.RefusalExecutes` | src/flextensor/state_transition.py:453-465 | After the capacity error, in whatever order the moves are made some step holds more than granted; the bytes reported are those held |
| `PlanExecution.FitsIffStaysWithin` | src/flextensor/state_transition.py:439-465 | An order passes the planner's counts if and only if carrying it out never holds more than granted |
| `TransitionExecution.LevelsAreBytes` | src/flextensor/state_transition.py:439-450 | The levels counted are the bytes really placed on each side above the start; their sum never changes |
| `TransitionExecution.MovesReachTarget` | src/flextensor/state_transition.py:425-436 | The moves in any order take the current placement to the target |
| `TransitionExecution.MoveFindsItsSource` | src/flextensor/state_transition.py:425-436 | Each move finds its storage where the move says it is |
| `StateAdoption.TargetStorages` | src/flextensor/state_adoption.py:124-156 | Fails exactly when one storage backs a managed tensor and one that must stay on the GPU; otherwise storages of managed tensors go to the host and all others to the GPU |
| `ProfileRequirements.PreloadedMeans` | src/flextensor/state_adoption.py:69-77 | A tensor counts as preloaded exactly when some layer uses it before any layer up to that one has scheduled its load |
| `ProfileRequirements.ResidentAtStart` | src/flextensor/state_adoption.py:69-79 | What is resident before the first layer |
| `ProfileRequirements.PackedIsAligned` | src/flextensor/state_adoption.py:94-102 | Packing a label loses no bytes and ends aligned |
| `ProfileRequirements.LogicalBytesMeans` | src/flextensor/state_adoption.py:29-45 | The size on record under a name is that of the one tensor of that name |
| `ResidentTimeline.StartMeans` | src/flextensor/state_adoption.py:69-79 | Before the first layer the GPU has the managed tensors that some layer uses before they are loaded and those that no layer uses |
| `ResidentTimeline.ResidentMeans` | src/flextensor/state_adoption.py:79-91 | After any layers a tensor is resident exactly when it was there at the start or loaded by one of them, and not released since |
| `ResidentTimeline.PeakIsMostOnGpu` | src/flextensor/state_adoption.py:79-91 | The peak is the most bytes of tensors on the GPU at the start or while any layer runs, and is reached |
| `AdoptedMemory.PackedIsSum` | src/flextensor/state_adoption.py:94-102 | A packed label is at least the sum of its different tensors, aligned, and has less than one alignment unit of padding for each |
| `AdoptedMemory.SavedTotals` | src/flextensor/state_adoption.py:104-120 | The saved block sizes add up to one block for each group, as large as its largest label |
| `AdoptedMemory.AllocatedInOrder` | src/flextensor/state_adoption.py:222-232 | Allocations are listed group after group, in the order of the labels |
| `AdoptedMemory.LoadLabelsInOrder` | src/flextensor/state_adoption.py:222-232 | Without a saved allocation they are listed as the profile loads them |
| `ResidentBytes.PeakResidentBytes` | src/flextensor/state_adoption.py:79-91 | The running total is always the bytes of the resident set, and the result is the most that is resident at any layer |
| `TargetFromProfile.AdoptProfile` | src/flextensor/state_adoption.py:159-248 | A profile whose ids and names agree with one another is adopted exactly when it is accepted, and then planning accepts target and transition whatever memory there is. Storages are pinned, copied when pinned and released as the loader and the pinning mode ask. A block loader takes one allocation for each label with tensors, none exactly when it follows another process in shared memory, each as large as the label packed or as saved, with a copy beside it exactly when blocks are copied, and on the GPU one block for each group, as large as its largest label |
| `TargetFromProfile.StrategyBytes` | src/flextensor/state_adoption.py:63-91 | The GPU bytes of the strategy loader are the peak of the resident bytes |
| `TargetFromProfile.TargetIsOk` | src/flextensor/state_transition.py:249-271 | The target is a well-formed placement that the current one may move to |
| `TargetFromProfile.TransitionTo` | src/flextensor/state_adoption.py:195-248 | The same of the transition for a target that is placed |
| `TargetFromProfile.BlockTransition` | src/flextensor/state_adoption.py:94-120 | The host allocations and the GPU bytes of a block loader, by the sizes of its labels |
| `TargetFromProfile.LabelBytesAreSizes` | src/flextensor/state_adoption.py:94-120 | The bytes counted for a label are its packed or saved size |
| `BlockAssignment.FeasibleIffEachFits` | src/flextensor/memory_block_planner.py:224-252 | With a block a layer, an assignment exists if and only if no layer is larger than a block; a layer may fill its block |
| `BlockAssignment.LoadsAddUp` | src/flextensor/memory_block_planner.py:174-187 | What the blocks hold adds up to the layers, and a block without layers holds nothing |
| `BlockAssignment.MoreBlocks` | src/flextensor/memory_block_planner.py:236-248 | Feasibility only grows with the number of blocks |
| `BlockAssignment.PrefixAllocates` | src/flextensor/memory_block_planner.py:174-187 | A prefix of a valid assignment is valid, so that no pruned branch holds one |
| `BlockAssignment.ColoursNeeded` | src/flextensor/memory_block_planner.py:44-76 | A chain of n layers can be coloured with k colours if and only if k is at least min(n, 2) |
| `BlockAssignment.TurnsAreEven` | src/flextensor/memory_block_planner.py:93-122 | Blocks filled by turns differ by at most one layer |
| `BlockAssignment.TurnsAllocate` | src/flextensor/memory_block_planner.py:93-122 | Taking turns over two blocks or more never puts neighbours together |
| `BlockPlanner.BuildAdjacencyGraph` | src/flextensor/memory_block_planner.py:24-42 | Layers are adjacent exactly when they follow each other |
| `BlockPlanner.MemoryBlockPlanner.constructor` | src/flextensor/memory_block_planner.py:13-22 | The planner holds the chain of its layers |
| `BlockPlanner.MemoryBlockPlanner.CanPlaceInBlock` | src/flextensor/memory_block_planner.py:191-222 | The test accepts exactly the blocks that have room and do not hold the layer before |
| `BlockPlanner.MemoryBlockPlanner.AllocateRecursive` | src/flextensor/memory_block_planner.py:149-187 | Backtracking is sound and complete, and leaves blocks and sizes as they were when it fails |
| `BlockPlanner.MemoryBlockPlanner.TryBlock` | src/flextensor/memory_block_planner.py:174-185 | Placing, trying the rest, and undoing |
| `BlockPlanner.MemoryBlockPlanner.AllocateBlocks` | src/flextensor/memory_block_planner.py:124-147 | Fails exactly when there is no block or no valid assignment; otherwise the blocks hold one |
| `BlockPlanner.MemoryBlockPlanner.FindMinimumBlocks` | src/flextensor/memory_block_planner.py:224-252 | The least number of blocks that admits a valid assignment, with such an assignment; fails if and only if some layer is larger than a block |
| `BlockPlanner.MemoryBlockPlanner.FindMinimumBlocksSequential` | src/flextensor/memory_block_planner.py:44-76 | Greedy colouring finds the chromatic number of the chain, min(n, 2) |
| `BlockPlanner.MemoryBlockPlanner.OptimizeBlockDistribution` | src/flextensor/memory_block_planner.py:78-122 | Fails exactly with fewer blocks than that; otherwise layer i goes to block i mod k and the refusal inside the loop is never reached |
| `SlotLayout.SlotAccepted` | src/flextensor/profile_block_controller.py:40-55 | Rounding up takes the first byte that is a multiple of item size or alignment, whichever is larger, so the metadata checks hold and the typed view starts at the copied bytes |
| `SlotLayout.PackedSlotsFit` | src/flextensor/profile_block_controller.py:216-241 | Packed slots are aligned, apart and inside their region |
| `SlotLayout.PackedReads` | src/flextensor/profile_block_controller.py:329-330 | After packing, each view shows its tensor's bytes, and bytes before the region stay |
| `LayoutMeaning.SharedIff` | src/flextensor/profile_block_controller.py:177-214 | A tensor is in the shared prefix exactly when two layers list it |
| `LayoutMeaning.LabelTensorsMean` | src/flextensor/profile_block_controller.py:177-202 | A label's tensors are those of the last layer of that name |
| `LayoutMeaning.MetInOrder` | src/flextensor/profile_block_controller.py:177-202 | Shared tensors come in the order in which the layers first list them |
| `LayoutMeaning.LayoutIsTight` | src/flextensor/profile_block_controller.py:132-139 | Each slot begins at the first aligned byte after the one before, and the prefix and the block end where a slot ends |
| `ProfileLayout.TwoLabelsShare` | src/flextensor/profile_block_controller.py:177-202 | A tensor of two labels is counted as shared, even when labels repeat |
| `ProfileLayout.MetOnce` | src/flextensor/profile_block_controller.py:177-202 | The ids met are all different |
| `ProfileLayout.LayoutIsOk` | src/flextensor/profile_block_controller.py:216-241 | Every tensor of a label is in the prefix or else in the region of that label and no other; slots fit |
| `ProfileLayout.CollectLabelTensors` | src/flextensor/profile_block_controller.py:177-202 | The tensors of each label, the order they are first met in, and how many labels list each |
| `ProfileLayout.ComputeLayout` | src/flextensor/profile_block_controller.py:132-139 | The layout with the smallest block that has room for every label |
| `ProfileBlock.EnteredLabelReadsBack` | src/flextensor/profile_block_controller.py:316-340 | After any sequence of enters, shared tensors read back their bytes, and so does every tensor of the label just entered |
| `ProfileBlock.EnterReads` | src/flextensor/profile_block_controller.py:316-340 | Entering leaves the prefix readable and makes the label's tensors readable, from any earlier contents |
| `ProfileController.ProfileBlockController.constructor` | src/flextensor/profile_block_controller.py:110-157 | The shared prefix is loaded and every view is of a slot of its tensor |
| `ProfileController.ProfileBlockController.Enter` | src/flextensor/profile_block_controller.py:316-340 | Both blocks after entering, and that the label's tensors read back |
| `ProfileController.BuildViewMap` | src/flextensor/profile_block_controller.py:253-260 | Every tensor with a slot gets a view of one of its slots |
| `ProfileController.LoadSharedPrefix` | src/flextensor/profile_block_controller.py:262-271 | Shared tensors read back after loading |
| `WarmupLoader.WarmupDirectTensorLoader.RunTraps` | src/flextensor/loaders.py:373-403 | For every run of enter, exit and get in which only active traps leave: each count is the number of active owners and borrowers, and when all have left every tensor has its own data back; a trap's accesses are exactly the tensors read while it was innermost and until it left; it fails only on overlapping tensors |
| `WarmupLoader.WarmupDirectTensorLoader.Enter` | src/flextensor/loaders.py:373-379 | Keeps the counts right; fails exactly when it would bind overlapping tensors that are not yet counted |
| `WarmupLoader.WarmupDirectTensorLoader.Exit` | src/flextensor/loaders.py:381-393 | Keeps the counts right whenever the trap is active, on top or not |
| `WarmupLoader.WarmupDirectTensorLoader.Get` | src/flextensor/loaders.py:395-403 | Inside a trap a managed tensor is always found materialised, and the read is on record for the innermost trap |
| `WarmupLoader.WarmupDirectTensorLoader.ReleaseMemory` | src/flextensor/loaders.py:405-415 | Puts every tensor back, also after a trap failed half-way |
| `WarmupLoader.ExitBalances` | src/flextensor/loaders.py:381-393 | Releasing what a trap owns and borrowed once each keeps every count |
| `PhaseMachine.InferenceReachedIff` | src/flextensor/offload_manager.py:1520-1560 | Inference is reached exactly when discovery has had its forwards, suspended or not, and enough of the later ones ran unsuspended; budgets of zero act as one |
| `PhaseMachine.AnnouncedForwardsSuffice` | src/flextensor/offload_manager.py:1567-1603 | Without suspensions inference is reached exactly after the announced number of forwards |
| `PhaseMachine.NeverEarlier` | src/flextensor/offload_manager.py:1567-1603 | Suspensions never bring inference closer |
| `PhaseMachine.OffloadManager.UpdateState` | src/flextensor/offload_manager.py:1538-1560 | One forward of the phase machine |
| `PhaseMachine.OffloadManager.StartWarmup` | src/flextensor/offload_manager.py:1384-1407 | Skipping discovery is honoured only when patched modules are reachable |
| `PhaseMachine.OffloadManager.ItersBeforeInference` | src/flextensor/offload_manager.py:1595-1603 | Counted from the warmup that left the flag: no run of fewer forwards ends in inference, and one without suspensions does exactly when it has at least that many |
| `PhaseMachine.OffloadManager.WarmUp` | src/flextensor/offload_manager.py:703-720 | The documented loop of the announced number of forwards ends in inference |
| `PhaseMachine.OffloadManager.Drive` | src/flextensor/offload_manager.py:1538-1560 | Any forwards after the warmup lead where the phase machine says |
| `TransferInterpolator.PredictionsInvert` | src/flextensor/memory_transfer_interpolator.py:56-141 | The two predictions are mutually inverse on all positive arguments, inside and beyond the measured range |
| `TransferInterpolator.PredictionsRise` | src/flextensor/memory_transfer_interpolator.py:56-141 | Both predictions are strictly increasing |
| `TransferInterpolator.MeasuredSizesAreMet` | src/flextensor/memory_transfer_interpolator.py:80-141 | At a measured size the prediction is the measured duration |
| `TransferInterpolator.MeasuredDurationsAreMet` | src/flextensor/memory_transfer_interpolator.py:80-141 | At a measured duration the prediction is the measured size |
| `TransferInterpolator.DurationsFollowLines` | src/flextensor/memory_transfer_interpolator.py:80-141 | Between two measured sizes, and beyond the outermost, the logarithm of the predicted duration lies on the line through the neighbouring measured points |
| `TransferInterpolator.SizesFollowLines` | src/flextensor/memory_transfer_interpolator.py:80-141 | The same of predicted sizes between durations |
| `TransferInterpolator.OneMeasurement` | src/flextensor/memory_transfer_interpolator.py:56-141 | A single measurement predicts its own duration and size for every positive argument |
| `TransferInterpolator.PositiveArgumentsOnly` | src/flextensor/memory_transfer_interpolator.py:56-141 | Exactly the arguments that are not positive are refused |
| `TransferInterpolator.PredictInverts` | src/flextensor/memory_transfer_interpolator.py:80-91 | Piecewise lines with swapped axes undo each other across interpolation and both extrapolations |

## Left out

- CUDA itself: streams are sequences of operations, events are record and wait edges, a copy or a compute is one operation; the fork of a stream, capture sessions and graph replay are not modelled beyond that.
- `last_iteration_event` and offload-timing collection, which nothing reads back into the protocol.
- A forward that stops in the middle of `enter` or `exit`, between two operations of one of them: stops are before a layer, before its compute and before its exit. The orders of `WriteAfterReadIff` and `CopyBeforeComputeIff` are stated for runs of complete forwards before the current one.
- LoaderRecovery.StoppedRunsRead: asks that each stop leaves the blocks' data for the next forward, because without that a read goes wrong.
- Nested traps in the preallocated loaders: layers are entered and exited in order.
- Maps that name unknown layers where rearranging then fails with an unrelated exception (the transfer check alone is modelled with it); transfers without a block or known labels are modelled where the source skips them.
- The order of dict entries, except where a result depends on it (the transfers that are rearranged, the remap, the load labels, the allocation groups).
- LoaderReads.EveryRunReadsItsData: assumes that the preload order lists exactly the wrapped transfers, which is what `find_transfers_for_preload` returns, and that the schedule is overlap-free, which the strategy package is to provide.
- WriteAfterRead.RefillFollowsReaders: leaves out the first refill of a block in a piece, which need not be ordered.
- WriteAfterRead.WriteAfterReadIff: says for each pair whether it is ordered; it does not claim that every pair is, because that is false.
- Error messages, and type checks of values that are typed here (booleans for integers and the like); all rejections of one validator are one answer.
- StateTransition.TensorNamesByStorageId: names are compared character by character, as Python compares code points.
- TargetFromProfile.AdoptProfile: of the checks of `validate_internal` it models those on labels, sizes and blocks of a block loader and on releases of the strategy loader; that ids, names, `gpu_tensors_names`, `label_to_block_id` and `transfer_to_compute_map` of a profile agree with one another is taken for granted, and loader kind and pinning mode are typed. Sizes and allocations are stated for profiles whose dicts, kept here as lists of items, have each key once, as dicts do.
- BlockPlanner.MemoryBlockPlanner.FindMinimumBlocks: layer sizes are non-negative, as byte counts are; with negative sizes the pruning of the search would not be complete.
- `find_minimum_block_sizes`, which takes a maximum per block.
- ProfileController.ProfileBlockController.constructor: asks that item sizes divide the alignment or exceed it, which holds for every element type; the check against a GPU budget, pinning, attribute snapshots and teardown are not part of the model, and a tensor is its bytes, without shape and stride.
- WarmupLoader.WarmupDirectTensorLoader.Enter: storage overlap is given as a set of ids; layout, type and shape always agree with the copy, and compilation is off, so that binding is never skipped.
- PhaseMachine.OffloadManager.UpdateState: the eager path without compiled-profile warmup, replanning or a restored state; a transition that raises is not modelled.
- TransferInterpolator.PredictionsInvert: arithmetic over the reals with any logarithm and exponential that are increasing and mutually inverse (`LogAndExpExist` gives a pair); measurements come sorted by size, as the constructor sorts them, and `DurationToBytes` asks for increasing durations, without which the lookup has no defined answer. The bandwidth estimate is left out.
- The layer filters (`get_layers_by_*`, `remove_layers_compound`), serialisation, configuration, module patching, the strategy, compile and shared-memory packages: lookups and plumbing, or code of other packages.
