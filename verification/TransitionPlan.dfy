/** The transition planner as a whole. */
module TransitionPlan {
  import opened Timeline
  import opened Sorting
  import opened MigrationOrder
  import opened GreedyOrder
  import opened Placement
  import opened StateTransition

  datatype PlanResult =
    | Planned(migrations: seq<Migration>, pinningGroups: seq<seq<string>>, peakHost: int, peakGpu: int)
    | NotEnoughMemory(requiredHost: int, requiredGpu: int)
    | SearchTooLong
    | InvalidInputs

  // ---------------------------------------------------------------------------
  // From orderings of the built list to lists of moves
  // ---------------------------------------------------------------------------

  lemma FeasibleLevels(ms: seq<Migration>, order: seq<nat>, capacity: Capacity)
    requires InRange(ms, order) && Feasible(ms, order, capacity.hostBytes, capacity.gpuBytes)
    ensures var levels := MoveLevels(Pick(ms, order));
            AllAtMost(levels, capacity.hostBytes) && AllAtMost(Negated(levels), capacity.gpuBytes)
  {
    var levels := MoveLevels(Pick(ms, order));
    forall v | v in levels ensures v <= capacity.hostBytes && -v <= capacity.gpuBytes {
      PickLevels(ms, order, v);
      var k :| 0 <= k <= |order| && v == Host(ms, order[..k]);
      assert Within(Host(ms, order[..k]), capacity.hostBytes, capacity.gpuBytes);
    }
  }

  lemma LevelsFeasible(ms: seq<Migration>, order: seq<nat>, capacity: Capacity)
    requires InRange(ms, order) && capacity.hostBytes >= 0 && capacity.gpuBytes >= 0
    requires AllAtMost(MoveLevels(Pick(ms, order)), capacity.hostBytes)
    requires AllAtMost(Negated(MoveLevels(Pick(ms, order))), capacity.gpuBytes)
    ensures Feasible(ms, order, capacity.hostBytes, capacity.gpuBytes)
  {
    var levels := MoveLevels(Pick(ms, order));
    forall k | 0 <= k <= |order| ensures Within(Host(ms, order[..k]), capacity.hostBytes, capacity.gpuBytes) {
      if k > 0 {
        LevelsCover(ms, order, k);
        var i :| 0 <= i < |levels| && levels[i] == Host(ms, order[..k]);
        assert Negated(levels)[i] in Negated(levels);
      }
    }
  }

  /** The bytes after all the moves are the same whatever their order. */
  lemma SameFinalHost(current: ModelState, target: ModelState, ms: seq<Migration>, moves: seq<Migration>)
    requires MovesEverything(current, target, ms) && MovesEverything(current, target, moves)
    ensures FinalHost(moves) == FinalHost(ms) && |moves| == |ms|
  {
    var order := OrderOf(current, target, ms, moves);
    PickHost(ms, order);
    OrderingReachesFinalHost(ms, order);
  }

  ghost predicate NoneFits(current: ModelState, target: ModelState, transition: TransitionSpec, capacity: Capacity) {
    forall moves :: MovesEverything(current, target, moves) ==> !Fits(moves, target, transition, capacity)
  }

  lemma NoOrderingMeansNoneFits(current: ModelState, target: ModelState, transition: TransitionSpec,
                                capacity: Capacity, ms: seq<Migration>)
    requires MovesEverything(current, target, ms) && BytesOk(transition, capacity)
    requires NoOrderingFits(ms, capacity.hostBytes, capacity.gpuBytes, transition.extraGpuBytes)
    ensures NoneFits(current, target, transition, capacity)
  {
    forall moves | MovesEverything(current, target, moves) && Fits(moves, target, transition, capacity) ensures false {
      var order := OrderOf(current, target, ms, moves);
      LevelsFeasible(ms, order, capacity);
      PickHost(ms, order);
      assert false;
    }
  }

  lemma NoRoomMeansNoneFits(current: ModelState, target: ModelState, transition: TransitionSpec, capacity: Capacity,
                            ms: seq<Migration>)
    requires MovesEverything(current, target, ms)
    requires -FinalHost(ms) + transition.extraGpuBytes > capacity.gpuBytes ||
             !ConstructionFits(FinalHost(ms), target, transition, capacity)
    ensures NoneFits(current, target, transition, capacity)
  {
    forall moves | MovesEverything(current, target, moves) ensures !Fits(moves, target, transition, capacity) {
      SameFinalHost(current, target, ms, moves);
    }
  }

  // ---------------------------------------------------------------------------
  // Storages to pin
  // ---------------------------------------------------------------------------

  ghost predicate BecomesPinned(target: ModelState, s: StorageState) {
    exists s' :: s' in target.storages && s'.id == s.id && NewlyPinned(s, s')
  }

  ghost function PinningGroups(tensors: seq<TensorState>, storages: seq<StorageState>,
                               target: ModelState): seq<seq<string>> {
    if storages == [] then []
    else
      var s := storages[|storages| - 1];
      PinningGroups(tensors, storages[..|storages| - 1], target) +
      if BecomesPinned(target, s) then [SortedNames(tensors, s.id)] else []
  }

  /** The storages that become pinned, each once. */
  ghost predicate ListsPinned(ids: seq<string>, storages: seq<StorageState>, target: ModelState) {
    Distinct(ids) && forall id :: id in ids <==> exists s :: s in storages && s.id == id && BecomesPinned(target, s)
  }

  ghost predicate AreNamesOf(groups: seq<seq<string>>, ids: seq<string>, tensors: seq<TensorState>) {
    |groups| == |ids| && forall i :: 0 <= i < |ids| ==> groups[i] == SortedNames(tensors, ids[i])
  }

  /** One group for each newly pinned storage, made of its tensors' names. */
  lemma {:induction false} PinningGroupsMean(tensors: seq<TensorState>, storages: seq<StorageState>, target: ModelState)
    returns (ids: seq<string>)
    requires StoragesOk(storages)
    ensures ListsPinned(ids, storages, target) && AreNamesOf(PinningGroups(tensors, storages, target), ids, tensors)
  {
    hide BecomesPinned, SortedNames, ListsPinned;
    ids := [];
    if storages == [] {
      NonePinned(target);
    } else {
      var before, s := storages[..|storages| - 1], storages[|storages| - 1];
      StoragesApart(storages);
      ids := PinningGroupsMean(tensors, before, target);
      assert storages == before + [s];
      NextPinned(ids, before, s, target);
      if BecomesPinned(target, s) { ids := ids + [s.id]; }
    }
  }

  lemma NonePinned(target: ModelState)
    ensures ListsPinned([], [], target)
  {
  }

  lemma NextPinned(ids: seq<string>, before: seq<StorageState>, s: StorageState, target: ModelState)
    requires ListsPinned(ids, before, target) && forall s' :: s' in before ==> s'.id != s.id
    ensures ListsPinned(if BecomesPinned(target, s) then ids + [s.id] else ids, before + [s], target)
  {
    var ids' := if BecomesPinned(target, s) then ids + [s.id] else ids;
    hide BecomesPinned;
    assert s.id !in ids;
    forall id ensures id in ids' <==> exists s' :: s' in before + [s] && s'.id == id && BecomesPinned(target, s') {
      assert id in ids' <==> id in ids || (id == s.id && BecomesPinned(target, s));
      if id in ids {
        var s' :| s' in before && s'.id == id && BecomesPinned(target, s');
        assert s' in before + [s];
      }
      assert s in before + [s];
    }
  }

  lemma StoragesApart(storages: seq<StorageState>)
    requires StoragesOk(storages) && storages != []
    ensures StoragesOk(storages[..|storages| - 1])
    ensures forall s :: s in storages[..|storages| - 1] ==> s.id != storages[|storages| - 1].id
  {
    var last := |storages| - 1;
    forall s | s in storages[..last] ensures s.id != storages[last].id {
      var i :| 0 <= i < last && storages[..last][i] == s;
      assert storages[i] == s;
    }
  }

  lemma BecomesPinnedByDict(target: ModelState, targetById: map<string, StorageState>, s: StorageState)
    requires IndexesStorages(targetById, target.storages) && s.id in targetById
    ensures BecomesPinned(target, s) <==> NewlyPinned(s, targetById[s.id])
  {
    assert targetById[s.id] in target.storages;
  }

  method FindPinningGroups(current: ModelState, target: ModelState, targetById: map<string, StorageState>,
                           names: map<string, seq<string>>)
    returns (groups: seq<seq<string>>)
    requires StorageIds(current.storages) == StorageIds(target.storages)
    requires IndexesStorages(targetById, target.storages) && IsNamesOf(names, current)
    ensures multiset(groups) == multiset(PinningGroups(current.tensors, current.storages, target))
    ensures Sorted(groups, NamesLess)
  {
    groups := NewlyPinnedNames(current, target, targetById, names);
    NamesStrictlyOrdered();
    SortSorts(groups, NamesLess);
    groups := Sort(groups, NamesLess);
  }

  method NewlyPinnedNames(current: ModelState, target: ModelState, targetById: map<string, StorageState>,
                          names: map<string, seq<string>>)
    returns (groups: seq<seq<string>>)
    requires StorageIds(current.storages) == StorageIds(target.storages)
    requires IndexesStorages(targetById, target.storages) && IsNamesOf(names, current)
    ensures groups == PinningGroups(current.tensors, current.storages, target)
  {
    hide SortedNames, BecomesPinned;
    groups := [];
    IndexKeys(targetById, target.storages);
    for i := 0 to |current.storages|
      invariant groups == PinningGroups(current.tensors, current.storages[..i], target)
    {
      var s := current.storages[i];
      assert current.storages[..i + 1][..i] == current.storages[..i];
      BecomesPinnedByDict(target, targetById, s);
      if NewlyPinned(s, targetById[s.id]) { groups := groups + [names[s.id]]; }
    }
    assert current.storages[..|current.storages|] == current.storages;
  }

  lemma NamesStrictlyOrdered()
    ensures StrictOrder(NamesLess)
  {
    forall a: seq<string>, b: seq<string> | NamesLess(a, b) ensures !NamesLess(b, a) { NamesOrder(a, b, []); }
    forall a: seq<string>, b: seq<string>, c: seq<string> | NamesLess(a, b) && NamesLess(b, c) ensures NamesLess(a, c) {
      NamesOrder(a, b, c);
    }
  }

  // ---------------------------------------------------------------------------
  // The plan
  // ---------------------------------------------------------------------------

  /** The moves with the exact peaks they and the loader reach. */
  ghost predicate GoodPlan(current: ModelState, target: ModelState, transition: TransitionSpec, capacity: Capacity,
                           r: PlanResult)
    requires r.Planned?
  {
    var levels, base := MoveLevels(r.migrations), FinalHost(r.migrations);
    && MovesEverything(current, target, r.migrations) && Fits(r.migrations, target, transition, capacity)
    && IsPeak(r.peakHost, levels + ConstructionLevels(target, transition, base))
    && IsPeak(r.peakGpu, Negated(levels) + [-base + transition.extraGpuBytes])
    && multiset(r.pinningGroups) == multiset(PinningGroups(current.tensors, current.storages, target))
    && Sorted(r.pinningGroups, NamesLess)
  }

  /** No order fits, and the error says what is needed: the GPU bytes in the end, and on the
      host either the bytes after the moves or the peak of building the loader. */
  ghost predicate GoodRefusal(current: ModelState, target: ModelState, transition: TransitionSpec, capacity: Capacity,
                              r: PlanResult)
    requires r.NotEnoughMemory?
  {
    && NoneFits(current, target, transition, capacity)
    && forall moves :: MovesEverything(current, target, moves) ==> ReportedFor(FinalHost(moves), target, transition, capacity, r)
  }

  ghost predicate ReportedFor(base: int, target: ModelState, transition: TransitionSpec, capacity: Capacity,
                              r: PlanResult)
    requires r.NotEnoughMemory?
  {
    && r.requiredGpu == MaxOf(0, -base + transition.extraGpuBytes)
    && (r.requiredHost == MaxOf(0, base) ||
        (r.requiredHost > capacity.hostBytes >= base &&
         IsPeak(r.requiredHost, ConstructionLevels(target, transition, base) + [HostAtEnd(target, transition, base)])))
  }

  lemma Refused(current: ModelState, target: ModelState, transition: TransitionSpec, capacity: Capacity,
                ms: seq<Migration>, r: PlanResult)
    requires MovesEverything(current, target, ms) && NoneFits(current, target, transition, capacity)
    requires r.NotEnoughMemory? && ReportedFor(FinalHost(ms), target, transition, capacity, r)
    ensures GoodRefusal(current, target, transition, capacity, r)
  {
    forall moves | MovesEverything(current, target, moves)
      ensures ReportedFor(FinalHost(moves), target, transition, capacity, r)
    {
      SameFinalHost(current, target, ms, moves);
    }
  }

  lemma {:induction false} FinalIsLevel(moves: seq<Migration>)
    ensures FinalHost(moves) == 0 || FinalHost(moves) in MoveLevels(moves)
    ensures moves != [] ==> |MoveLevels(moves)| == |moves| && MoveLevels(moves)[|moves| - 1] == FinalHost(moves)
  {
    if moves != [] { FinalIsLevel(moves[..|moves| - 1]); }
  }

  /** Peaks above capacity come from building the loader, for the moves stay within it. */
  lemma ConstructionPeaks(levels: seq<int>, later: seq<int>, peak: int, end: int, capacity: int)
    requires capacity >= 0 && AllAtMost(levels, capacity) && IsPeak(peak, levels + later)
    ensures peak <= capacity <==> AllAtMost(later, capacity)
    ensures MaxOf(peak, end) > capacity ==> IsPeak(MaxOf(peak, end), later + [end])
  {
    var all := levels + later;
    assert forall v :: v in all <==> v in levels || v in later;
  }

  /** The moves the transition needs have, within capacity, as many states as the search visits
      before it gives up. */
  ghost predicate ManyStates(current: ModelState, target: ModelState, capacity: Capacity) {
    exists moves :: MovesEverything(current, target, moves) &&
      |ReachableSets(moves, capacity.hostBytes, capacity.gpuBytes)| >= SEARCH_STATE_LIMIT
  }

  method PlanStateTransition(current: ModelState, target: ModelState, transition: TransitionSpec, capacity: Capacity)
    returns (r: PlanResult)
    ensures r.InvalidInputs? <==> !InputsOk(current, target, transition, capacity)
    ensures r.Planned? ==> GoodPlan(current, target, transition, capacity, r)
    ensures r.NotEnoughMemory? ==> GoodRefusal(current, target, transition, capacity, r)
    ensures r.SearchTooLong? ==> ManyStates(current, target, capacity)
  {
    var ok, currentById, targetById := ValidateTransitionInputs(current, target, transition, capacity);
    if !ok { return InvalidInputs; }
    var names := TensorNamesByStorageId(current);
    RequiredMoves(current, target, targetById, names);
    var ms := MigrationsOf(current.storages, targetById, names);
    r := PlanMoves(current, target, targetById, names, transition, capacity, ms);
  }

  method PlanMoves(current: ModelState, target: ModelState, targetById: map<string, StorageState>,
                   names: map<string, seq<string>>, transition: TransitionSpec, capacity: Capacity, ms: seq<Migration>)
    returns (r: PlanResult)
    requires InputsOk(current, target, transition, capacity) && MovesEverything(current, target, ms)
    requires IndexesStorages(targetById, target.storages) && IsNamesOf(names, current)
    ensures !r.InvalidInputs?
    ensures r.Planned? ==> GoodPlan(current, target, transition, capacity, r)
    ensures r.NotEnoughMemory? ==> GoodRefusal(current, target, transition, capacity, r)
    ensures r.SearchTooLong? ==> |ReachableSets(ms, capacity.hostBytes, capacity.gpuBytes)| >= SEARCH_STATE_LIMIT
  {
    var ordered := OrderMigrations(ms, transition.extraGpuBytes, capacity.hostBytes, capacity.gpuBytes, SEARCH_STATE_LIMIT);
    match ordered
    case SearchLimit => r := SearchTooLong;
    case OutOfCapacity(host, gpu) =>
      r := NotEnoughMemory(MaxOf(0, host), MaxOf(0, gpu));
      NoOrderingMeansNoneFits(current, target, transition, capacity, ms);
      Refused(current, target, transition, capacity, ms, r);
    case Ordered(order, searched) =>
      OrderIsMoves(current, target, ms, order, capacity);
      KnownIds(current, target, targetById, transition);
      r := CheckConstruction(current, target, targetById, names, transition, capacity, Pick(ms, order));
  }

  lemma OrderIsMoves(current: ModelState, target: ModelState, ms: seq<Migration>, order: seq<nat>, capacity: Capacity)
    requires MovesEverything(current, target, ms) && IsOrdering(ms, order)
    requires Feasible(ms, order, capacity.hostBytes, capacity.gpuBytes)
    ensures InRange(ms, order) && MovesEverything(current, target, Pick(ms, order))
    ensures AllAtMost(MoveLevels(Pick(ms, order)), capacity.hostBytes)
    ensures AllAtMost(Negated(MoveLevels(Pick(ms, order))), capacity.gpuBytes)
  {
    PendingInRange(ms, order);
    PickKeepsMoves(current, target, ms, order);
    FeasibleLevels(ms, order, capacity);
  }

  /** The part of planning after the moves are ordered. */
  method CheckConstruction(current: ModelState, target: ModelState, targetById: map<string, StorageState>,
                           names: map<string, seq<string>>, transition: TransitionSpec, capacity: Capacity, moves: seq<Migration>)
    returns (r: PlanResult)
    requires StoragesOk(target.storages) && StorageIds(current.storages) == StorageIds(target.storages)
    requires capacity.hostBytes >= 0 && MovesEverything(current, target, moves)
    requires forall id :: id in transition.pinningCopyIds || id in transition.releaseHostIds ==> id in targetById
    requires IndexesStorages(targetById, target.storages) && IsNamesOf(names, current)
    requires AllAtMost(MoveLevels(moves), capacity.hostBytes)
    requires AllAtMost(Negated(MoveLevels(moves)), capacity.gpuBytes)
    ensures r.Planned? || r.NotEnoughMemory?
    ensures r.Planned? ==> GoodPlan(current, target, transition, capacity, r)
    ensures r.NotEnoughMemory? ==> GoodRefusal(current, target, transition, capacity, r)
  {
    var host, gpu, peakHost, peakGpu := MigrationPeaks(moves);
    ghost var base, levels := host, MoveLevels(moves);
    hide *;
    gpu := gpu + transition.extraGpuBytes;
    PeakNext(peakGpu, Negated(levels), gpu);
    peakGpu := MaxOf(peakGpu, gpu);
    if gpu > capacity.gpuBytes {
      r := NotEnoughMemory(MaxOf(0, host), MaxOf(0, gpu));
      GpuRefused(current, target, transition, capacity, moves, r);
      return;
    }
    peakHost, host := ConstructionPeak(target, targetById, transition, host, peakHost, levels);
    if peakHost > capacity.hostBytes || host > capacity.hostBytes {
      r := NotEnoughMemory(MaxOf(0, MaxOf(peakHost, host)), MaxOf(0, gpu));
      HostRefused(current, target, transition, capacity, moves, peakHost, r);
      return;
    }
    var groups := FindPinningGroups(current, target, targetById, names);
    r := Planned(moves, groups, peakHost, peakGpu);
    PlannedWell(current, target, transition, capacity, r, host);
  }

  lemma GpuRefused(current: ModelState, target: ModelState, transition: TransitionSpec, capacity: Capacity,
                   moves: seq<Migration>, r: PlanResult)
    requires MovesEverything(current, target, moves)
    requires var base, gpu := FinalHost(moves), -FinalHost(moves) + transition.extraGpuBytes;
             gpu > capacity.gpuBytes && r == NotEnoughMemory(MaxOf(0, base), MaxOf(0, gpu))
    ensures GoodRefusal(current, target, transition, capacity, r)
  {
    NoRoomMeansNoneFits(current, target, transition, capacity, moves);
    Refused(current, target, transition, capacity, moves, r);
  }

  lemma HostRefused(current: ModelState, target: ModelState, transition: TransitionSpec, capacity: Capacity,
                    moves: seq<Migration>, peak: int, r: PlanResult)
    requires capacity.hostBytes >= 0 && MovesEverything(current, target, moves) && AllAtMost(MoveLevels(moves), capacity.hostBytes)
    requires IsPeak(peak, MoveLevels(moves) + ConstructionLevels(target, transition, FinalHost(moves)))
    requires var end, gpu := HostAtEnd(target, transition, FinalHost(moves)), -FinalHost(moves) + transition.extraGpuBytes;
             && (peak > capacity.hostBytes || end > capacity.hostBytes)
             && r == NotEnoughMemory(MaxOf(0, MaxOf(peak, end)), MaxOf(0, gpu))
    ensures GoodRefusal(current, target, transition, capacity, r)
  {
    var base := FinalHost(moves);
    ConstructionPeaks(MoveLevels(moves), ConstructionLevels(target, transition, base), peak, HostAtEnd(target, transition, base), capacity.hostBytes);
    FinalIsLevel(moves);
    NoRoomMeansNoneFits(current, target, transition, capacity, moves);
    Refused(current, target, transition, capacity, moves, r);
  }

  lemma PlannedWell(current: ModelState, target: ModelState, transition: TransitionSpec, capacity: Capacity,
                    r: PlanResult, host: int)
    requires r.Planned? && MovesEverything(current, target, r.migrations)
    requires var levels, base := MoveLevels(r.migrations), FinalHost(r.migrations);
             && AllAtMost(levels, capacity.hostBytes) && AllAtMost(Negated(levels), capacity.gpuBytes)
             && -base + transition.extraGpuBytes <= capacity.gpuBytes
             && r.peakHost <= capacity.hostBytes && host == HostAtEnd(target, transition, base) <= capacity.hostBytes
             && IsPeak(r.peakHost, levels + ConstructionLevels(target, transition, base))
             && IsPeak(r.peakGpu, Negated(levels) + [-base + transition.extraGpuBytes])
    requires multiset(r.pinningGroups) == multiset(PinningGroups(current.tensors, current.storages, target))
    requires Sorted(r.pinningGroups, NamesLess)
    ensures GoodPlan(current, target, transition, capacity, r)
  {
    var levels, later := MoveLevels(r.migrations), ConstructionLevels(target, transition, FinalHost(r.migrations));
    assert forall v :: v in later ==> v in levels + later;
  }

  lemma KnownIds(current: ModelState, target: ModelState, targetById: map<string, StorageState>,
                 transition: TransitionSpec)
    requires IndexesStorages(targetById, target.storages) && TransitionOk(current, target, transition)
    ensures forall id :: id in transition.pinningCopyIds || id in transition.releaseHostIds ==> id in targetById
  {
    forall id | id in transition.pinningCopyIds || id in transition.releaseHostIds ensures id in targetById {
      assert IsNewlyPinned(current, target, id) || IsOnHost(target, id);
    }
  }

  /** The search can only run into its limit with fourteen moves or more. */
  lemma LimitNeedsManyMoves(ms: seq<Migration>, hostCapacity: int, gpuCapacity: int)
    requires |ReachableSets(ms, hostCapacity, gpuCapacity)| >= SEARCH_STATE_LIMIT
    ensures |ms| >= 14
  {
    ReachableCount(ms, hostCapacity, gpuCapacity);
    if |ms| < 14 { SmallPow2(|ms|); }
  }

  lemma SmallPow2(n: nat)
    requires n < 14
    ensures Pow2(n) <= 8192
  {
    Pow2Monotone(n, 13);
    assert Pow2(13) == 256 * Pow2(5);
  }

  lemma {:induction false} Pow2Monotone(a: nat, b: nat)
    requires a <= b
    ensures Pow2(a) <= Pow2(b)
  {
    if a < b { Pow2Monotone(a, b - 1); }
  }
}
