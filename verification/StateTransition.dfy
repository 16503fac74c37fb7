/** Planning a transition: the moves it needs, their order, and the peaks they reach. */
module StateTransition {
  import opened Timeline
  import opened Sorting
  import opened MigrationOrder
  import opened GreedyOrder
  import opened Placement

  // ---------------------------------------------------------------------------
  // The moves
  // ---------------------------------------------------------------------------

  /** The names of a storage's tensors, as the tensors come. */
  function NamesIn(tensors: seq<TensorState>, storageId: string): seq<string> {
    if tensors == [] then []
    else
      var last := tensors[|tensors| - 1];
      NamesIn(tensors[..|tensors| - 1], storageId) + if last.storageId == storageId then last.names else []
  }

  function SortedNames(tensors: seq<TensorState>, storageId: string): seq<string> {
    Sort(NamesIn(tensors, storageId), StringLess)
  }

  lemma {:induction false} NamesInMeans(tensors: seq<TensorState>, storageId: string, name: string)
    ensures name in NamesIn(tensors, storageId) <==> exists t :: t in tensors && t.storageId == storageId && name in t.names
  {
    if tensors != [] {
      var last := |tensors| - 1;
      NamesInMeans(tensors[..last], storageId, name);
      assert tensors == tensors[..last] + [tensors[last]];
    }
  }

  /** A move is named by exactly the names of its storage's tensors, in order. */
  lemma SortedNamesMean(tensors: seq<TensorState>, storageId: string)
    ensures Sorted(SortedNames(tensors, storageId), StringLess)
    ensures forall name :: name in SortedNames(tensors, storageId) <==>
                           exists t :: t in tensors && t.storageId == storageId && name in t.names
  {
    var names := NamesIn(tensors, storageId);
    assert StrictOrder(StringLess) by {
      forall a, b, c ensures (StringLess(a, b) ==> !StringLess(b, a)) && (StringLess(a, b) && StringLess(b, c) ==> StringLess(a, c)) {
        StringOrder(a, b, c);
      }
    }
    SortSorts(names, StringLess);
    forall name ensures name in Sort(names, StringLess) <==> exists t :: t in tensors && t.storageId == storageId && name in t.names {
      assert name in Sort(names, StringLess) <==> name in multiset(Sort(names, StringLess));
      assert name in multiset(names) <==> name in names;
      NamesInMeans(tensors, storageId, name);
    }
  }

  ghost predicate IsNamesOf(names: map<string, seq<string>>, state: ModelState) {
    names.Keys == StorageIds(state.storages) && forall id :: id in names ==> names[id] == SortedNames(state.tensors, id)
  }

  /** The names of the tensors so far, by storage. */
  ghost predicate Gathered(names: map<string, seq<string>>, storages: seq<StorageState>, tensors: seq<TensorState>) {
    names.Keys == StorageIds(storages) && forall id :: id in names ==> names[id] == NamesIn(tensors, id)
  }

  lemma NamesNext(names: map<string, seq<string>>, storages: seq<StorageState>, tensors: seq<TensorState>, i: nat)
    requires i < |tensors| && Gathered(names, storages, tensors[..i]) && tensors[i].storageId in names
    ensures var t := tensors[i]; Gathered(names[t.storageId := names[t.storageId] + t.names], storages, tensors[..i + 1])
  {
    assert tensors[..i + 1][..i] == tensors[..i];
  }

  method TensorNamesByStorageId(state: ModelState) returns (names: map<string, seq<string>>)
    requires PlacementOk(state)
    ensures IsNamesOf(names, state)
  {
    names := map id | id in StorageIds(state.storages) :: [];
    for i := 0 to |state.tensors|
      invariant Gathered(names, state.storages, state.tensors[..i])
    {
      var t := state.tensors[i];
      assert t in state.tensors;
      NamesNext(names, state.storages, state.tensors, i);
      names := names[t.storageId := names[t.storageId] + t.names];
    }
    assert state.tensors[..|state.tensors|] == state.tensors;
    names := map id | id in names :: Sort(names[id], StringLess);
  }

  /** m takes a storage from where `current` has it to where `target` has it, and it is elsewhere. */
  ghost predicate IsRequired(current: ModelState, target: ModelState, m: Migration) {
    exists s, s' :: s in current.storages && s' in target.storages && s.id == s'.id && Moved(current, s, s', m)
  }

  ghost predicate Moved(current: ModelState, s: StorageState, s': StorageState, m: Migration) {
    && s.device != s'.device && s.nbytes >= 0
    && m == Migration(s.id, SortedNames(current.tensors, s.id), s.device, s'.device, s.nbytes)
  }

  /** The required moves, each once. */
  ghost predicate MovesEverything(current: ModelState, target: ModelState, moves: seq<Migration>) {
    Distinct(moves) && forall m :: m in moves <==> IsRequired(current, target, m)
  }

  /** Both dicts know every storage. */
  ghost predicate Covered(storages: seq<StorageState>, targetById: map<string, StorageState>,
                          names: map<string, seq<string>>) {
    forall s :: s in storages ==> s.id in targetById && s.id in names && s.nbytes >= 0
  }

  function MoveOf(s: StorageState, targetById: map<string, StorageState>, names: map<string, seq<string>>): Migration
    requires s.id in targetById && s.id in names && s.nbytes >= 0
  {
    Migration(s.id, names[s.id], s.device, targetById[s.id].device, s.nbytes)
  }

  function MigrationsOf(storages: seq<StorageState>, targetById: map<string, StorageState>,
                        names: map<string, seq<string>>)
    : seq<Migration>
    requires Covered(storages, targetById, names)
  {
    if storages == [] then []
    else
      var before, s := storages[..|storages| - 1], storages[|storages| - 1];
      MigrationsOf(before, targetById, names) +
      if s.device != targetById[s.id].device then [MoveOf(s, targetById, names)] else []
  }

  lemma {:induction false} StorageMoves(storages: seq<StorageState>, targetById: map<string, StorageState>,
                                        names: map<string, seq<string>>, s: StorageState)
    requires Covered(storages, targetById, names) && s in storages && s.device != targetById[s.id].device
    ensures MoveOf(s, targetById, names) in MigrationsOf(storages, targetById, names)
  {
    var last := |storages| - 1;
    if storages[last] != s {
      var i :| 0 <= i < last && storages[i] == s;
      assert storages[..last][i] == s;
      StorageMoves(storages[..last], targetById, names, s);
    }
  }

  lemma {:induction false} MovedStorage(storages: seq<StorageState>, targetById: map<string, StorageState>,
                                        names: map<string, seq<string>>, m: Migration) returns (s: StorageState)
    requires Covered(storages, targetById, names) && m in MigrationsOf(storages, targetById, names)
    ensures s in storages && s.device != targetById[s.id].device && m == MoveOf(s, targetById, names)
  {
    var last := |storages| - 1;
    s := storages[last];
    if !(s.device != targetById[s.id].device && m == MoveOf(s, targetById, names)) {
      s := MovedStorage(storages[..last], targetById, names, m);
    }
  }

  lemma {:induction false} MovesOnce(storages: seq<StorageState>, targetById: map<string, StorageState>,
                                     names: map<string, seq<string>>)
    requires Covered(storages, targetById, names) && StoragesOk(storages)
    ensures Distinct(MigrationsOf(storages, targetById, names))
  {
    if storages != [] {
      var last := |storages| - 1;
      MovesOnce(storages[..last], targetById, names);
      var before := MigrationsOf(storages[..last], targetById, names);
      forall m | m in before ensures m.storageId != storages[last].id {
        var s := MovedStorage(storages[..last], targetById, names, m);
      }
    }
  }

  lemma RequiredMoves(current: ModelState, target: ModelState, targetById: map<string, StorageState>,
                      names: map<string, seq<string>>)
    requires StoragesOk(current.storages) && StorageIds(current.storages) == StorageIds(target.storages)
    requires IndexesStorages(targetById, target.storages) && IsNamesOf(names, current)
    ensures Covered(current.storages, targetById, names)
    ensures MovesEverything(current, target, MigrationsOf(current.storages, targetById, names))
  {
    IndexKeys(targetById, target.storages);
    MovesOnce(current.storages, targetById, names);
    forall m ensures m in MigrationsOf(current.storages, targetById, names) <==> IsRequired(current, target, m) {
      RequiredMove(current, target, targetById, names, m);
    }
  }

  lemma RequiredMove(current: ModelState, target: ModelState, targetById: map<string, StorageState>,
                     names: map<string, seq<string>>, m: Migration)
    requires Covered(current.storages, targetById, names)
    requires IndexesStorages(targetById, target.storages) && IsNamesOf(names, current)
    ensures m in MigrationsOf(current.storages, targetById, names) <==> IsRequired(current, target, m)
  {
    if m in MigrationsOf(current.storages, targetById, names) {
      var s := MovedStorage(current.storages, targetById, names, m);
      assert Moved(current, s, targetById[s.id], m);
    }
    if IsRequired(current, target, m) {
      var s, s' :| s in current.storages && s' in target.storages && s.id == s'.id && Moved(current, s, s', m);
      assert targetById[s.id] == s';
      StorageMoves(current.storages, targetById, names, s);
    }
  }

  // ---------------------------------------------------------------------------
  // Orders of the moves
  // ---------------------------------------------------------------------------

  function Pick(ms: seq<Migration>, order: seq<nat>): (r: seq<Migration>)
    requires InRange(ms, order)
    ensures |r| == |order| && forall k :: 0 <= k < |order| ==> r[k] == ms[order[k]]
  {
    seq(|order|, k requires 0 <= k < |order| && InRange(ms, order) => ms[order[k]])
  }

  lemma {:induction false} PickHost(ms: seq<Migration>, order: seq<nat>)
    requires InRange(ms, order)
    ensures FinalHost(Pick(ms, order)) == Host(ms, order)
  {
    if order != [] {
      var last := |order| - 1;
      PickHost(ms, order[..last]);
      assert Pick(ms, order)[..last] == Pick(ms, order[..last]);
    }
  }

  lemma {:induction false} PickLevels(ms: seq<Migration>, order: seq<nat>, v: int)
    requires InRange(ms, order) && v in MoveLevels(Pick(ms, order))
    ensures exists k :: 0 <= k <= |order| && v == Host(ms, order[..k])
  {
    var last := |order| - 1;
    assert Pick(ms, order)[..last] == Pick(ms, order[..last]);
    if v == FinalHost(Pick(ms, order)) {
      PickHost(ms, order);
      assert order[..|order|] == order;
    } else {
      PickLevels(ms, order[..last], v);
      var k :| 0 <= k <= last && v == Host(ms, order[..last][..k]);
      assert order[..last][..k] == order[..k];
    }
  }

  lemma {:induction false} LevelsCover(ms: seq<Migration>, order: seq<nat>, k: nat)
    requires InRange(ms, order) && 0 < k <= |order|
    ensures Host(ms, order[..k]) in MoveLevels(Pick(ms, order))
  {
    var last := |order| - 1;
    assert Pick(ms, order)[..last] == Pick(ms, order[..last]);
    if k == |order| {
      PickHost(ms, order);
      assert order[..k] == order;
    } else {
      LevelsCover(ms, order[..last], k);
      assert order[..last][..k] == order[..k];
    }
  }

  /** An ordering of the moves is again the moves, each once. */
  lemma PickKeepsMoves(current: ModelState, target: ModelState, ms: seq<Migration>, order: seq<nat>)
    requires MovesEverything(current, target, ms) && IsOrdering(ms, order) && InRange(ms, order)
    ensures MovesEverything(current, target, Pick(ms, order))
  {
    OrderingLeavesNone(ms, order);
    var moves := Pick(ms, order);
    forall i, j | 0 <= i < j < |moves| ensures moves[i] != moves[j] {
      assert order[i] != order[j] && moves[i] == ms[order[i]] && moves[j] == ms[order[j]];
    }
    forall m ensures m in moves <==> m in ms {
      if m in ms {
        var i :| 0 <= i < |ms| && ms[i] == m;
        assert i in Below(|ms|) && i in Elements(order);
        var k :| 0 <= k < |order| && order[k] == i;
        assert moves[k] == m;
      }
    }
  }

  ghost function IndexIn(ms: seq<Migration>, m: Migration): (i: nat)
    requires m in ms
    ensures i < |ms| && ms[i] == m
  {
    var i :| 0 <= i < |ms| && ms[i] == m;
    i
  }

  /** Any list of the moves, each once, is an ordering of the list the planner builds. */
  lemma OrderOf(current: ModelState, target: ModelState, ms: seq<Migration>,
                moves: seq<Migration>) returns (order: seq<nat>)
    requires MovesEverything(current, target, ms) && MovesEverything(current, target, moves)
    ensures IsOrdering(ms, order) && InRange(ms, order) && Pick(ms, order) == moves
  {
    assert forall m :: m in moves <==> m in ms;
    order := seq(|moves|, k requires 0 <= k < |moves| => assert moves[k] in moves; IndexIn(ms, moves[k]));
    assert forall k :: 0 <= k < |moves| ==> order[k] < |ms| && ms[order[k]] == moves[k];
    forall i, j | 0 <= i < j < |order| ensures order[i] != order[j] { assert moves[i] != moves[j]; }
    assert Moves(ms, order);
    forall i | i in Below(|ms|) ensures i in Elements(order) {
      assert ms[i] in moves;
      var k :| 0 <= k < |moves| && moves[k] == ms[i];
      assert ms[order[k]] == ms[i];
      assert order[k] in order;
    }
    forall i | i in Elements(order) ensures i in Below(|ms|) {}
    assert Elements(order) == Below(|ms|);
    OrderingLeavesNone(ms, order);
  }

  // ---------------------------------------------------------------------------
  // Levels and peaks
  // ---------------------------------------------------------------------------

  function SizeOf(storages: seq<StorageState>, id: string): int {
    if storages == [] then 0
    else if storages[|storages| - 1].id == id then storages[|storages| - 1].nbytes
    else SizeOf(storages[..|storages| - 1], id)
  }

  lemma {:induction false} SizeOfIndexed(storages: seq<StorageState>, s: StorageState)
    requires StoragesOk(storages) && s in storages
    ensures SizeOf(storages, s.id) == s.nbytes
  {
    var last := |storages| - 1;
    if storages[last] != s {
      var i :| 0 <= i < last && storages[i] == s;
      assert storages[i].id != storages[last].id && storages[..last][i] == s;
      SizeOfIndexed(storages[..last], s);
    }
  }

  function SumOver(storages: seq<StorageState>, ids: seq<string>): int {
    if ids == [] then 0 else SumOver(storages, ids[..|ids| - 1]) + SizeOf(storages, ids[|ids| - 1])
  }

  /** Host bytes above the start, after each move. */
  function MoveLevels(moves: seq<Migration>): seq<int> {
    if moves == [] then [] else MoveLevels(moves[..|moves| - 1]) + [FinalHost(moves)]
  }

  function Negated(levels: seq<int>): (r: seq<int>)
    ensures forall v :: v in r ==> -v in levels
  {
    seq(|levels|, i requires 0 <= i < |levels| => -levels[i])
  }

  /** Each pinning copy is on top of `base`. */
  function PinLevels(storages: seq<StorageState>, ids: seq<string>, base: int): seq<int> {
    if ids == [] then [] else PinLevels(storages, ids[..|ids| - 1], base) + [base + SizeOf(storages, ids[|ids| - 1])]
  }

  function Retained(allocations: seq<HostAllocation>): int {
    if allocations == [] then 0
    else Retained(allocations[..|allocations| - 1]) + allocations[|allocations| - 1].nbytes
  }

  /** Each allocation is kept, and copied into, on top of those before it. */
  function AllocationLevels(allocations: seq<HostAllocation>, base: int): seq<int> {
    if allocations == [] then []
    else
      AllocationLevels(allocations[..|allocations| - 1], base) +
      [base + Retained(allocations) + allocations[|allocations| - 1].temporaryCopyBytes]
  }

  ghost function ConstructionLevels(target: ModelState, transition: TransitionSpec, base: int): seq<int> {
    PinLevels(target.storages, transition.pinningCopyIds, base) + AllocationLevels(transition.hostAllocations, base)
  }

  function HostAtEnd(target: ModelState, transition: TransitionSpec, base: int): int {
    base + Retained(transition.hostAllocations) - SumOver(target.storages, transition.releaseHostIds)
  }

  ghost predicate IsPeak(peak: int, levels: seq<int>) {
    peak >= 0 && (forall v :: v in levels ==> v <= peak) && (peak == 0 || peak in levels)
  }

  ghost predicate AllAtMost(levels: seq<int>, bound: int) {
    forall v :: v in levels ==> v <= bound
  }

  /** Making the moves in this order and then building the loader stays within both capacities. */
  ghost predicate Fits(moves: seq<Migration>, target: ModelState, transition: TransitionSpec, capacity: Capacity) {
    && AllAtMost(MoveLevels(moves), capacity.hostBytes) && AllAtMost(Negated(MoveLevels(moves)), capacity.gpuBytes)
    && -FinalHost(moves) + transition.extraGpuBytes <= capacity.gpuBytes
    && ConstructionFits(FinalHost(moves), target, transition, capacity)
  }

  ghost predicate ConstructionFits(base: int, target: ModelState, transition: TransitionSpec, capacity: Capacity) {
    && AllAtMost(ConstructionLevels(target, transition, base), capacity.hostBytes)
    && HostAtEnd(target, transition, base) <= capacity.hostBytes
  }

  function MaxOf(a: int, b: int): int { if a < b then b else a }

  lemma PeakNext(peak: int, levels: seq<int>, v: int)
    requires IsPeak(peak, levels)
    ensures IsPeak(MaxOf(peak, v), levels + [v])
  {
  }

  method MigrationPeaks(moves: seq<Migration>) returns (host: int, gpu: int, peakHost: int, peakGpu: int)
    ensures host == FinalHost(moves) && gpu == -host
    ensures IsPeak(peakHost, MoveLevels(moves)) && IsPeak(peakGpu, Negated(MoveLevels(moves)))
  {
    host, gpu, peakHost, peakGpu := 0, 0, 0, 0;
    for i := 0 to |moves|
      invariant host == FinalHost(moves[..i]) && gpu == -host
      invariant IsPeak(peakHost, MoveLevels(moves[..i])) && IsPeak(peakGpu, Negated(MoveLevels(moves[..i])))
    {
      var m := moves[i];
      assert moves[..i + 1][..i] == moves[..i];
      if m.destination.Cuda? {
        host, gpu := host - m.nbytes, gpu + m.nbytes;
      } else {
        host, gpu := host + m.nbytes, gpu - m.nbytes;
      }
      var levels := MoveLevels(moves[..i]);
      PeakNext(peakHost, levels, host);
      PeakNext(peakGpu, Negated(levels), gpu);
      assert Negated(levels + [host]) == Negated(levels) + [gpu];
      peakHost, peakGpu := MaxOf(peakHost, host), MaxOf(peakGpu, gpu);
    }
    assert moves[..|moves|] == moves;
  }

  method ConstructionPeak(target: ModelState, targetById: map<string, StorageState>, transition: TransitionSpec,
                          base: int, start: int, ghost levels: seq<int>)
    returns (peak: int, host: int)
    requires StoragesOk(target.storages) && IndexesStorages(targetById, target.storages)
    requires forall id :: id in transition.pinningCopyIds || id in transition.releaseHostIds ==> id in targetById
    requires IsPeak(start, levels)
    ensures IsPeak(peak, levels + ConstructionLevels(target, transition, base))
    ensures host == HostAtEnd(target, transition, base)
  {
    peak := start;
    var ids := transition.pinningCopyIds;
    assert levels + [] == levels;
    for i := 0 to |ids|
      invariant IsPeak(peak, levels + PinLevels(target.storages, ids[..i], base))
    {
      assert ids[i] in ids && ids[..i + 1][..i] == ids[..i];
      SizeOfIndexed(target.storages, targetById[ids[i]]);
      var level := base + targetById[ids[i]].nbytes;
      PeakNext(peak, levels + PinLevels(target.storages, ids[..i], base), level);
      peak := MaxOf(peak, level);
      assert levels + PinLevels(target.storages, ids[..i], base) + [level] == levels + PinLevels(target.storages, ids[..i + 1], base);
    }
    assert ids[..|ids|] == ids;
    ghost var pinned := levels + PinLevels(target.storages, ids, base);
    peak, host := AllocationPeak(transition.hostAllocations, base, peak, pinned);
    assert pinned + AllocationLevels(transition.hostAllocations, base) == levels + ConstructionLevels(target, transition, base);
    var released := SumReleased(target, targetById, transition.releaseHostIds);
    host := host - released;
  }

  method AllocationPeak(allocations: seq<HostAllocation>, base: int, start: int, ghost levels: seq<int>)
    returns (peak: int, host: int)
    requires IsPeak(start, levels)
    ensures IsPeak(peak, levels + AllocationLevels(allocations, base)) && host == base + Retained(allocations)
  {
    peak, host := start, base;
    assert levels + [] == levels;
    for i := 0 to |allocations|
      invariant IsPeak(peak, levels + AllocationLevels(allocations[..i], base))
      invariant host == base + Retained(allocations[..i])
    {
      var a := allocations[i];
      assert allocations[..i + 1][..i] == allocations[..i];
      host := host + a.nbytes;
      var level := host + a.temporaryCopyBytes;
      PeakNext(peak, levels + AllocationLevels(allocations[..i], base), level);
      peak := MaxOf(peak, level);
      assert levels + AllocationLevels(allocations[..i], base) + [level] == levels + AllocationLevels(allocations[..i + 1], base);
    }
    assert allocations[..|allocations|] == allocations;
  }

  method SumReleased(target: ModelState, targetById: map<string, StorageState>, ids: seq<string>) returns (total: int)
    requires StoragesOk(target.storages) && IndexesStorages(targetById, target.storages)
    requires forall id :: id in ids ==> id in targetById
    ensures total == SumOver(target.storages, ids)
  {
    total := 0;
    for i := 0 to |ids|
      invariant total == SumOver(target.storages, ids[..i])
    {
      assert ids[i] in ids && ids[..i + 1][..i] == ids[..i];
      SizeOfIndexed(target.storages, targetById[ids[i]]);
      total := total + targetById[ids[i]].nbytes;
    }
    assert ids[..|ids|] == ids;
  }
}
