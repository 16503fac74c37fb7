/** Adopting a saved profile: its target and transition are always accepted by the planner. */
module TargetFromProfile {
  import opened Timeline
  import opened MigrationOrder
  import opened Placement
  import opened StateTransition
  import opened StateAdoption
  import opened ResidentBytes
  import opened ProfileRequirements
  import opened AdoptedMemory

  datatype AdoptionResult = Adopted(target: ModelState, transition: TransitionSpec) | Rejected

  // ---------------------------------------------------------------------------
  // The memory a block loader takes
  // ---------------------------------------------------------------------------

  /** Every label is in one block, every block has a size, and no tensor is loaded for two labels. */
  predicate OwnedOnce(profile: Profile) {
    var labels := AllocatedLabels(profile.allocation);
    && (forall i, j :: 0 <= i < j < |labels| ==> labels[i] != labels[j])
    && (forall group :: group in profile.allocation ==> exists block :: block in profile.blockSizes && block.0 == group.0)
    && (forall i, j :: 0 <= i < j < |profile.load| ==>
          forall name :: name in NamesOfStats(profile.load[i].1) ==> name !in NamesOfStats(profile.load[j].1))
  }

  predicate BlockProfileOk(profile: Profile, useShm: bool) {
    && OwnedOnce(profile) && profile.viewNames == AllLoaded(profile.load) && SizesAgree(profile)
    && (useShm && profile.hasShm ==> profile.shmLabels == set l | l in LoadLabels(profile.load))
  }

  predicate SizesAgree(profile: Profile) {
    var sizes := LogicalSizes(profile.load);
    && BlocksHoldLabels(profile) && BlockSizesAgree(profile, sizes)
    && (profile.loader.RawBlockLoader? || profile.labelSizes != map[] ==> profile.labelSizes == sizes)
  }

  lemma StatNamesKnown(stats: seq<Stat>, saved: Names, logical: map<string, int>)
    requires StatsAgree(stats, saved, logical)
    ensures forall name :: name in NamesOfStats(stats) ==> name in logical
  {
    forall name | name in NamesOfStats(stats) ensures name in logical {
      var stat :| stat in stats && stat.name == name;
    }
  }

  function PackedStats(stats: seq<Stat>, saved: Names, logical: map<string, int>): int
    requires StatsAgree(stats, saved, logical)
  {
    StatNamesKnown(stats, saved, logical);
    PackedBytes(NamesOfStats(stats), logical)
  }

  function PackedSizes(load: seq<(Label, seq<Stat>)>, saved: Names, logical: map<string, int>): (r: map<Label, int>)
    requires forall item :: item in load ==> StatsAgree(item.1, saved, logical)
    ensures forall l :: l in r <==> l in LoadLabels(load)
  {
    if load == [] then map[]
    else
      var before, item := load[..|load| - 1], load[|load| - 1];
      assert load == before + [item];
      if item.1 == [] then PackedSizes(before, saved, logical)
      else PackedSizes(before, saved, logical)[item.0 := PackedStats(item.1, saved, logical)]
  }

  lemma {:induction false} PackedNonNegative(load: seq<(Label, seq<Stat>)>, saved: Names, logical: map<string, int>)
    requires forall item :: item in load ==> StatsAgree(item.1, saved, logical)
    requires forall name :: name in logical ==> logical[name] >= 0
    ensures forall l :: l in PackedSizes(load, saved, logical) ==> PackedSizes(load, saved, logical)[l] >= 0
  {
    if load != [] {
      var before, item := load[..|load| - 1], load[|load| - 1];
      assert load == before + [item] && item in load;
      PackedNonNegative(before, saved, logical);
      StatNamesKnown(item.1, saved, logical);
      PackedIsAligned(NamesOfStats(item.1), logical);
    }
  }

  function LabelBytes(profile: Profile, logical: map<string, int>): map<Label, int>
    requires forall item :: item in profile.load ==> StatsAgree(item.1, profile.savedNames, logical)
  {
    if profile.loader.RawBlockLoader? then profile.labelSizes else PackedSizes(profile.load, profile.savedNames, logical)
  }

  lemma LabelBytesNonNegative(profile: Profile, logical: map<string, int>)
    requires forall item :: item in profile.load ==> StatsAgree(item.1, profile.savedNames, logical)
    requires (forall name :: name in logical ==> logical[name] >= 0) && SizesAgree(profile)
    ensures forall l :: l in LabelBytes(profile, logical) ==> LabelBytes(profile, logical)[l] >= 0
    ensures forall l :: l in LabelBytes(profile, logical) <==> l in LoadLabels(profile.load)
    ensures forall l :: l in LogicalSizes(profile.load) ==> LogicalSizes(profile.load)[l] >= 0
  {
    var sizes := LogicalSizes(profile.load);
    PackedNonNegative(profile.load, profile.savedNames, logical);
    forall l | l in sizes ensures sizes[l] >= 0 {
      var item :| item in profile.load && item.0 == l && sizes[l] == SumSizes(item.1);
      SizesNonNegative(item.1, profile.savedNames, logical);
    }
  }

  function BlockGpuBytes(profile: Profile, logical: map<string, int>): int
    requires forall item :: item in profile.load ==> StatsAgree(item.1, profile.savedNames, logical)
    requires BlocksHoldLabels(profile)
  {
    if profile.loader.RawBlockLoader? then TotalOf(profile.blockSizes)
    else TotalOfLargest(profile.allocation, PackedSizes(profile.load, profile.savedNames, logical))
  }

  lemma BlockBytesNonNegative(profile: Profile, logical: map<string, int>)
    requires forall item :: item in profile.load ==> StatsAgree(item.1, profile.savedNames, logical)
    requires (forall name :: name in logical ==> logical[name] >= 0) && SizesAgree(profile)
    ensures BlockGpuBytes(profile, logical) >= 0
  {
    LabelBytesNonNegative(profile, logical);
    if profile.loader.RawBlockLoader? {
      forall block | block in profile.blockSizes ensures block.1 >= 0 {
        var group :| group in profile.allocation && group.0 == block.0 && block.1 == LargestOf(group.1, LogicalSizes(profile.load));
      }
      TotalNonNegative(profile.blockSizes);
    } else {
      LargestTotalNonNegative(profile.allocation, PackedSizes(profile.load, profile.savedNames, logical));
    }
  }

  function HostAllocations(labels: seq<Label>, bytes: map<Label, int>, copies: bool): (r: seq<HostAllocation>)
    requires forall l :: l in labels ==> l in bytes
    ensures (forall l :: l in bytes ==> bytes[l] >= 0) ==> forall a :: a in r ==> a.nbytes >= 0 && a.temporaryCopyBytes >= 0
    ensures |r| == |labels|
    ensures forall i :: 0 <= i < |r| ==> r[i] == HostAllocation(bytes[labels[i]], if copies then bytes[labels[i]] else 0)
  {
    if labels == [] then []
    else
      var before, l := labels[..|labels| - 1], labels[|labels| - 1];
      assert labels == before + [l];
      HostAllocations(before, bytes, copies) + [HostAllocation(bytes[l], if copies then bytes[l] else 0)]
  }

  // ---------------------------------------------------------------------------
  // Ids
  // ---------------------------------------------------------------------------

  /** The ids of the storages that are among those given, in order. */
  function IdsAmong(storages: seq<StorageState>, ids: set<string>): (r: seq<string>)
    ensures forall id :: id in r <==> id in ids && id in StorageIds(storages)
  {
    if storages == [] then []
    else
      var before, s := storages[..|storages| - 1], storages[|storages| - 1];
      assert storages == before + [s];
      IdsAmong(before, ids) + if s.id in ids then [s.id] else []
  }

  lemma {:induction false} IdsAmongOnce(storages: seq<StorageState>, ids: set<string>)
    requires StoragesOk(storages)
    ensures Distinct(IdsAmong(storages, ids))
  {
    if storages != [] {
      var last := |storages| - 1;
      IdsAmongOnce(storages[..last], ids);
      forall id | id in IdsAmong(storages[..last], ids) ensures id != storages[last].id {
        var s :| s in storages[..last] && s.id == id;
        var i :| 0 <= i < last && storages[i] == s;
        assert storages[i].id != storages[last].id;
      }
    }
  }

  /** Ids of the storages that the target pins and that are not pinned yet. */
  function PinnedAnew(storages: seq<StorageState>, targets: seq<StorageState>): (r: set<string>)
    requires |storages| == |targets|
  {
    set i | 0 <= i < |storages| && NewlyPinned(storages[i], targets[i]) :: storages[i].id
  }

  // ---------------------------------------------------------------------------
  // Why the target is accepted
  // ---------------------------------------------------------------------------

  /** No storage is on a GPU other than the target's. */
  predicate OnlyDevice(storages: seq<StorageState>, d: Device) {
    forall s :: s in storages && s.device.Cuda? ==> s.device == d
  }

  lemma TargetIsOk(current: ModelState, saved: Names, managed: Names, d: Device, pins: bool, r: TargetResult)
    requires PlacementOk(current) && d.Cuda? && DeviceOk(d) && OnlyDevice(current.storages, d)
    requires r.Target? && IsTarget(r, current, saved, managed, d, pins)
    ensures var target := ModelState(current.tensors, r.storages, SCHEMA_VERSION);
            PlacementOk(target) && StoragesMatch(current, target)
  {
    SameIds(current.storages, r.storages);
    TargetStoragesOk(current, saved, managed, d, pins, r);
    SizesKept(current, saved, managed, d, pins, r);
    MayMove(current, saved, managed, d, pins, r);
  }

  lemma TargetStoragesOk(current: ModelState, saved: Names, managed: Names, d: Device, pins: bool, r: TargetResult)
    requires StoragesOk(current.storages) && d.Cuda? && DeviceOk(d) && OnlyDevice(current.storages, d)
    requires r.Target? && IsTarget(r, current, saved, managed, d, pins)
    ensures StoragesOk(r.storages) && OneCudaDevice(current.storages + r.storages)
  {
    forall i | 0 <= i < |r.storages| ensures StorageOk(r.storages[i]) { assert StorageOk(current.storages[i]); }
    forall i, j | 0 <= i < j < |r.storages| ensures r.storages[i].id != r.storages[j].id {
      assert current.storages[i].id != current.storages[j].id;
    }
    forall s | s in current.storages + r.storages && s.device.Cuda? ensures s.device == d {
      if s in r.storages { var i :| 0 <= i < |r.storages| && r.storages[i] == s; }
    }
  }

  lemma SameIds(a: seq<StorageState>, b: seq<StorageState>)
    requires |a| == |b| && forall i :: 0 <= i < |a| ==> a[i].id == b[i].id
    ensures StorageIds(a) == StorageIds(b)
  {
    forall id | id in StorageIds(a) ensures id in StorageIds(b) {
      var s :| s in a && s.id == id;
      var i :| 0 <= i < |a| && a[i] == s;
      assert b[i] in b;
    }
    forall id | id in StorageIds(b) ensures id in StorageIds(a) {
      var s :| s in b && s.id == id;
      var i :| 0 <= i < |b| && b[i] == s;
      assert a[i] in a;
    }
  }

  lemma SizesKept(current: ModelState, saved: Names, managed: Names, d: Device, pins: bool, r: TargetResult)
    requires PlacementOk(current) && r.Target? && IsTarget(r, current, saved, managed, d, pins)
    ensures forall t, s :: t in current.tensors && s in r.storages && t.storageId == s.id ==> t.logicalBytes <= s.nbytes
  {
    forall t, s | t in current.tensors && s in r.storages && t.storageId == s.id ensures t.logicalBytes <= s.nbytes {
      var i :| 0 <= i < |r.storages| && r.storages[i] == s;
      SizeKept(current, saved, managed, d, pins, r, t, i);
    }
  }

  lemma SizeKept(current: ModelState, saved: Names, managed: Names, d: Device, pins: bool, r: TargetResult, t: TensorState, i: nat)
    requires PlacementOk(current) && r.Target? && IsTarget(r, current, saved, managed, d, pins)
    requires t in current.tensors && i < |r.storages| && t.storageId == r.storages[i].id
    ensures t.logicalBytes <= r.storages[i].nbytes
  {
    var s := current.storages[i];
    assert s in current.storages && t.storageId == s.id ==> t.logicalBytes <= s.nbytes;
    hide PlacementOk;
    assert r.storages[i].nbytes == s.nbytes && r.storages[i].id == s.id;
  }

  lemma MayMove(current: ModelState, saved: Names, managed: Names, d: Device, pins: bool, r: TargetResult)
    requires PlacementOk(current) && d.Cuda? && OnlyDevice(current.storages, d)
    requires r.Target? && IsTarget(r, current, saved, managed, d, pins)
    ensures forall s, s' :: s in current.storages && s' in r.storages && s.id == s'.id ==> StorageMayMove(s, s')
  {
    forall s, s' | s in current.storages && s' in r.storages && s.id == s'.id ensures StorageMayMove(s, s') {
      var i :| 0 <= i < |current.storages| && current.storages[i] == s;
      var j :| 0 <= j < |r.storages| && r.storages[j] == s';
      StorageMoves(current, saved, managed, d, pins, r, i, j);
    }
  }

  lemma StorageMoves(current: ModelState, saved: Names, managed: Names, d: Device, pins: bool, r: TargetResult, i: nat, j: nat)
    requires PlacementOk(current) && d.Cuda? && OnlyDevice(current.storages, d)
    requires r.Target? && IsTarget(r, current, saved, managed, d, pins)
    requires i < |current.storages| && j < |r.storages| && current.storages[i].id == r.storages[j].id
    ensures StorageMayMove(current.storages[i], r.storages[j])
  {
    assert StorageOk(current.storages[i]) && current.storages[i] in current.storages;
    assert StoragesOk(current.storages);
    hide PlacementOk;
    assert r.storages[j].id == current.storages[j].id;
    assert i == j;
  }

  lemma NewlyPinnedIsAnew(current: ModelState, target: ModelState, id: string)
    requires StoragesOk(current.storages) && |target.storages| == |current.storages| && IsNewlyPinned(current, target, id)
    requires forall i :: 0 <= i < |current.storages| ==> target.storages[i].id == current.storages[i].id
    ensures id in PinnedAnew(current.storages, target.storages) && id in StorageIds(current.storages)
  {
    var s, s' :| s in current.storages && s' in target.storages && s.id == s'.id == id && NewlyPinned(s, s');
    var i :| 0 <= i < |current.storages| && current.storages[i] == s;
    var j :| 0 <= j < |target.storages| && target.storages[j] == s';
    assert current.storages[j].id == s'.id;
    assert i == j;
  }

  lemma PinnedAnewOk(current: ModelState, target: ModelState)
    requires StoragesOk(current.storages) && |target.storages| == |current.storages|
    requires forall i :: 0 <= i < |current.storages| ==> target.storages[i].id == current.storages[i].id
    ensures var ids := IdsAmong(current.storages, PinnedAnew(current.storages, target.storages));
            Distinct(ids) && forall id :: id in ids <==> IsNewlyPinned(current, target, id)
  {
    var anew := PinnedAnew(current.storages, target.storages);
    IdsAmongOnce(current.storages, anew);
    forall id | IsNewlyPinned(current, target, id) ensures id in anew && id in StorageIds(current.storages) {
      NewlyPinnedIsAnew(current, target, id);
    }
    forall id | id in anew ensures IsNewlyPinned(current, target, id) {
      var i :| 0 <= i < |current.storages| && NewlyPinned(current.storages[i], target.storages[i]) && current.storages[i].id == id;
      assert current.storages[i] in current.storages && target.storages[i] in target.storages;
    }
  }

  lemma ManagedOnHost(current: ModelState, target: ModelState, managedIds: set<string>)
    requires StoragesOk(current.storages) && |target.storages| == |current.storages|
    requires forall i :: 0 <= i < |current.storages| ==> target.storages[i].id == current.storages[i].id
    requires forall i :: 0 <= i < |current.storages| && current.storages[i].id in managedIds ==> target.storages[i].device.Cpu?
    ensures var ids := IdsAmong(current.storages, managedIds);
            Distinct(ids) && forall id :: id in ids ==> IsOnHost(target, id)
  {
    IdsAmongOnce(current.storages, managedIds);
    forall id | id in managedIds && id in StorageIds(current.storages) ensures IsOnHost(target, id) {
      var s :| s in current.storages && s.id == id;
      var i :| 0 <= i < |current.storages| && current.storages[i] == s;
      assert target.storages[i] in target.storages;
    }
  }

  // ---------------------------------------------------------------------------
  // Adoption
  // ---------------------------------------------------------------------------

  /** Block loaders give each tensor a slot of its own, which would part views of one storage. */
  predicate SharesManagedStorage(tensors: seq<TensorState>, managedIds: set<string>) {
    exists i, j :: 0 <= i < j < |tensors| && tensors[i].storageId == tensors[j].storageId && tensors[i].storageId in managedIds
  }

  method StrategyBytes(current: ModelState, profile: Profile) returns (peak: int)
    requires PlacementOk(current) && InventoryAgrees(current, profile)
    ensures IsStrategyPeak(peak, current, profile) && peak >= 0
  {
    var logical, load := LogicalBytes(current.tensors), NamesByLabel(profile.load);
    LogicalNonNegative(current);
    LoadedAreKnown(profile, logical);
    var start := ResidentAtStart(LayerNames(profile.layers), load, ManagedNames(profile));
    peak := PeakResidentBytes(logical, start, seq(|profile.layers|, i requires 0 <= i < |profile.layers| => profile.layers[i].0), load,
                              map l | l in profile.release :: NamesOfStats(profile.release[l]));
  }

  lemma LogicalNonNegative(current: ModelState)
    requires PlacementOk(current)
    ensures forall name :: name in LogicalBytes(current.tensors) ==> LogicalBytes(current.tensors)[name] >= 0
  {
    TensorsOkMeans(current.tensors);
    assert forall t :: t in current.tensors ==> TensorOk(t);
  }

  lemma LoadedAreKnown(profile: Profile, logical: map<string, int>)
    requires forall item :: item in profile.load ==> StatsAgree(item.1, profile.savedNames, logical)
    ensures KnownNames(logical, NamesByLabel(profile.load))
  {
    var load := NamesByLabel(profile.load);
    forall l, name | l in load && name in AsSet(load[l]) ensures name in logical {
      var item :| item in profile.load && item.0 == l && load[l] == NamesOfStats(item.1);
      var stat :| stat in item.1 && stat.name == name;
    }
  }

  /** The most bytes of managed tensors resident at once, from what is resident at the start on. */
  ghost predicate IsStrategyPeak(peak: int, current: ModelState, profile: Profile) {
    var logical, load := LogicalBytes(current.tensors), NamesByLabel(profile.load);
    var start := Start(LayerNames(profile.layers), load, ManagedNames(profile));
    start <= logical.Keys && KnownNames(logical, load) &&
    IsPeak(peak, ResidentLevels(logical, start, seq(|profile.layers|, i requires 0 <= i < |profile.layers| => profile.layers[i].0), load,
                                map l | l in profile.release :: NamesOfStats(profile.release[l])))
  }

  /** Every loaded tensor is released somewhere, if any is. */
  predicate StrategyProfileOk(profile: Profile) {
    profile.release == map[] ||
    forall name :: name in AllLoaded(profile.load) ==>
      exists l :: l in profile.release && exists stat :: stat in profile.release[l] && stat.name == name
  }

  ghost function ManagedIds(current: ModelState, profile: Profile): set<string> {
    set id | id in StorageIds(current.storages) && Backs(current.tensors, profile.savedNames, ManagedNames(profile), id, true)
  }

  predicate ProfileUsable(current: ModelState, profile: Profile, targetDevice: Device, useShm: bool) {
    && targetDevice.Cuda? && DeviceOk(targetDevice) && OnlyDevice(current.storages, targetDevice)
    && InventoryAgrees(current, profile)
    && if profile.loader.StrategyLoader? then StrategyProfileOk(profile) else BlockProfileOk(profile, useShm)
  }

  /** What adopting asks of a profile that is consistent in itself. */
  ghost predicate AcceptedProfile(current: ModelState, profile: Profile, targetDevice: Device, useShm: bool) {
    && ProfileUsable(current, profile, targetDevice, useShm)
    && !Contradictory(current, profile.savedNames, ManagedNames(profile))
    && (profile.loader.StrategyLoader? || !SharesManagedStorage(current.tensors, ManagedIds(current, profile)))
  }

  /** Storages of managed tensors are on the host, all others on the target GPU; on the host what
      was pinned stays pinned, and the strategy loader pins everything unless told not to. */
  ghost predicate PlacesManaged(current: ModelState, profile: Profile, targetDevice: Device, pinning: Pinning,
                                target: ModelState) {
    && target.tensors == current.tensors && |target.storages| == |current.storages|
    && forall i :: 0 <= i < |current.storages| ==>
         PlacedRight(current.storages[i], current.storages[i].id in ManagedIds(current, profile), targetDevice,
                     profile.loader.StrategyLoader? && !pinning.NoPinning?, target.storages[i])
  }

  ghost predicate PlacedRight(s: StorageState, managed: bool, targetDevice: Device, pins: bool, s': StorageState) {
    && s'.id == s.id && s'.nbytes == s.nbytes && s'.device == (if managed then Cpu else targetDevice)
    && (s'.pinned <==> managed && (s.pinned || pins))
  }

  /** Each id once: under pinning by copies the storages that become pinned are copied, and block
      loaders release the homes of all managed storages. */
  ghost predicate PinsAndReleases(current: ModelState, target: ModelState, managedIds: set<string>, profile: Profile,
                                  pinning: Pinning, transition: TransitionSpec) {
    && Distinct(transition.pinningCopyIds) && Distinct(transition.releaseHostIds)
    && (forall id :: id in transition.pinningCopyIds <==> pinning.CopyPinning? && IsNewlyPinned(current, target, id))
    && (forall id :: id in transition.releaseHostIds <==>
          !profile.loader.StrategyLoader? && id in managedIds && id in StorageIds(current.storages))
    && (profile.loader.StrategyLoader? ==> transition.hostAllocations == [])
  }

  lemma ReferencesKnown(current: ModelState)
    requires PlacementOk(current)
    ensures forall t :: t in current.tensors ==> t.storageId in StorageIds(current.storages)
  {
  }

  lemma {:induction false} PackedSizeOf(load: seq<(Label, seq<Stat>)>, saved: Names, logical: map<string, int>, l: Label, stats: seq<Stat>)
    requires forall item :: item in load ==> StatsAgree(item.1, saved, logical)
    requires LoadOnce(load) && (l, stats) in load && stats != []
    ensures l in PackedSizes(load, saved, logical) && PackedSizes(load, saved, logical)[l] == PackedStats(stats, saved, logical)
  {
    hide StatsAgree, PackedStats;
    var before, item := load[..|load| - 1], load[|load| - 1];
    OtherItems(load);
    if item != (l, stats) {
      assert (l, stats) in before;
      PackedSizeOf(before, saved, logical, l, stats);
    }
  }

  /** The bytes that the code counts for a label are its size. */
  lemma {:induction false} LabelBytesAreSizes(profile: Profile, logical: map<string, int>, l: Label)
    requires forall item :: item in profile.load ==> StatsAgree(item.1, profile.savedNames, logical)
    requires LoadOnce(profile.load) && SizesAgree(profile) && l in LoadLabels(profile.load)
    ensures l in LabelBytes(profile, logical) && IsLabelSize(profile, logical, l, LabelBytes(profile, logical)[l])
  {
    var item :| item in profile.load && item.0 == l && item.1 != [];
    var stats := item.1;
    assert (l, stats) in profile.load;
    if profile.loader.RawBlockLoader? {
      LogicalSizeOf(profile.load, l, stats);
    } else {
      PackedSizeOf(profile.load, profile.savedNames, logical, l, stats);
      StatNamesKnown(stats, profile.savedNames, logical);
      PackedIsSum(NamesOfStats(stats), logical);
      NamesAreThoseOfStats(stats);
    }
  }

  lemma {:induction false} LabelsAreListed(profile: Profile)
    requires KeysOnce(profile) && OwnedOnce(profile) && BlocksHoldLabels(profile)
    ensures ListsLabels(BlockLabels(profile), profile)
    ensures forall l :: l in BlockLabels(profile) <==> l in LoadLabels(profile.load)
  {
    hide LoadLabels, AllocatedLabels, HasTensors, BlocksHoldLabels;
    LoadLabelsOnce(profile.load);
    forall l ensures l in BlockLabels(profile) <==> l in LoadLabels(profile.load) { AllocatedIsLoaded(profile, l); }
    forall l ensures l in LoadLabels(profile.load) <==> HasTensors(profile.load, l) { LoadLabelHasTensors(profile.load, l); }
  }

  lemma {:induction false} LoadLabelHasTensors(load: seq<(Label, seq<Stat>)>, l: Label)
    ensures l in LoadLabels(load) <==> HasTensors(load, l)
  {
    if l in LoadLabels(load) {
      var item :| item in load && item.0 == l && item.1 != [];
      assert (l, item.1) in load;
    }
    if HasTensors(load, l) {
      var stats :| stats != [] && (l, stats) in load;
      assert (l, stats).0 == l && (l, stats).1 != [];
    }
  }

  lemma {:induction false} AllocatedIsLoaded(profile: Profile, l: Label)
    requires BlocksHoldLabels(profile)
    ensures l in AllocatedLabels(profile.allocation) <==> l in LoadLabels(profile.load)
  {
    if l in AllocatedLabels(profile.allocation) {
      var group :| group in profile.allocation && l in group.1;
    }
    if l in LoadLabels(profile.load) {
      var group :| group in profile.allocation && l in group.1;
    }
  }

  /** The GPU bytes that the code counts are those of the blocks. */
  lemma {:induction false} GpuBytesAreBlocks(profile: Profile, logical: map<string, int>)
    requires forall item :: item in profile.load ==> StatsAgree(item.1, profile.savedNames, logical)
    requires KeysOnce(profile) && OwnedOnce(profile) && SizesAgree(profile)
    ensures IsSumOfLargest(BlockGpuBytes(profile, logical), profile.allocation, LabelBytes(profile, logical))
  {
    var bytes := LabelBytes(profile, logical);
    if profile.loader.RawBlockLoader? {
      SavedBlocksMatch(profile);
      SavedTotals(profile.blockSizes, profile.allocation, LogicalSizes(profile.load));
    }
    assert Sized(profile.allocation, bytes);
    LargestTotals(profile.allocation, bytes);
  }

  lemma {:induction false} SavedBlocksMatch(profile: Profile)
    requires KeysOnce(profile) && OwnedOnce(profile) && SizesAgree(profile)
    ensures SameBlocks(profile.blockSizes, profile.allocation, LogicalSizes(profile.load))
  {
    hide LoadLabels, AllocatedLabels, LogicalSizes, SizesAgree, OwnedOnce;
    var sizes := LogicalSizes(profile.load);
    forall block | block in profile.blockSizes ensures BlockFor(block, profile.allocation, sizes) {
      SavedBlockMatches(profile, block);
    }
    forall group | group in profile.allocation ensures HasBlock(group.0, profile.blockSizes) {
      GroupHasBlock(profile, group);
    }
    GroupsAreSized(profile);
  }

  lemma {:induction false} GroupHasBlock(profile: Profile, group: (int, seq<Label>))
    requires OwnedOnce(profile) && group in profile.allocation
    ensures HasBlock(group.0, profile.blockSizes)
  {
    hide AllocatedLabels;
    var block :| block in profile.blockSizes && block.0 == group.0;
  }

  lemma {:induction false} GroupsAreSized(profile: Profile)
    requires SizesAgree(profile)
    ensures Sized(profile.allocation, LogicalSizes(profile.load))
  {
    hide LoadLabels;
  }

  lemma {:induction false} SavedBlockMatches(profile: Profile, block: (int, int))
    requires SizesAgree(profile) && block in profile.blockSizes
    ensures BlockFor(block, profile.allocation, LogicalSizes(profile.load))
  {
    hide LoadLabels, AllocatedLabels, LogicalSizes;
    var sizes := LogicalSizes(profile.load);
    var group :| group in profile.allocation && group.0 == block.0 && block.1 == LargestOf(group.1, sizes);
    assert IsBlockOf(block, group, sizes);
  }

  lemma {:induction false} BlocksAreLabels(profile: Profile)
    requires SizesAgree(profile)
    ensures BlocksHoldLabels(profile)
  {
  }

  lemma {:induction false} LabelBytesKnown(profile: Profile, logical: map<string, int>)
    requires forall item :: item in profile.load ==> StatsAgree(item.1, profile.savedNames, logical)
    requires SizesAgree(profile)
    ensures forall l :: l in LabelBytes(profile, logical) <==> l in LoadLabels(profile.load)
  {
  }

  lemma {:induction false} BlockMemoryTaken(logical: map<string, int>, profile: Profile, pinning: Pinning, useShm: bool,
                                            transition: TransitionSpec)
    requires forall item :: item in profile.load ==> StatsAgree(item.1, profile.savedNames, logical)
    requires SizesAgree(profile) && transition.extraGpuBytes == BlockGpuBytes(profile, logical)
    requires (forall l :: l in BlockLabels(profile) ==> l in LabelBytes(profile, logical)) && transition.hostAllocations ==
               if Follows(profile, useShm) then []
               else HostAllocations(BlockLabels(profile), LabelBytes(profile, logical), CopiesBlocks(profile, pinning, useShm))
    ensures KeysOnce(profile) && OwnedOnce(profile) ==> TakesBlockMemory(logical, profile, pinning, useShm, transition)
  {
    hide LoadLabels, AllocatedLabels, LogicalSizes, SizesAgree, OwnedOnce, IsLabelSize, IsSumOfLargest, BlockGpuBytes, LabelBytes;
    if KeysOnce(profile) && OwnedOnce(profile) {
      var bytes := LabelBytes(profile, logical);
      BlocksAreLabels(profile);
      LabelsAreListed(profile);
      GpuBytesAreBlocks(profile, logical);
      LabelBytesKnown(profile, logical);
      AllLabelBytesAreSizes(profile, logical);
      AllocationsTake(bytes, logical, profile, pinning, useShm, transition);
    }
  }

  lemma {:induction false} AllLabelBytesAreSizes(profile: Profile, logical: map<string, int>)
    requires forall item :: item in profile.load ==> StatsAgree(item.1, profile.savedNames, logical)
    requires LoadOnce(profile.load) && SizesAgree(profile)
    ensures var bytes := LabelBytes(profile, logical); forall l :: l in bytes ==> IsLabelSize(profile, logical, l, bytes[l])
  {
    hide LoadLabels, LogicalSizes, SizesAgree, IsLabelSize, LabelBytes;
    LabelBytesKnown(profile, logical);
    var bytes := LabelBytes(profile, logical);
    forall l | l in bytes ensures IsLabelSize(profile, logical, l, bytes[l]) {
      LabelBytesAreSizes(profile, logical, l);
    }
  }

  lemma {:induction false} AllocationsTake(bytes: map<Label, int>, logical: map<string, int>, profile: Profile, pinning: Pinning,
                                           useShm: bool, transition: TransitionSpec)
    requires forall l :: l in bytes <==> l in BlockLabels(profile)
    requires forall l :: l in bytes ==> IsLabelSize(profile, logical, l, bytes[l])
    requires IsSumOfLargest(transition.extraGpuBytes, profile.allocation, bytes)
    requires transition.hostAllocations ==
               if Follows(profile, useShm) then [] else HostAllocations(BlockLabels(profile), bytes, CopiesBlocks(profile, pinning, useShm))
    ensures TakesFor(bytes, logical, profile, pinning, useShm, transition)
  {
    hide IsLabelSize, IsSumOfLargest, HostAllocations, BlockLabels;
  }

  method BlockTransition(current: ModelState, profile: Profile, pinning: Pinning, useShm: bool,
                         pinningIds: seq<string>, releaseIds: seq<string>)
    returns (transition: TransitionSpec)
    requires PlacementOk(current) && InventoryAgrees(current, profile) && SizesAgree(profile)
    ensures transition.pinningCopyIds == pinningIds && transition.releaseHostIds == releaseIds
    ensures transition.extraGpuBytes == BlockGpuBytes(profile, LogicalBytes(current.tensors)) >= 0
    ensures forall a :: a in transition.hostAllocations ==> a.nbytes >= 0 && a.temporaryCopyBytes >= 0
    ensures KeysOnce(profile) && OwnedOnce(profile) ==>
              TakesBlockMemory(LogicalBytes(current.tensors), profile, pinning, useShm, transition)
  {
    hide TakesBlockMemory, KeysOnce, OwnedOnce, PlacementOk, AllocatedLabels, LoadLabels, HostAllocations;
    var logical := LogicalBytes(current.tensors);
    LogicalNonNegative(current);
    LabelBytesNonNegative(profile, logical);
    BlockBytesNonNegative(profile, logical);
    var allocation := profile.loader.AllocationBlockLoader?;
    var labels := if allocation then AllocatedLabels(profile.allocation) else LoadLabels(profile.load);
    var copies := pinning.CopyPinning? && !(allocation && useShm);
    var allocations := if allocation && useShm && profile.hasShm then [] else HostAllocations(labels, LabelBytes(profile, logical), copies);
    transition := TransitionSpec(BlockGpuBytes(profile, logical), pinningIds, allocations, releaseIds);
    BlockMemoryTaken(logical, profile, pinning, useShm, transition);
  }

  lemma TargetPlaces(current: ModelState, profile: Profile, targetDevice: Device, pinning: Pinning, pins: bool,
                     r: TargetResult)
    requires r.Target? && IsTarget(r, current, profile.savedNames, ManagedNames(profile), targetDevice, pins)
    requires pins == (profile.loader.StrategyLoader? && !pinning.NoPinning?)
    ensures PlacesManaged(current, profile, targetDevice, pinning, ModelState(current.tensors, r.storages, SCHEMA_VERSION))
    ensures r.managedIds == ManagedIds(current, profile)
  {
  }

  /** The memory that the loader of the profile takes, for a target that is placed. */
  method TransitionTo(current: ModelState, target: ModelState, managedIds: set<string>, profile: Profile,
                      pinning: Pinning, useShm: bool)
    returns (transition: TransitionSpec)
    requires PlacementOk(current) && InventoryAgrees(current, profile)
    requires profile.loader.StrategyLoader? || SizesAgree(profile)
    requires |target.storages| == |current.storages|
    requires forall i :: 0 <= i < |current.storages| ==> target.storages[i].id == current.storages[i].id
    requires forall i :: 0 <= i < |current.storages| && current.storages[i].id in managedIds ==> target.storages[i].device.Cpu?
    ensures TransitionOk(current, target, transition) && BytesOk(transition, Capacity(0, 0))
    ensures PinsAndReleases(current, target, managedIds, profile, pinning, transition)
    ensures profile.loader.StrategyLoader? ==> IsStrategyPeak(transition.extraGpuBytes, current, profile)
    ensures !profile.loader.StrategyLoader? && KeysOnce(profile) && OwnedOnce(profile) ==>
              TakesBlockMemory(LogicalBytes(current.tensors), profile, pinning, useShm, transition)
  {
    hide TakesBlockMemory, KeysOnce, OwnedOnce, IsStrategyPeak, SizesAgree, InventoryAgrees;
    PinnedAnewOk(current, target);
    ManagedOnHost(current, target, managedIds);
    var pinningIds := if pinning.CopyPinning? then IdsAmong(current.storages, PinnedAnew(current.storages, target.storages)) else [];
    if profile.loader.StrategyLoader? {
      var extra := StrategyBytes(current, profile);
      transition := TransitionSpec(extra, pinningIds, [], []);
    } else {
      transition := BlockTransition(current, profile, pinning, useShm, pinningIds, IdsAmong(current.storages, managedIds));
    }
  }

  /** Planning never refuses the inputs, whatever memory there is. */
  ghost predicate AcceptedWithAnyCapacity(current: ModelState, target: ModelState, transition: TransitionSpec) {
    forall capacity: Capacity :: capacity.hostBytes >= 0 && capacity.gpuBytes >= 0 ==> InputsOk(current, target, transition, capacity)
  }

  /** The target and the transition that adopt a profile. */
  method AdoptProfile(current: ModelState, profile: Profile, targetDevice: Device, pinning: Pinning, useShm: bool)
    returns (r: AdoptionResult)
    requires PlacementOk(current)
    ensures r.Adopted? <==> AcceptedProfile(current, profile, targetDevice, useShm)
    ensures r.Adopted? ==> AcceptedWithAnyCapacity(current, r.target, r.transition)
    ensures r.Adopted? ==> PlacesManaged(current, profile, targetDevice, pinning, r.target)
    ensures r.Adopted? ==> PinsAndReleases(current, r.target, ManagedIds(current, profile), profile, pinning, r.transition)
    ensures r.Adopted? && profile.loader.StrategyLoader? ==> IsStrategyPeak(r.transition.extraGpuBytes, current, profile)
    ensures r.Adopted? && !profile.loader.StrategyLoader? && KeysOnce(profile) ==>
              TakesBlockMemory(LogicalBytes(current.tensors), profile, pinning, useShm, r.transition)
  {
    if !ProfileUsable(current, profile, targetDevice, useShm) { return Rejected; }
    ReferencesKnown(current);
    var pins := profile.loader.StrategyLoader? && !pinning.NoPinning?;
    var placed := TargetStorages(current, profile.savedNames, ManagedNames(profile), targetDevice, pins);
    if placed.ContradictoryAliases? { return Rejected; }
    TargetPlaces(current, profile, targetDevice, pinning, pins, placed);
    TargetIsOk(current, profile.savedNames, ManagedNames(profile), targetDevice, pins, placed);
    if !profile.loader.StrategyLoader? && SharesManagedStorage(current.tensors, placed.managedIds) { return Rejected; }
    var target := ModelState(current.tensors, placed.storages, SCHEMA_VERSION);
    var transition := TransitionTo(current, target, placed.managedIds, profile, pinning, useShm);
    AlwaysAccepted(current, target, transition);
    r := Adopted(target, transition);
  }

  lemma AlwaysAccepted(current: ModelState, target: ModelState, transition: TransitionSpec)
    requires PlacementOk(current) && PlacementOk(target) && StoragesMatch(current, target)
    requires TransitionOk(current, target, transition) && BytesOk(transition, Capacity(0, 0))
    ensures AcceptedWithAnyCapacity(current, target, transition)
  {
  }
}
