/** Where a model's tensors and their backing storages are, and which pairs of placements a
  transition may be planned between. */
module Placement {
  import opened Timeline
  import opened MigrationOrder

  datatype TensorState = TensorState(id: string, names: seq<string>, storageId: string, logicalBytes: int, kind: string)

  datatype StorageState = StorageState(id: string, device: Device, nbytes: int, pinned: bool)

  datatype ModelState = ModelState(tensors: seq<TensorState>, storages: seq<StorageState>, schemaVersion: int)

  datatype HostAllocation = HostAllocation(nbytes: int, temporaryCopyBytes: int)

  datatype TransitionSpec = TransitionSpec(
    extraGpuBytes: int, pinningCopyIds: seq<string>, hostAllocations: seq<HostAllocation>, releaseHostIds: seq<string>)

  datatype Capacity = Capacity(hostBytes: int, gpuBytes: int)

  const SCHEMA_VERSION := 1

  predicate DeviceOk(d: Device) {
    d.Cpu? || (d.Cuda? && d.suffix != "" && forall c :: c in d.suffix ==> '0' <= c <= '9')
  }

  // ---------------------------------------------------------------------------
  // One placement
  // ---------------------------------------------------------------------------

  predicate TensorOk(t: TensorState) {
    && t.id != "" && t.storageId != "" && t.logicalBytes >= 0 && t.kind != "" && "" !in t.names
    && forall i, j :: 0 <= i < j < |t.names| ==> t.names[i] != t.names[j]
  }

  predicate StorageOk(s: StorageState) {
    s.id != "" && DeviceOk(s.device) && s.nbytes >= 0 && (s.pinned ==> s.device.Cpu?)
  }

  function NamesOf(t: TensorState): set<string> { set name | name in t.names }

  function TensorIds(tensors: seq<TensorState>): set<string> {
    if tensors == [] then {} else TensorIds(tensors[..|tensors| - 1]) + {tensors[|tensors| - 1].id}
  }

  function AllNames(tensors: seq<TensorState>): set<string> {
    if tensors == [] then {} else AllNames(tensors[..|tensors| - 1]) + NamesOf(tensors[|tensors| - 1])
  }

  function References(tensors: seq<TensorState>): (r: set<string>)
    ensures forall t :: t in tensors ==> t.storageId in r
  {
    if tensors == [] then {}
    else
      var before, last := tensors[..|tensors| - 1], tensors[|tensors| - 1];
      assert tensors == before + [last];
      References(before) + {last.storageId}
  }

  /** Each tensor is right in itself and takes neither an id nor a name of one before it. */
  ghost predicate TensorsOk(tensors: seq<TensorState>) {
    tensors == [] ||
    (var before, t := tensors[..|tensors| - 1], tensors[|tensors| - 1];
     TensorsOk(before) && TensorOk(t) && t.id !in TensorIds(before) && NamesOf(t) !! AllNames(before))
  }

  /** Two tensors share neither their id nor a name. */
  ghost predicate Apart(a: TensorState, b: TensorState) {
    a.id != b.id && NamesOf(a) !! NamesOf(b)
  }

  lemma {:induction false} ApartFromAll(before: seq<TensorState>, t: TensorState)
    ensures t.id !in TensorIds(before) && NamesOf(t) !! AllNames(before) <==> forall u :: u in before ==> Apart(u, t)
  {
    if before != [] {
      var last := |before| - 1;
      ApartFromAll(before[..last], t);
      assert before == before[..last] + [before[last]] && before[last] in before;
      assert Apart(before[last], t) <==> t.id != before[last].id && NamesOf(t) !! NamesOf(before[last]);
      hide Apart, NamesOf;
    }
  }

  ghost predicate AllApart(tensors: seq<TensorState>) {
    forall i, j :: 0 <= i < j < |tensors| ==> Apart(tensors[i], tensors[j])
  }

  lemma ApartNext(before: seq<TensorState>, t: TensorState)
    ensures AllApart(before + [t]) <==> AllApart(before) && forall u :: u in before ==> Apart(u, t)
  {
    var tensors := before + [t];
    if AllApart(tensors) {
      forall i, j | 0 <= i < j < |before| ensures Apart(before[i], before[j]) { assert Apart(tensors[i], tensors[j]); }
      forall u | u in before ensures Apart(u, t) {
        var i :| 0 <= i < |before| && before[i] == u;
        assert Apart(tensors[i], tensors[|before|]);
      }
    }
  }

  /** What accepting the tensors one after another amounts to. */
  lemma {:induction false} TensorsOkMeans(tensors: seq<TensorState>)
    ensures TensorsOk(tensors) <==> (forall t :: t in tensors ==> TensorOk(t)) && AllApart(tensors)
  {
    if tensors != [] {
      var last := |tensors| - 1;
      var before, t := tensors[..last], tensors[last];
      TensorsOkMeans(before);
      ApartFromAll(before, t);
      ApartNext(before, t);
      hide AllApart, Apart, TensorOk;
      assert tensors == before + [t];
    }
  }

  ghost predicate StoragesOk(storages: seq<StorageState>) {
    && (forall i :: 0 <= i < |storages| ==> StorageOk(storages[i]))
    && forall i, j :: 0 <= i < j < |storages| ==> storages[i].id != storages[j].id
  }

  function StorageIds(storages: seq<StorageState>): (r: set<string>)
    ensures forall i :: 0 <= i < |storages| ==> storages[i].id in r
  {
    set s | s in storages :: s.id
  }

  ghost predicate PlacementOk(state: ModelState) {
    && state.schemaVersion == SCHEMA_VERSION && TensorsOk(state.tensors) && StoragesOk(state.storages)
    && References(state.tensors) == StorageIds(state.storages)
    && forall t, s :: t in state.tensors && s in state.storages && t.storageId == s.id ==> t.logicalBytes <= s.nbytes
  }

  lemma {:induction false} BadPrefix(tensors: seq<TensorState>, n: nat)
    requires n <= |tensors| && !TensorsOk(tensors[..n])
    ensures !TensorsOk(tensors)
  {
    if n < |tensors| {
      assert tensors[..|tensors| - 1][..n] == tensors[..n];
      BadPrefix(tensors[..|tensors| - 1], n);
    } else {
      assert tensors[..n] == tensors;
    }
  }

  method ValidateTensors(tensors: seq<TensorState>) returns (ok: bool, referenced: set<string>)
    ensures ok <==> TensorsOk(tensors)
    ensures ok ==> referenced == References(tensors)
  {
    var ids, names: set<string> := {}, {};
    referenced := {};
    for i := 0 to |tensors|
      invariant TensorsOk(tensors[..i]) && ids == TensorIds(tensors[..i]) && names == AllNames(tensors[..i])
      invariant referenced == References(tensors[..i])
    {
      var t := tensors[i];
      assert tensors[..i + 1][..i] == tensors[..i];
      if t.id in ids || !(NamesOf(t) !! names) || !TensorOk(t) {
        BadPrefix(tensors, i + 1);
        return false, {};
      }
      ids, names, referenced := ids + {t.id}, names + NamesOf(t), referenced + {t.storageId};
    }
    assert tensors[..|tensors|] == tensors;
    ok := true;
  }

  method ValidateStorages(storages: seq<StorageState>) returns (ok: bool, byId: map<string, StorageState>)
    ensures ok <==> StoragesOk(storages)
    ensures ok ==> IndexesStorages(byId, storages)
  {
    byId := map[];
    for i := 0 to |storages|
      invariant StoragesOk(storages[..i]) && IndexesStorages(byId, storages[..i])
    {
      var s := storages[i];
      if s.id in byId || !StorageOk(s) {
        assert s.id in byId ==> exists k :: 0 <= k < i && storages[k].id == s.id;
        return false, map[];
      }
      assert storages[..i + 1] == storages[..i] + [s];
      byId := byId[s.id := s];
    }
    assert storages[..|storages|] == storages;
    ok := true;
  }

  /** The dict from ids to storages. */
  ghost predicate IndexesStorages(byId: map<string, StorageState>, storages: seq<StorageState>) {
    && (forall s :: s in storages ==> s.id in byId && byId[s.id] == s)
    && forall id :: id in byId ==> byId[id] in storages && byId[id].id == id
  }

  lemma IndexKeys(byId: map<string, StorageState>, storages: seq<StorageState>)
    requires IndexesStorages(byId, storages)
    ensures byId.Keys == StorageIds(storages)
  {
  }

  method ValidateModelState(state: ModelState) returns (ok: bool, byId: map<string, StorageState>)
    ensures ok <==> PlacementOk(state)
    ensures ok ==> IndexesStorages(byId, state.storages)
  {
    byId := map[];
    if state.schemaVersion != SCHEMA_VERSION { return false, map[]; }
    var tensorsOk, referenced := ValidateTensors(state.tensors);
    if !tensorsOk { return false, map[]; }
    var storagesOk;
    storagesOk, byId := ValidateStorages(state.storages);
    if !storagesOk { return false, map[]; }
    IndexKeys(byId, state.storages);
    if referenced != byId.Keys { return false, map[]; }
    for i := 0 to |state.tensors|
      invariant forall k :: 0 <= k < i ==> state.tensors[k].logicalBytes <= byId[state.tensors[k].storageId].nbytes
    {
      var t := state.tensors[i];
      assert t.storageId in referenced;
      if t.logicalBytes > byId[t.storageId].nbytes { return false, map[]; }
    }
    ok := true;
  }

  // ---------------------------------------------------------------------------
  // A transition between two placements
  // ---------------------------------------------------------------------------

  /** One storage may go from placement s to placement s'. */
  predicate StorageMayMove(s: StorageState, s': StorageState) {
    && s.nbytes == s'.nbytes
    && !(s.pinned && s.device == s'.device && !s'.pinned)
    && !(s.device != s'.device && s.device.Cuda? && s'.device.Cuda?)
  }

  predicate NewlyPinned(s: StorageState, s': StorageState) { !s.pinned && s'.pinned }

  ghost predicate SameTensors(a: seq<TensorState>, b: seq<TensorState>) {
    forall t :: t in a <==> t in b
  }

  ghost predicate OneCudaDevice(storages: seq<StorageState>) {
    forall s, s' :: s in storages && s' in storages && s.device.Cuda? && s'.device.Cuda? ==> s.device == s'.device
  }

  ghost predicate BytesOk(transition: TransitionSpec, capacity: Capacity) {
    && capacity.hostBytes >= 0 && capacity.gpuBytes >= 0 && transition.extraGpuBytes >= 0
    && forall a :: a in transition.hostAllocations ==> a.nbytes >= 0 && a.temporaryCopyBytes >= 0
  }

  /** The storages are the same, and each may move. */
  ghost predicate StoragesMatch(current: ModelState, target: ModelState) {
    && SameTensors(current.tensors, target.tensors)
    && StorageIds(current.storages) == StorageIds(target.storages)
    && (forall s, s' :: s in current.storages && s' in target.storages && s.id == s'.id ==> StorageMayMove(s, s'))
    && OneCudaDevice(current.storages + target.storages)
  }

  /** The memory that building the loader takes and frees is well described. */
  ghost predicate TransitionOk(current: ModelState, target: ModelState, transition: TransitionSpec) {
    && Distinct(transition.pinningCopyIds) && Distinct(transition.releaseHostIds)
    && (forall id :: id in transition.pinningCopyIds ==> IsNewlyPinned(current, target, id))
    && forall id :: id in transition.releaseHostIds ==> IsOnHost(target, id)
  }

  /** What planning accepts. */
  ghost predicate InputsOk(current: ModelState, target: ModelState, transition: TransitionSpec, capacity: Capacity) {
    && PlacementOk(current) && PlacementOk(target) && StoragesMatch(current, target)
    && BytesOk(transition, capacity) && TransitionOk(current, target, transition)
  }

  ghost predicate IsNewlyPinned(current: ModelState, target: ModelState, id: string) {
    exists s, s' :: s in current.storages && s' in target.storages && s.id == s'.id == id && NewlyPinned(s, s')
  }

  ghost predicate IsOnHost(target: ModelState, id: string) {
    exists s :: s in target.storages && s.id == id && s.device.Cpu?
  }

  method CheckStorages(storages: seq<StorageState>, targetById: map<string, StorageState>) returns (ok: bool)
    requires forall s :: s in storages ==> s.id in targetById
    ensures ok <==> forall s :: s in storages ==> StorageMayMove(s, targetById[s.id])
  {
    for i := 0 to |storages|
      invariant forall k :: 0 <= k < i ==> StorageMayMove(storages[k], targetById[storages[k].id])
    {
      assert storages[i] in storages;
      if !StorageMayMove(storages[i], targetById[storages[i].id]) { return false; }
    }
    ok := true;
  }

  predicate AllDifferent(ids: seq<string>)
    ensures AllDifferent(ids) <==> Distinct(ids)
  {
    forall i, j :: 0 <= i < j < |ids| ==> ids[i] != ids[j]
  }

  method ValidateTransitionInputs(current: ModelState, target: ModelState, transition: TransitionSpec,
                                  capacity: Capacity)
    returns (ok: bool, currentById: map<string, StorageState>, targetById: map<string, StorageState>)
    ensures ok <==> InputsOk(current, target, transition, capacity)
    ensures ok ==> IndexesStorages(currentById, current.storages) && IndexesStorages(targetById, target.storages)
  {
    ok, currentById := ValidateModelState(current);
    if !ok { return false, map[], map[]; }
    ok, targetById := ValidateModelState(target);
    if !ok { return false, map[], map[]; }
    IndexKeys(currentById, current.storages);
    IndexKeys(targetById, target.storages);
    ok := CheckInventory(current, target, currentById, targetById);
    if !ok { return; }
    ok := capacity.hostBytes >= 0 && capacity.gpuBytes >= 0 && transition.extraGpuBytes >= 0 &&
          (forall a :: a in transition.hostAllocations ==> a.nbytes >= 0 && a.temporaryCopyBytes >= 0);
    if !ok { return; }
    ok := CheckTransition(current, target, transition, currentById, targetById);
  }

  method CheckInventory(current: ModelState, target: ModelState, currentById: map<string, StorageState>,
                        targetById: map<string, StorageState>)
    returns (ok: bool)
    requires IndexesStorages(currentById, current.storages) && IndexesStorages(targetById, target.storages)
    ensures ok <==> StoragesMatch(current, target)
  {
    IndexKeys(currentById, current.storages);
    IndexKeys(targetById, target.storages);
    ok := (forall t :: t in current.tensors ==> t in target.tensors) &&
          (forall t :: t in target.tensors ==> t in current.tensors) && currentById.Keys == targetById.Keys;
    if !ok { return; }
    ok := CheckStorages(current.storages, targetById);
    if !ok { return; }
    var storages := current.storages + target.storages;
    ok := forall s :: s in storages ==> forall s' :: s' in storages && s.device.Cuda? && s'.device.Cuda? ==> s.device == s'.device;
  }

  method CheckTransition(current: ModelState, target: ModelState, transition: TransitionSpec,
                         currentById: map<string, StorageState>, targetById: map<string, StorageState>)
    returns (ok: bool)
    requires IndexesStorages(currentById, current.storages) && IndexesStorages(targetById, target.storages)
    requires currentById.Keys == targetById.Keys
    ensures ok <==> TransitionOk(current, target, transition)
  {
    ok := AllDifferent(transition.pinningCopyIds) && AllDifferent(transition.releaseHostIds) &&
          (forall id :: id in transition.pinningCopyIds ==> id in currentById && NewlyPinned(currentById[id], targetById[id])) &&
          (forall id :: id in transition.releaseHostIds ==> id in targetById && targetById[id].device.Cpu?);
    IdsDecide(current, target, currentById, targetById);
  }

  /** What the dicts say about an id is what the placements say. */
  lemma IdsDecide(current: ModelState, target: ModelState, currentById: map<string, StorageState>,
                  targetById: map<string, StorageState>)
    requires IndexesStorages(currentById, current.storages) && IndexesStorages(targetById, target.storages)
    requires currentById.Keys == targetById.Keys
    ensures forall id :: IsNewlyPinned(current, target, id) <==> id in currentById && NewlyPinned(currentById[id], targetById[id])
    ensures forall id :: IsOnHost(target, id) <==> id in targetById && targetById[id].device.Cpu?
  {
    forall id
      ensures IsNewlyPinned(current, target, id) <==> id in currentById && NewlyPinned(currentById[id], targetById[id])
      ensures IsOnHost(target, id) <==> id in targetById && targetById[id].device.Cpu?
    {
      if id in currentById {
        var s, s' := currentById[id], targetById[id];
        assert s in current.storages && s' in target.storages && s.id == s'.id == id;
      }
    }
  }
}
