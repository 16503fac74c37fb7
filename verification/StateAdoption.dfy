/** From a saved profile to the placement it wants and the memory that reaching it takes. */
module StateAdoption {
  import opened Timeline
  import opened MigrationOrder
  import opened Placement

  datatype Stat = Stat(name: string, sizeBytes: int)

  datatype LoaderKind = StrategyLoader | AllocationBlockLoader | RawBlockLoader

  datatype Pinning = NoPinning | CopyPinning | InPlacePinning

  /** The saved profile; a dict whose order matters is a list of its items. */
  datatype Profile = Profile(
    loader: LoaderKind, savedNames: set<string>, load: seq<(Label, seq<Stat>)>, release: map<Label, seq<Stat>>,
    layers: seq<(Label, seq<Stat>)>, viewNames: set<string>, labelSizes: map<Label, int>, blockSizes: seq<(int, int)>,
    allocation: seq<(int, seq<Label>)>, shmLabels: set<Label>, hasShm: bool)

  // ---------------------------------------------------------------------------
  // The target placement
  // ---------------------------------------------------------------------------

  predicate InProfile(t: TensorState, saved: set<string>) { exists name :: name in t.names && name in saved }

  predicate Managed(t: TensorState, saved: set<string>, managed: set<string>) {
    exists name :: name in t.names && name in saved && name in managed
  }

  /** Some tensor of this storage is in the profile and is managed, or else is not. */
  ghost predicate Backs(tensors: seq<TensorState>, saved: set<string>, managed: set<string>, id: string,
                        isManaged: bool) {
    exists t :: t in tensors && t.storageId == id && InProfile(t, saved) && Managed(t, saved, managed) == isManaged
  }

  ghost predicate Contradictory(current: ModelState, saved: set<string>, managed: set<string>) {
    exists id :: id in StorageIds(current.storages) &&
                 Backs(current.tensors, saved, managed, id, true) && Backs(current.tensors, saved, managed, id, false)
  }

  /** What the tensors so far ask of each storage. */
  ghost predicate Asked(destinations: map<string, set<Device>>, storages: seq<StorageState>, tensors: seq<TensorState>,
                        saved: set<string>, managed: set<string>, targetDevice: Device) {
    destinations.Keys == StorageIds(storages) && forall id :: id in destinations ==>
      destinations[id] == (if Backs(tensors, saved, managed, id, true) then {Cpu} else {}) +
                          (if Backs(tensors, saved, managed, id, false) then {targetDevice} else {})
  }

  lemma BacksNext(tensors: seq<TensorState>, t: TensorState, saved: set<string>, managed: set<string>, id: string,
                  isManaged: bool)
    ensures Backs(tensors + [t], saved, managed, id, isManaged) <==>
              Backs(tensors, saved, managed, id, isManaged) ||
              (t.storageId == id && InProfile(t, saved) && Managed(t, saved, managed) == isManaged)
  {
    var all := tensors + [t];
    assert t in all;
    if Backs(tensors, saved, managed, id, isManaged) {
      var u :| u in tensors && u.storageId == id && InProfile(u, saved) && Managed(u, saved, managed) == isManaged;
      assert u in all;
    }
  }

  function Ask(destinations: map<string, set<Device>>, t: TensorState, saved: set<string>, managed: set<string>,
               targetDevice: Device)
    : map<string, set<Device>>
    requires t.storageId in destinations
  {
    if InProfile(t, saved)
    then destinations[t.storageId := destinations[t.storageId] + {if Managed(t, saved, managed) then Cpu else targetDevice}]
    else destinations
  }

  lemma AskedNext(destinations: map<string, set<Device>>, storages: seq<StorageState>, tensors: seq<TensorState>,
                  t: TensorState,
                  saved: set<string>, managed: set<string>, targetDevice: Device)
    requires Asked(destinations, storages, tensors, saved, managed, targetDevice) && t.storageId in destinations
    ensures Asked(Ask(destinations, t, saved, managed, targetDevice), storages, tensors + [t], saved, managed, targetDevice)
  {
    forall id, isManaged: bool
      ensures Backs(tensors + [t], saved, managed, id, isManaged) <==>
                Backs(tensors, saved, managed, id, isManaged) ||
                (t.storageId == id && InProfile(t, saved) && Managed(t, saved, managed) == isManaged)
    {
      BacksNext(tensors, t, saved, managed, id, isManaged);
    }
  }

  method Destinations(storages: seq<StorageState>, tensors: seq<TensorState>, saved: set<string>,
                      managed: set<string>, targetDevice: Device)
    returns (destinations: map<string, set<Device>>)
    requires forall t :: t in tensors ==> t.storageId in StorageIds(storages)
    ensures Asked(destinations, storages, tensors, saved, managed, targetDevice)
  {
    destinations := map id | id in StorageIds(storages) :: {};
    ghost var done: seq<TensorState> := [];
    for i := 0 to |tensors|
      invariant done == tensors[..i] && Asked(destinations, storages, done, saved, managed, targetDevice)
    {
      var t := tensors[i];
      AskedNext(destinations, storages, done, t, saved, managed, targetDevice);
      destinations := Ask(destinations, t, saved, managed, targetDevice);
      done := done + [t];
    }
  }

  function PlacedAt(s: StorageState, onHost: bool, targetDevice: Device, pins: bool): StorageState {
    if onHost then s.(device := Cpu, pinned := s.pinned || pins) else s.(device := targetDevice, pinned := false)
  }

  method PlaceAll(storages: seq<StorageState>, destinations: map<string, set<Device>>, targetDevice: Device, pins: bool)
    returns (r: seq<StorageState>)
    requires destinations.Keys == StorageIds(storages)
    ensures |r| == |storages|
    ensures forall i :: 0 <= i < |storages| ==>
      storages[i].id in destinations && r[i] == PlacedAt(storages[i], Cpu in destinations[storages[i].id], targetDevice, pins)
  {
    r := [];
    for i := 0 to |storages|
      invariant |r| == i && forall k :: 0 <= k < i ==>
        storages[k].id in destinations && r[k] == PlacedAt(storages[k], Cpu in destinations[storages[k].id], targetDevice, pins)
    {
      var s := storages[i];
      r := r + [PlacedAt(s, Cpu in destinations[s.id], targetDevice, pins)];
    }
  }

  datatype TargetResult = Target(storages: seq<StorageState>, managedIds: set<string>) | ContradictoryAliases

  /** Storages of managed tensors go to the host and all others to the GPU. */
  ghost predicate IsTarget(r: TargetResult, current: ModelState, saved: set<string>, managed: set<string>,
                           targetDevice: Device, pins: bool)
    requires r.Target?
  {
    && |r.storages| == |current.storages|
    && (forall i :: 0 <= i < |current.storages| ==>
          r.storages[i] == PlacedAt(current.storages[i], Backs(current.tensors, saved, managed, current.storages[i].id, true), targetDevice, pins))
    && (forall id :: id in r.managedIds <==> id in StorageIds(current.storages) && Backs(current.tensors, saved, managed, id, true))
  }

  function Fill(destinations: map<string, set<Device>>, targetDevice: Device): map<string, set<Device>> {
    map id | id in destinations :: if destinations[id] == {} then {targetDevice} else destinations[id]
  }

  /** Two destinations mean a contradiction; otherwise the host is asked for by managed tensors. */
  lemma Filled(destinations: map<string, set<Device>>, storages: seq<StorageState>, tensors: seq<TensorState>,
               saved: set<string>, managed: set<string>, targetDevice: Device, id: string)
    requires Asked(destinations, storages, tensors, saved, managed, targetDevice) && targetDevice.Cuda?
    requires id in destinations
    ensures var d := Fill(destinations, targetDevice)[id];
            && (Cpu in d <==> Backs(tensors, saved, managed, id, true))
            && (Cpu in d && targetDevice in d <==> Backs(tensors, saved, managed, id, true) && Backs(tensors, saved, managed, id, false))
  {
  }

  /** Fails exactly when one storage backs a managed tensor and one that must stay on the GPU. */
  method TargetStorages(current: ModelState, saved: set<string>, managed: set<string>, targetDevice: Device, pins: bool)
    returns (r: TargetResult)
    requires (forall t :: t in current.tensors ==> t.storageId in StorageIds(current.storages)) && targetDevice.Cuda?
    ensures r.ContradictoryAliases? <==> Contradictory(current, saved, managed)
    ensures r.Target? ==> IsTarget(r, current, saved, managed, targetDevice, pins)
  {
    var asked := Destinations(current.storages, current.tensors, saved, managed, targetDevice);
    var destinations := Fill(asked, targetDevice);
    forall id | id in asked
      ensures Cpu in destinations[id] <==> Backs(current.tensors, saved, managed, id, true)
      ensures Cpu in destinations[id] && targetDevice in destinations[id] <==>
                Backs(current.tensors, saved, managed, id, true) && Backs(current.tensors, saved, managed, id, false)
    {
      Filled(asked, current.storages, current.tensors, saved, managed, targetDevice, id);
    }
    var contradictory := exists id :: id in destinations && Cpu in destinations[id] && targetDevice in destinations[id];
    if contradictory { return ContradictoryAliases; }
    var managedIds := set id | id in destinations && Cpu in destinations[id];
    var storages := PlaceAll(current.storages, destinations, targetDevice, pins);
    r := Target(storages, managedIds);
  }
}
