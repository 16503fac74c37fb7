/** Carrying out a plan: where each storage is after each move, and what memory that takes. */
module TransitionExecution {
  import opened MigrationOrder
  import opened GreedyOrder
  import opened Placement
  import opened StateTransition
  import opened TransitionPlan

  type Places = map<string, Device>

  function PlacesOf(storages: seq<StorageState>): Places {
    if storages == [] then map[]
    else
      var s := storages[|storages| - 1];
      PlacesOf(storages[..|storages| - 1])[s.id := s.device]
  }

  /** Where the storages are after the moves. */
  function After(at: Places, moves: seq<Migration>): Places {
    if moves == [] then at
    else
      var m := moves[|moves| - 1];
      After(at, moves[..|moves| - 1])[m.storageId := m.destination]
  }

  /** The bytes of all storages that are on the host, or else those on the GPU. */
  function BytesOn(storages: seq<StorageState>, at: Places, host: bool): int {
    if storages == [] then 0
    else
      var s := storages[|storages| - 1];
      BytesOn(storages[..|storages| - 1], at, host) + if s.id in at && at[s.id].Cpu? == host then s.nbytes else 0
  }

  lemma {:induction false} PlaceOf(storages: seq<StorageState>, s: StorageState)
    requires StoragesOk(storages) && s in storages
    ensures s.id in PlacesOf(storages) && PlacesOf(storages)[s.id] == s.device
  {
    var last := |storages| - 1;
    if storages[last] != s {
      EarlierStorage(storages, s);
      PlaceOf(storages[..last], s);
    }
  }

  lemma EarlierStorage(storages: seq<StorageState>, s: StorageState)
    requires StoragesOk(storages) && s in storages && s != storages[|storages| - 1]
    ensures StoragesOk(storages[..|storages| - 1]) && s in storages[..|storages| - 1]
    ensures s.id != storages[|storages| - 1].id
  {
    var last := |storages| - 1;
    var i :| 0 <= i < last && storages[i] == s;
    assert storages[i].id != storages[last].id && storages[..last][i] == s;
  }

  lemma {:induction false} PlacedStorage(storages: seq<StorageState>, id: string) returns (s: StorageState)
    requires id in PlacesOf(storages)
    ensures s in storages && s.id == id
  {
    var last := |storages| - 1;
    s := storages[last];
    if s.id != id { s := PlacedStorage(storages[..last], id); }
  }

  // ---------------------------------------------------------------------------
  // One move
  // ---------------------------------------------------------------------------

  lemma {:induction false} OthersUnchanged(storages: seq<StorageState>, at: Places, id: string, d: Device, host: bool)
    requires forall s :: s in storages ==> s.id != id
    ensures BytesOn(storages, at[id := d], host) == BytesOn(storages, at, host)
  {
    if storages != [] {
      var last := |storages| - 1;
      assert storages == storages[..last] + [storages[last]];
      OthersUnchanged(storages[..last], at, id, d, host);
    }
  }

  lemma {:induction false} MoveChangesBytes(storages: seq<StorageState>, at: Places, s: StorageState, d: Device,
                                            host: bool)
    requires StoragesOk(storages) && s in storages && s.id in at
    ensures BytesOn(storages, at[s.id := d], host) ==
            BytesOn(storages, at, host) + (if d.Cpu? == host then s.nbytes else 0) - (if at[s.id].Cpu? == host then s.nbytes else 0)
  {
    var last := |storages| - 1;
    if storages[last] == s {
      forall u | u in storages[..last] ensures u.id != s.id {
        var i :| 0 <= i < last && storages[i] == u;
        assert storages[i].id != storages[last].id;
      }
      OthersUnchanged(storages[..last], at, s.id, d, host);
    } else {
      EarlierStorage(storages, s);
      MoveChangesBytes(storages[..last], at, s, d, host);
    }
  }

  // ---------------------------------------------------------------------------
  // All moves
  // ---------------------------------------------------------------------------

  /** No storage is moved twice. */
  lemma MovedOnce(current: ModelState, target: ModelState, moves: seq<Migration>, i: nat, j: nat)
    requires StoragesOk(current.storages) && StoragesOk(target.storages) && MovesEverything(current, target, moves)
    requires i < j < |moves|
    ensures moves[i].storageId != moves[j].storageId
  {
    assert moves[i] in moves && moves[j] in moves && moves[i] != moves[j];
    var s, s' :| s in current.storages && s' in target.storages && s.id == s'.id && Moved(current, s, s', moves[i]);
    var u, u' :| u in current.storages && u' in target.storages && u.id == u'.id && Moved(current, u, u', moves[j]);
    if s.id == u.id {
      SameStorage(current.storages, s, u);
      SameStorage(target.storages, s', u');
    }
  }

  lemma SameStorage(storages: seq<StorageState>, s: StorageState, u: StorageState)
    requires StoragesOk(storages) && s in storages && u in storages && s.id == u.id
    ensures s == u
  {
    var i :| 0 <= i < |storages| && storages[i] == s;
    var j :| 0 <= j < |storages| && storages[j] == u;
  }

  lemma {:induction false} Untouched(at: Places, moves: seq<Migration>, id: string)
    requires id in at && forall k :: 0 <= k < |moves| ==> moves[k].storageId != id
    ensures id in After(at, moves) && After(at, moves)[id] == at[id]
  {
    if moves != [] { Untouched(at, moves[..|moves| - 1], id); }
  }

  lemma {:induction false} Touched(at: Places, moves: seq<Migration>, k: nat)
    requires k < |moves| && forall i, j :: 0 <= i < j < |moves| ==> moves[i].storageId != moves[j].storageId
    ensures var m := moves[k]; m.storageId in After(at, moves) && After(at, moves)[m.storageId] == m.destination
  {
    if k < |moves| - 1 { Touched(at, moves[..|moves| - 1], k); }
  }

  lemma {:induction false} SameKeys(at: Places, moves: seq<Migration>)
    requires forall m :: m in moves ==> m.storageId in at
    ensures After(at, moves).Keys == at.Keys
  {
    if moves != [] {
      assert moves == moves[..|moves| - 1] + [moves[|moves| - 1]];
      SameKeys(at, moves[..|moves| - 1]);
    }
  }

  /** Each move finds its storage where the move says it is, and is of exactly its bytes. */
  lemma MoveFindsItsSource(current: ModelState, target: ModelState, moves: seq<Migration>, k: nat)
      returns (s: StorageState, s': StorageState)
    requires StoragesOk(current.storages) && StoragesOk(target.storages) && MovesEverything(current, target, moves)
    requires k < |moves|
    ensures s in current.storages && s' in target.storages && s.id == s'.id && Moved(current, s, s', moves[k])
    ensures var at := After(PlacesOf(current.storages), moves[..k]); s.id in at && at[s.id] == moves[k].source
  {
    assert moves[k] in moves;
    s, s' :| s in current.storages && s' in target.storages && s.id == s'.id && Moved(current, s, s', moves[k]);
    PlaceOf(current.storages, s);
    forall i | 0 <= i < k ensures moves[..k][i].storageId != s.id { MovedOnce(current, target, moves, i, k); }
    Untouched(PlacesOf(current.storages), moves[..k], s.id);
  }

  /** The levels the planner counts are the bytes really on the host and on the GPU above the
      start; their sum never changes. */
  lemma {:induction false} LevelsAreBytes(current: ModelState, target: ModelState, moves: seq<Migration>, k: nat)
    requires PlacementOk(current) && PlacementOk(target) && StoragesMatch(current, target)
    requires MovesEverything(current, target, moves) && k <= |moves|
    ensures var start, at := PlacesOf(current.storages), After(PlacesOf(current.storages), moves[..k]);
            && BytesOn(current.storages, at, true) == BytesOn(current.storages, start, true) + FinalHost(moves[..k])
            && BytesOn(current.storages, at, false) == BytesOn(current.storages, start, false) - FinalHost(moves[..k])
  {
    var start := PlacesOf(current.storages);
    if k == 0 {
      assert moves[..0] == [];
    } else {
      LevelsAreBytes(current, target, moves, k - 1);
      var m, before := moves[k - 1], After(start, moves[..k - 1]);
      var s, s' := MoveFindsItsSource(current, target, moves, k - 1);
      assert StorageMayMove(s, s') && DeviceOk(s.device) && DeviceOk(s'.device);
      MoveChangesBytes(current.storages, before, s, m.destination, true);
      MoveChangesBytes(current.storages, before, s, m.destination, false);
      AfterNext(start, moves, k);
    }
  }

  lemma AfterNext(at: Places, moves: seq<Migration>, k: nat)
    requires 0 < k <= |moves|
    ensures After(at, moves[..k]) == After(at, moves[..k - 1])[moves[k - 1].storageId := moves[k - 1].destination]
    ensures FinalHost(moves[..k]) == FinalHost(moves[..k - 1]) + HostDelta(moves[k - 1])
  {
    assert moves[..k][..k - 1] == moves[..k - 1];
  }

  /** The moves in any order take the current placement to the target. */
  lemma MovesReachTarget(current: ModelState, target: ModelState, moves: seq<Migration>)
    requires PlacementOk(current) && PlacementOk(target) && StoragesMatch(current, target)
    requires MovesEverything(current, target, moves)
    ensures After(PlacesOf(current.storages), moves) == PlacesOf(target.storages)
  {
    var start, end := PlacesOf(current.storages), PlacesOf(target.storages);
    KeysOfPlaces(current.storages);
    KeysOfPlaces(target.storages);
    forall m | m in moves ensures m.storageId in start { RequiredIsPlaced(current, target, m); }
    SameKeys(start, moves);
    forall id | id in start ensures After(start, moves)[id] == end[id] {
      StorageReachesTarget(current, target, moves, id);
    }
  }

  lemma RequiredIsPlaced(current: ModelState, target: ModelState, m: Migration)
    requires StoragesOk(current.storages) && IsRequired(current, target, m)
    ensures m.storageId in PlacesOf(current.storages)
  {
    var s, s' :| s in current.storages && s' in target.storages && s.id == s'.id && Moved(current, s, s', m);
    PlaceOf(current.storages, s);
  }

  lemma KeysOfPlaces(storages: seq<StorageState>)
    requires StoragesOk(storages)
    ensures PlacesOf(storages).Keys == StorageIds(storages)
  {
    forall id | id in StorageIds(storages) ensures id in PlacesOf(storages) {
      var s :| s in storages && s.id == id;
      PlaceOf(storages, s);
    }
    forall id | id in PlacesOf(storages) ensures id in StorageIds(storages) {
      var s := PlacedStorage(storages, id);
    }
  }

  lemma StorageReachesTarget(current: ModelState, target: ModelState, moves: seq<Migration>, id: string)
    requires PlacementOk(current) && PlacementOk(target) && StoragesMatch(current, target)
    requires MovesEverything(current, target, moves) && id in PlacesOf(current.storages)
    ensures id in After(PlacesOf(current.storages), moves) && id in PlacesOf(target.storages)
    ensures After(PlacesOf(current.storages), moves)[id] == PlacesOf(target.storages)[id]
  {
    KeysOfPlaces(current.storages);
    KeysOfPlaces(target.storages);
    var s := PlacedStorage(current.storages, id);
    var s' := PlacedStorage(target.storages, id);
    PlaceOf(current.storages, s);
    PlaceOf(target.storages, s');
    if s.device != s'.device {
      assert StorageOk(s);
      MovedReachesTarget(current, target, moves, s, s');
    } else {
      forall k | 0 <= k < |moves| ensures moves[k].storageId != id {
        StaysPut(current, target, s, s', moves, k);
      }
      Untouched(PlacesOf(current.storages), moves, id);
    }
  }

  lemma MovedReachesTarget(current: ModelState, target: ModelState, moves: seq<Migration>, s: StorageState,
                           s': StorageState)
    requires StoragesOk(current.storages) && StoragesOk(target.storages) && MovesEverything(current, target, moves)
    requires s in current.storages && s' in target.storages && s.id == s'.id && s.device != s'.device && s.nbytes >= 0
    ensures s.id in After(PlacesOf(current.storages), moves)
    ensures After(PlacesOf(current.storages), moves)[s.id] == s'.device
  {
    var m := Migration(s.id, SortedNames(current.tensors, s.id), s.device, s'.device, s.nbytes);
    assert Moved(current, s, s', m) && IsRequired(current, target, m);
    var k :| 0 <= k < |moves| && moves[k] == m;
    forall i, j | 0 <= i < j < |moves| ensures moves[i].storageId != moves[j].storageId { MovedOnce(current, target, moves, i, j); }
    Touched(PlacesOf(current.storages), moves, k);
  }

  lemma StaysPut(current: ModelState, target: ModelState, s: StorageState, s': StorageState, moves: seq<Migration>,
                 k: nat)
    requires StoragesOk(current.storages) && StoragesOk(target.storages) && MovesEverything(current, target, moves)
    requires s in current.storages && s' in target.storages && s.id == s'.id && s.device == s'.device && k < |moves|
    ensures moves[k].storageId != s.id
  {
    assert moves[k] in moves;
    var u, u' :| u in current.storages && u' in target.storages && u.id == u'.id && Moved(current, u, u', moves[k]);
    if u.id == s.id {
      SameStorage(current.storages, s, u);
      SameStorage(target.storages, s', u');
    }
  }

  lemma {:induction false} LevelAt(moves: seq<Migration>, k: nat)
    requires 0 < k <= |moves|
    ensures FinalHost(moves[..k]) in MoveLevels(moves)
  {
    var last := |moves| - 1;
    if k == |moves| { assert moves[..k] == moves; } else {
      LevelAt(moves[..last], k);
      assert moves[..last][..k] == moves[..k];
    }
  }

  /** A plan carried out in order never takes more than the extra memory it was given, finds
      every storage where it expects it, and ends in the target placement. */
  lemma PlanIsSafe(current: ModelState, target: ModelState, transition: TransitionSpec, capacity: Capacity,
                   r: PlanResult)
    requires InputsOk(current, target, transition, capacity) && r.Planned?
    requires GoodPlan(current, target, transition, capacity, r)
    ensures var start := PlacesOf(current.storages);
            && After(start, r.migrations) == PlacesOf(target.storages)
            && forall k :: 0 <= k <= |r.migrations| ==>
                 PlacesSafe(current.storages, start, After(start, r.migrations[..k]), capacity)
  {
    MovesReachTarget(current, target, r.migrations);
    var start := PlacesOf(current.storages);
    forall k | 0 <= k <= |r.migrations|
      ensures PlacesSafe(current.storages, start, After(start, r.migrations[..k]), capacity)
    {
      LevelsAreBytes(current, target, r.migrations, k);
      if k > 0 {
        var levels := MoveLevels(r.migrations);
        LevelAt(r.migrations, k);
        var i :| 0 <= i < |levels| && levels[i] == FinalHost(r.migrations[..k]);
        assert Negated(levels)[i] in Negated(levels);
      } else {
        assert r.migrations[..0] == [];
      }
    }
  }

  /** What is placed takes no more than the start and the capacity, and nothing is lost. */
  ghost predicate PlacesSafe(storages: seq<StorageState>, start: Places, at: Places, capacity: Capacity) {
    && BytesOn(storages, at, true) <= BytesOn(storages, start, true) + capacity.hostBytes
    && BytesOn(storages, at, false) <= BytesOn(storages, start, false) + capacity.gpuBytes
    && BytesOn(storages, at, true) + BytesOn(storages, at, false) == BytesOn(storages, start, true) + BytesOn(storages, start, false)
  }
}
