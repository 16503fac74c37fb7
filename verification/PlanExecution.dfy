/** Carrying out a whole transition step by step: the moves, the GPU blocks, the copies made for
  pinning, the loader's host blocks and the release of the homes they replace. */
module PlanExecution {
  import opened Timeline
  import opened MigrationOrder
  import opened GreedyOrder
  import opened Placement
  import opened StateTransition
  import opened TransitionPlan
  import opened TransitionExecution

  /** Where the storages are, the bytes of the loader's host blocks, a copy being made on the
      host, and the bytes of the loader's GPU blocks. */
  datatype Memory = Memory(at: Places, blocks: int, temporary: int, gpuBlocks: int)

  datatype Step =
    | Migrate(m: Migration)
    | TakeGpuBlocks(nbytes: int)
    | CopyToPin(id: string)
    | Build(a: HostAllocation)
    | CopyDone
    | Release(id: string)

  /** Pinning copies a storage beside its home; building a block may copy into it. */
  function Take(storages: seq<StorageState>, mem: Memory, step: Step): Memory {
    match step
    case Migrate(m) => mem.(at := mem.at[m.storageId := m.destination])
    case TakeGpuBlocks(nbytes) => mem.(gpuBlocks := mem.gpuBlocks + nbytes)
    case CopyToPin(id) => mem.(temporary := SizeOf(storages, id))
    case Build(a) => mem.(blocks := mem.blocks + a.nbytes, temporary := a.temporaryCopyBytes)
    case CopyDone => mem.(temporary := 0)
    case Release(id) => mem.(at := mem.at - {id})
  }

  function Run(storages: seq<StorageState>, mem: Memory, steps: seq<Step>): Memory {
    if steps == [] then mem
    else Take(storages, Run(storages, mem, steps[..|steps| - 1]), steps[|steps| - 1])
  }

  /** The bytes held on the host, or else on the GPU. */
  function Held(storages: seq<StorageState>, mem: Memory, host: bool): int {
    BytesOn(storages, mem.at, host) + if host then mem.blocks + mem.temporary else mem.gpuBlocks
  }

  function Migrations(moves: seq<Migration>): seq<Step> {
    if moves == [] then [] else Migrations(moves[..|moves| - 1]) + [Migrate(moves[|moves| - 1])]
  }

  function PinSteps(ids: seq<string>): seq<Step> {
    if ids == [] then [] else PinSteps(ids[..|ids| - 1]) + [CopyToPin(ids[|ids| - 1]), CopyDone]
  }

  function BuildSteps(allocations: seq<HostAllocation>): seq<Step> {
    if allocations == [] then []
    else BuildSteps(allocations[..|allocations| - 1]) + [Build(allocations[|allocations| - 1]), CopyDone]
  }

  function ReleaseSteps(ids: seq<string>): seq<Step> {
    if ids == [] then [] else ReleaseSteps(ids[..|ids| - 1]) + [Release(ids[|ids| - 1])]
  }

  /** What comes after the moves. */
  function Construction(transition: TransitionSpec): seq<Step> {
    [TakeGpuBlocks(transition.extraGpuBytes)] + PinSteps(transition.pinningCopyIds) +
    BuildSteps(transition.hostAllocations) + ReleaseSteps(transition.releaseHostIds)
  }

  function Script(moves: seq<Migration>, transition: TransitionSpec): seq<Step> {
    Migrations(moves) + Construction(transition)
  }

  function Start(current: ModelState): Memory { Memory(PlacesOf(current.storages), 0, 0, 0) }

  // ---------------------------------------------------------------------------
  // What is promised of a run
  // ---------------------------------------------------------------------------

  /** The bytes held above the start after k steps. */
  function Extra(storages: seq<StorageState>, mem: Memory, steps: seq<Step>, k: nat, host: bool): int
    requires k <= |steps|
  {
    Held(storages, Run(storages, mem, steps[..k]), host) - Held(storages, mem, host)
  }

  /** After no step is more held than the start and the capacity. */
  ghost predicate StaysWithin(storages: seq<StorageState>, mem: Memory, steps: seq<Step>, capacity: Capacity) {
    forall k: nat :: k <= |steps| ==>
      Extra(storages, mem, steps, k, true) <= capacity.hostBytes && Extra(storages, mem, steps, k, false) <= capacity.gpuBytes
  }

  /** `peak` is the most held above the start after any of the steps from the n-th on. */
  ghost predicate IsMostHeld(peak: int, storages: seq<StorageState>, mem: Memory, steps: seq<Step>, n: nat, host: bool) {
    && (forall k: nat :: n <= k <= |steps| ==> Extra(storages, mem, steps, k, host) <= peak)
    && (exists k: nat :: n <= k <= |steps| && Extra(storages, mem, steps, k, host) == peak)
  }

  // ---------------------------------------------------------------------------
  // Levels
  // ---------------------------------------------------------------------------

  /** The bytes held after each step, above `zero`. */
  function Levels(storages: seq<StorageState>, mem: Memory, steps: seq<Step>, host: bool, zero: int): (r: seq<int>)
    ensures |r| == |steps|
  {
    if steps == [] then []
    else
      Levels(storages, mem, steps[..|steps| - 1], host, zero) + [Held(storages, Run(storages, mem, steps), host) - zero]
  }

  lemma {:induction false} LevelAfter(storages: seq<StorageState>, mem: Memory, steps: seq<Step>, host: bool, k: nat)
    requires 0 < k <= |steps|
    ensures Levels(storages, mem, steps, host, Held(storages, mem, host))[k - 1] == Extra(storages, mem, steps, k, host)
  {
    var last := |steps| - 1;
    if k == |steps| {
      assert steps[..k] == steps;
    } else {
      LevelAfter(storages, mem, steps[..last], host, k);
      assert steps[..last][..k] == steps[..k];
    }
  }

  lemma {:induction false} RunConcat(storages: seq<StorageState>, mem: Memory, a: seq<Step>, b: seq<Step>)
    ensures Run(storages, mem, a + b) == Run(storages, Run(storages, mem, a), b)
  {
    if b == [] {
      assert a + b == a;
    } else {
      var last := |b| - 1;
      RunConcat(storages, mem, a, b[..last]);
      assert (a + b)[..|a + b| - 1] == a + b[..last];
    }
  }

  lemma {:induction false} LevelsConcat(storages: seq<StorageState>, mem: Memory, a: seq<Step>, b: seq<Step>,
                                        host: bool, zero: int)
    ensures Levels(storages, mem, a + b, host, zero) ==
            Levels(storages, mem, a, host, zero) + Levels(storages, Run(storages, mem, a), b, host, zero)
  {
    if b == [] {
      assert a + b == a;
    } else {
      var last := |b| - 1;
      LevelsConcat(storages, mem, a, b[..last], host, zero);
      RunConcat(storages, mem, a, b);
      assert (a + b)[..|a + b| - 1] == a + b[..last];
    }
  }

  ghost predicate AtMostSome(w: int, floor: int, levels: seq<int>) {
    w <= floor || exists v :: v in levels && w <= v
  }

  /** Every counted level is held, and nothing held is above all counted levels and the floor. */
  ghost predicate Covers(floor: int, held: seq<int>, counted: seq<int>) {
    && (forall v :: v in counted ==> v in held)
    && forall w :: w in held ==> AtMostSome(w, floor, counted)
  }

  lemma {:induction false} CoversBoth(floor: int, held: seq<int>, held': seq<int>, counted: seq<int>, counted': seq<int>)
    requires Covers(floor, held, counted) && Covers(floor, held', counted')
    ensures Covers(floor, held + held', counted + counted')
  {
    forall w | w in held + held' ensures AtMostSome(w, floor, counted + counted') {
      if w > floor {
        var v :| (v in counted || v in counted') && w <= v;
        assert v in counted + counted';
      }
    }
  }

  lemma {:induction false} CoversFrom(floor: int, held: seq<int>, counted: seq<int>, held': seq<int>, counted': seq<int>, floor': int)
    requires Covers(floor, held, counted) && Covers(floor', held', counted') && AtMostSome(floor', floor, counted)
    ensures Covers(floor, held + held', counted + counted')
  {
    forall w | w in held + held' ensures AtMostSome(w, floor, counted + counted') {
      if w in held && w > floor {
        var v :| v in counted && w <= v;
        assert v in counted + counted';
      } else if w in held' && w > floor' {
        var v :| v in counted' && w <= v;
        assert v in counted + counted';
      } else if floor' > floor {
        var v :| v in counted && floor' <= v;
        assert v in counted + counted';
      }
    }
  }

  // ---------------------------------------------------------------------------
  // The parts of the script
  // ---------------------------------------------------------------------------

  /** The moves are made, and what they take is what is counted. */
  ghost predicate MigratesAsCounted(current: ModelState, moves: seq<Migration>) {
    var mem, steps := Start(current), Migrations(moves);
    && Run(current.storages, mem, steps) == mem.(at := After(mem.at, moves))
    && Levels(current.storages, mem, steps, true, Held(current.storages, mem, true)) == MoveLevels(moves)
    && Levels(current.storages, mem, steps, false, Held(current.storages, mem, false)) == Negated(MoveLevels(moves))
  }

  lemma {:induction false} MigrationLevels(current: ModelState, target: ModelState, moves: seq<Migration>, k: nat)
    requires PlacementOk(current) && PlacementOk(target) && StoragesMatch(current, target)
    requires MovesEverything(current, target, moves) && k <= |moves|
    ensures MigratesAsCounted(current, moves[..k])
  {
    if k == 0 {
      assert moves[..0] == [];
    } else {
      MigrationLevels(current, target, moves, k - 1);
      LevelsAreBytes(current, target, moves, k);
      hide MigratesAsCounted;
      assert moves[..k][..k - 1] == moves[..k - 1];
      NextMigration(current, moves[..k]);
    }
  }

  lemma {:induction false} NextMigration(current: ModelState, moves: seq<Migration>)
    requires moves != [] && MigratesAsCounted(current, moves[..|moves| - 1])
    requires var start, at := PlacesOf(current.storages), After(PlacesOf(current.storages), moves);
             && BytesOn(current.storages, at, true) == BytesOn(current.storages, start, true) + FinalHost(moves)
             && BytesOn(current.storages, at, false) == BytesOn(current.storages, start, false) - FinalHost(moves)
    ensures MigratesAsCounted(current, moves)
  {
    var steps, last := Migrations(moves), |moves| - 1;
    assert steps[..|steps| - 1] == Migrations(moves[..last]);
    assert Negated(MoveLevels(moves)) == Negated(MoveLevels(moves[..last])) + [-FinalHost(moves)];
  }

  /** Two steps, the second of which ends a copy. */
  lemma {:induction false} CopyLevels(storages: seq<StorageState>, mem: Memory, steps: seq<Step>, step: Step, host: bool, zero: int)
    ensures var before := Run(storages, mem, steps);
            var during := Take(storages, before, step);
            && Run(storages, mem, steps + [step, CopyDone]) == Take(storages, during, CopyDone)
            && Levels(storages, mem, steps + [step, CopyDone], host, zero) ==
                 Levels(storages, mem, steps, host, zero) +
                 [Held(storages, during, host) - zero, Held(storages, Take(storages, during, CopyDone), host) - zero]
  {
    var one, two := steps + [step], steps + [step, CopyDone];
    assert two[..|two| - 1] == one && one[..|one| - 1] == steps;
  }

  lemma {:induction false} PinStepLevels(storages: seq<StorageState>, mem: Memory, ids: seq<string>, base: int, zero: int)
    requires mem.temporary == 0 && Held(storages, mem, true) - zero == base
    ensures Run(storages, mem, PinSteps(ids)) == mem
    ensures Covers(base, Levels(storages, mem, PinSteps(ids), true, zero), PinLevels(storages, ids, base))
  {
    if ids != [] {
      PinStepLevels(storages, mem, ids[..|ids| - 1], base, zero);
      NextPin(storages, mem, ids, base, zero);
    }
  }

  lemma {:induction false} NextPin(storages: seq<StorageState>, mem: Memory, ids: seq<string>, base: int, zero: int)
    requires mem.temporary == 0 && Held(storages, mem, true) - zero == base && ids != []
    requires Run(storages, mem, PinSteps(ids[..|ids| - 1])) == mem
    requires Covers(base, Levels(storages, mem, PinSteps(ids[..|ids| - 1]), true, zero), PinLevels(storages, ids[..|ids| - 1], base))
    ensures Run(storages, mem, PinSteps(ids)) == mem
    ensures Covers(base, Levels(storages, mem, PinSteps(ids), true, zero), PinLevels(storages, ids, base))
  {
    hide Covers, Run, Levels;
    var before, id := ids[..|ids| - 1], ids[|ids| - 1];
    CopyLevels(storages, mem, PinSteps(before), CopyToPin(id), true, zero);
    var level := base + SizeOf(storages, id);
    CoversPair(base, level, base);
    CoversBoth(base, Levels(storages, mem, PinSteps(before), true, zero), [level, base], PinLevels(storages, before, base), [level]);
  }

  lemma {:induction false} CoversPair(floor: int, level: int, after: int)
    requires after <= floor || after <= level
    ensures Covers(floor, [level, after], [level])
  {
    assert level in [level];
  }

  lemma {:induction false} BuildStepLevels(storages: seq<StorageState>, mem: Memory, allocations: seq<HostAllocation>,
                                           base: int, zero: int)
    requires mem.temporary == 0 && Held(storages, mem, true) - zero == base
    requires forall a :: a in allocations ==> a.nbytes >= 0 && a.temporaryCopyBytes >= 0
    ensures Run(storages, mem, BuildSteps(allocations)) == mem.(blocks := mem.blocks + Retained(allocations))
    ensures Covers(base, Levels(storages, mem, BuildSteps(allocations), true, zero), AllocationLevels(allocations, base))
    ensures AtMostSome(base + Retained(allocations), base, AllocationLevels(allocations, base))
  {
    if allocations != [] {
      assert forall b :: b in allocations[..|allocations| - 1] ==> b in allocations;
      assert allocations[|allocations| - 1] in allocations;
      BuildStepLevels(storages, mem, allocations[..|allocations| - 1], base, zero);
      NextBuild(storages, mem, allocations, base, zero);
    }
  }

  lemma {:induction false} NextBuild(storages: seq<StorageState>, mem: Memory, allocations: seq<HostAllocation>, base: int, zero: int)
    requires mem.temporary == 0 && Held(storages, mem, true) - zero == base && allocations != []
    requires allocations[|allocations| - 1].temporaryCopyBytes >= 0
    requires var before := allocations[..|allocations| - 1];
             && Run(storages, mem, BuildSteps(before)) == mem.(blocks := mem.blocks + Retained(before))
             && Covers(base, Levels(storages, mem, BuildSteps(before), true, zero), AllocationLevels(before, base))
    ensures Run(storages, mem, BuildSteps(allocations)) == mem.(blocks := mem.blocks + Retained(allocations))
    ensures Covers(base, Levels(storages, mem, BuildSteps(allocations), true, zero), AllocationLevels(allocations, base))
    ensures AtMostSome(base + Retained(allocations), base, AllocationLevels(allocations, base))
  {
    hide Covers, Run, Levels;
    var before, a := allocations[..|allocations| - 1], allocations[|allocations| - 1];
    CopyLevels(storages, mem, BuildSteps(before), Build(a), true, zero);
    var level, after := base + Retained(allocations) + a.temporaryCopyBytes, base + Retained(allocations);
    CoversPair(base, level, after);
    CoversBoth(base, Levels(storages, mem, BuildSteps(before), true, zero), [level, after], AllocationLevels(before, base), [level]);
    assert level in AllocationLevels(allocations, base);
  }

  lemma {:induction false} WithoutStorage(storages: seq<StorageState>, at: Places, id: string, host: bool)
    requires StoragesOk(storages) && id in at && at[id].Cpu? && id in StorageIds(storages)
    ensures BytesOn(storages, at - {id}, host) == BytesOn(storages, at, host) - if host then SizeOf(storages, id) else 0
  {
    var last := |storages| - 1;
    if storages[last].id == id {
      forall u | u in storages[..last] ensures u.id != id {
        var i :| 0 <= i < last && storages[i] == u;
        assert storages[i].id != storages[last].id;
      }
      ForeignId(storages[..last], at, id, host);
    } else {
      assert storages == storages[..last] + [storages[last]];
      WithoutStorage(storages[..last], at, id, host);
    }
  }

  lemma {:induction false} ForeignId(storages: seq<StorageState>, at: Places, id: string, host: bool)
    requires forall s :: s in storages ==> s.id != id
    ensures BytesOn(storages, at - {id}, host) == BytesOn(storages, at, host)
  {
    if storages != [] {
      assert storages == storages[..|storages| - 1] + [storages[|storages| - 1]];
      ForeignId(storages[..|storages| - 1], at, id, host);
    }
  }

  lemma {:induction false} SizeNonNegative(storages: seq<StorageState>, id: string)
    requires StoragesOk(storages)
    ensures SizeOf(storages, id) >= 0
  {
    if storages != [] {
      assert StorageOk(storages[|storages| - 1]);
      SizeNonNegative(storages[..|storages| - 1], id);
    }
  }

  ghost predicate AllEqual(levels: seq<int>, v: int) { forall w :: w in levels ==> w == v }

  /** Homes are released one by one: the host holds less and less, the GPU what it held. */
  ghost predicate Releases(storages: seq<StorageState>, mem: Memory, ids: seq<string>, base: int, zero: int, gpuZero: int) {
    var after := Run(storages, mem, ReleaseSteps(ids));
    && after == mem.(at := mem.at - (set id | id in ids))
    && Held(storages, after, true) - zero == base - SumOver(storages, ids) <= base
    && Held(storages, after, false) == Held(storages, mem, false)
    && Covers(base, Levels(storages, mem, ReleaseSteps(ids), true, zero), [])
    && AllEqual(Levels(storages, mem, ReleaseSteps(ids), false, gpuZero), Held(storages, mem, false) - gpuZero)
  }

  lemma {:induction false} ReleaseStepLevels(storages: seq<StorageState>, mem: Memory, ids: seq<string>, base: int,
                                             zero: int, gpuZero: int)
    requires StoragesOk(storages) && Held(storages, mem, true) - zero == base
    requires forall i, j :: 0 <= i < j < |ids| ==> ids[i] != ids[j]
    requires forall id :: id in ids ==> id in mem.at && mem.at[id].Cpu? && id in StorageIds(storages)
    ensures Releases(storages, mem, ids, base, zero, gpuZero)
  {
    if ids == [] {
      assert mem.at - (set id | id in ids) == mem.at;
    } else {
      var before, id := ids[..|ids| - 1], ids[|ids| - 1];
      assert ids == before + [id] && id !in before && forall i :: i in before ==> i in ids;
      ReleaseStepLevels(storages, mem, before, base, zero, gpuZero);
      NextRelease(storages, mem, before, id, base, zero, gpuZero);
    }
  }

  lemma {:induction false} NextRelease(storages: seq<StorageState>, mem: Memory, before: seq<string>, id: string, base: int, zero: int, gpuZero: int)
    requires StoragesOk(storages) && Releases(storages, mem, before, base, zero, gpuZero)
    requires id !in before && id in mem.at && mem.at[id].Cpu? && id in StorageIds(storages)
    ensures Releases(storages, mem, before + [id], base, zero, gpuZero)
  {
    hide Covers, AllEqual, StoragesOk, SizeOf, BytesOn, Run, Take, Held, Levels;
    var ids, steps := before + [id], ReleaseSteps(before);
    assert ids[..|ids| - 1] == before;
    assert ReleaseSteps(ids) == steps + [Release(id)];
    OneMore(storages, mem, steps, Release(id), true, zero);
    OneMore(storages, mem, steps, Release(id), false, gpuZero);
    MemoryAfterRelease(storages, mem, before, id);
    SizeNonNegative(storages, id);
    CoversMore(base, Levels(storages, mem, steps, true, zero), Held(storages, Run(storages, mem, ReleaseSteps(ids)), true) - zero);
    EqualMore(Levels(storages, mem, steps, false, gpuZero), Held(storages, mem, false) - gpuZero);
  }

  lemma {:induction false} OneMore(storages: seq<StorageState>, mem: Memory, steps: seq<Step>, step: Step, host: bool, zero: int)
    ensures var after := Run(storages, mem, steps + [step]);
            && after == Take(storages, Run(storages, mem, steps), step)
            && Levels(storages, mem, steps + [step], host, zero) ==
                 Levels(storages, mem, steps, host, zero) + [Held(storages, after, host) - zero]
  {
    assert (steps + [step])[..|steps|] == steps;
  }

  lemma {:induction false} MemoryAfterRelease(storages: seq<StorageState>, mem: Memory, before: seq<string>, id: string)
    requires StoragesOk(storages) && id !in before && id in mem.at && mem.at[id].Cpu? && id in StorageIds(storages)
    requires Run(storages, mem, ReleaseSteps(before)) == mem.(at := mem.at - (set i | i in before))
    ensures var after, last := Run(storages, mem, ReleaseSteps(before + [id])), Run(storages, mem, ReleaseSteps(before));
            && after == mem.(at := mem.at - (set i | i in before + [id]))
            && Held(storages, after, true) == Held(storages, last, true) - SizeOf(storages, id)
            && Held(storages, after, false) == Held(storages, last, false)
  {
    hide StoragesOk, SizeOf, BytesOn, Run, Levels;
    assert (before + [id])[..|before|] == before;
    OneMore(storages, mem, ReleaseSteps(before), Release(id), true, 0);
    OneRelease(storages, mem, before, id);
  }

  lemma {:induction false} OneRelease(storages: seq<StorageState>, mem: Memory, before: seq<string>, id: string)
    requires StoragesOk(storages) && id !in before && id in mem.at && mem.at[id].Cpu? && id in StorageIds(storages)
    ensures var at, at' := mem.at - (set i | i in before), mem.at - (set i | i in before + [id]);
            && at' == at - {id}
            && BytesOn(storages, at', true) == BytesOn(storages, at, true) - SizeOf(storages, id)
            && BytesOn(storages, at', false) == BytesOn(storages, at, false)
  {
    var at := mem.at - (set i | i in before);
    WithoutStorage(storages, at, id, true);
    WithoutStorage(storages, at, id, false);
    assert at - {id} == mem.at - (set i | i in before + [id]);
  }

  lemma {:induction false} CoversMore(floor: int, held: seq<int>, w: int)
    requires Covers(floor, held, []) && w <= floor
    ensures Covers(floor, held + [w], [])
  {
  }

  lemma {:induction false} EqualMore(levels: seq<int>, v: int)
    requires AllEqual(levels, v)
    ensures AllEqual(levels + [v], v)
  {
  }

  /** Copies and blocks on the host leave the GPU as it is. */
  lemma {:induction false} GpuSteady(storages: seq<StorageState>, mem: Memory, steps: seq<Step>, zero: int)
    requires forall step :: step in steps ==> step.CopyToPin? || step.Build? || step.CopyDone?
    ensures Held(storages, Run(storages, mem, steps), false) == Held(storages, mem, false)
    ensures AllEqual(Levels(storages, mem, steps, false, zero), Held(storages, mem, false) - zero)
  {
    if steps != [] {
      var last := |steps| - 1;
      assert steps == steps[..last] + [steps[last]] && steps[last] in steps;
      GpuSteady(storages, mem, steps[..last], zero);
      assert Run(storages, mem, steps).at == Run(storages, mem, steps[..last]).at;
    }
  }

  lemma {:induction false} PinStepsOnly(ids: seq<string>)
    ensures forall step :: step in PinSteps(ids) ==> step.CopyToPin? || step.CopyDone?
  {
    if ids != [] { PinStepsOnly(ids[..|ids| - 1]); }
  }

  lemma {:induction false} BuildStepsOnly(allocations: seq<HostAllocation>)
    ensures forall step :: step in BuildSteps(allocations) ==> step.Build? || step.CopyDone?
  {
    if allocations != [] { BuildStepsOnly(allocations[..|allocations| - 1]); }
  }

  // ---------------------------------------------------------------------------
  // All of the construction
  // ---------------------------------------------------------------------------

  /** What the loader's construction is allowed to start from. */
  ghost predicate Ready(storages: seq<StorageState>, mem: Memory, transition: TransitionSpec) {
    && StoragesOk(storages) && mem.temporary == 0 && BytesOk(transition, Capacity(0, 0)) && Distinct(transition.releaseHostIds)
    && forall id :: id in transition.releaseHostIds ==> id in mem.at && mem.at[id].Cpu? && id in StorageIds(storages)
  }

  lemma {:induction false} FourParts(storages: seq<StorageState>, mem: Memory, a: seq<Step>, b: seq<Step>, c: seq<Step>, d: seq<Step>,
                  host: bool, zero: int)
    ensures var mem1 := Run(storages, mem, a);
            var mem2 := Run(storages, mem1, b);
            var mem3 := Run(storages, mem2, c);
            && Run(storages, mem, a + b + c + d) == Run(storages, mem3, d)
            && Levels(storages, mem, a + b + c + d, host, zero) ==
                 Levels(storages, mem, a, host, zero) + Levels(storages, mem1, b, host, zero) +
                 Levels(storages, mem2, c, host, zero) + Levels(storages, mem3, d, host, zero)
  {
    RunConcat(storages, mem, a, b);
    RunConcat(storages, mem, a + b, c);
    RunConcat(storages, mem, a + b + c, d);
    LevelsConcat(storages, mem, a, b, host, zero);
    LevelsConcat(storages, mem, a + b, c, host, zero);
    LevelsConcat(storages, mem, a + b + c, d, host, zero);
  }

  /** Taking the GPU blocks. */
  function WithGpuBlocks(mem: Memory, nbytes: int): Memory { mem.(gpuBlocks := mem.gpuBlocks + nbytes) }

  lemma {:induction false} GpuBlocksTaken(storages: seq<StorageState>, mem: Memory, nbytes: int, host: bool, zero: int)
    ensures var steps, after := [TakeGpuBlocks(nbytes)], WithGpuBlocks(mem, nbytes);
            Run(storages, mem, steps) == after && Levels(storages, mem, steps, host, zero) == [Held(storages, after, host) - zero]
  {
    assert [TakeGpuBlocks(nbytes)][..0] == [];
  }

  /** The memory before the releases. */
  function Built(mem: Memory, transition: TransitionSpec): Memory {
    WithGpuBlocks(mem, transition.extraGpuBytes).(blocks := mem.blocks + Retained(transition.hostAllocations))
  }

  lemma {:induction false} ConstructionParts(storages: seq<StorageState>, mem: Memory, transition: TransitionSpec, base: int, zero: int)
    requires Ready(storages, mem, transition) && Held(storages, mem, true) - zero == base
    ensures var mem1, mem2 := WithGpuBlocks(mem, transition.extraGpuBytes), Built(mem, transition);
            && Run(storages, mem, [TakeGpuBlocks(transition.extraGpuBytes)]) == mem1
            && Run(storages, mem1, PinSteps(transition.pinningCopyIds)) == mem1
            && Run(storages, mem1, BuildSteps(transition.hostAllocations)) == mem2
            && Held(storages, mem1, true) - zero == base
            && Held(storages, mem2, true) - zero == base + Retained(transition.hostAllocations)
  {
    var mem1 := WithGpuBlocks(mem, transition.extraGpuBytes);
    GpuBlocksTaken(storages, mem, transition.extraGpuBytes, true, zero);
    PinStepLevels(storages, mem1, transition.pinningCopyIds, base, zero);
    BuildStepLevels(storages, mem1, transition.hostAllocations, base, zero);
  }

  lemma {:induction false} ConstructionRuns(storages: seq<StorageState>, mem: Memory, transition: TransitionSpec, base: int, zero: int)
    requires Ready(storages, mem, transition) && Held(storages, mem, true) - zero == base
    ensures var after := Run(storages, mem, Construction(transition));
            && after == Built(mem, transition).(at := mem.at - (set id | id in transition.releaseHostIds))
            && Held(storages, after, true) - zero ==
                 base + Retained(transition.hostAllocations) - SumOver(storages, transition.releaseHostIds)
            && Held(storages, after, false) == Held(storages, mem, false) + transition.extraGpuBytes
  {
    ConstructionParts(storages, mem, transition, base, zero);
    FourParts(storages, mem, [TakeGpuBlocks(transition.extraGpuBytes)], PinSteps(transition.pinningCopyIds),
              BuildSteps(transition.hostAllocations), ReleaseSteps(transition.releaseHostIds), true, zero);
    ReleaseStepLevels(storages, Built(mem, transition), transition.releaseHostIds,
                      base + Retained(transition.hostAllocations), zero, 0);
  }

  lemma {:induction false} ConstructionHostLevels(storages: seq<StorageState>, mem: Memory, transition: TransitionSpec, base: int, zero: int)
    requires Ready(storages, mem, transition) && Held(storages, mem, true) - zero == base
    ensures var levels := Levels(storages, mem, Construction(transition), true, zero);
            && Covers(base, levels, PinLevels(storages, transition.pinningCopyIds, base) + AllocationLevels(transition.hostAllocations, base))
            && base in levels
  {
    var pins, builds, releases := PinSteps(transition.pinningCopyIds), BuildSteps(transition.hostAllocations), ReleaseSteps(transition.releaseHostIds);
    var mem1, mem2, after := WithGpuBlocks(mem, transition.extraGpuBytes), Built(mem, transition), base + Retained(transition.hostAllocations);
    ConstructionParts(storages, mem, transition, base, zero);
    FourParts(storages, mem, [TakeGpuBlocks(transition.extraGpuBytes)], pins, builds, releases, true, zero);
    GpuBlocksTaken(storages, mem, transition.extraGpuBytes, true, zero);
    PinStepLevels(storages, mem1, transition.pinningCopyIds, base, zero);
    BuildStepLevels(storages, mem1, transition.hostAllocations, base, zero);
    ReleaseStepLevels(storages, mem2, transition.releaseHostIds, after, zero, 0);
    CoverParts(base, after, Levels(storages, mem1, pins, true, zero), PinLevels(storages, transition.pinningCopyIds, base),
               Levels(storages, mem1, builds, true, zero), AllocationLevels(transition.hostAllocations, base),
               Levels(storages, mem2, releases, true, zero));
  }

  lemma {:induction false} CoverParts(base: int, after: int, pins: seq<int>, pinLevels: seq<int>, builds: seq<int>, buildLevels: seq<int>,
                   releases: seq<int>)
    requires Covers(base, pins, pinLevels) && Covers(base, builds, buildLevels) && Covers(after, releases, [])
    requires AtMostSome(after, base, buildLevels)
    ensures Covers(base, [base] + pins + builds + releases, pinLevels + buildLevels)
  {
    assert Covers(base, [base], []);
    CoversBoth(base, [base], pins, [], pinLevels);
    assert [] + pinLevels == pinLevels;
    CoversBoth(base, [base] + pins, builds, pinLevels, buildLevels);
    if after > base {
      var v :| v in buildLevels && after <= v;
      assert v in pinLevels + buildLevels;
    }
    CoversFrom(base, [base] + pins + builds, pinLevels + buildLevels, releases, [], after);
    assert pinLevels + buildLevels + [] == pinLevels + buildLevels;
  }

  lemma {:induction false} ConstructionGpuLevels(storages: seq<StorageState>, mem: Memory, transition: TransitionSpec, zero: int)
    requires Ready(storages, mem, transition)
    ensures var levels := Levels(storages, mem, Construction(transition), false, zero);
            levels != [] && AllEqual(levels, Held(storages, mem, false) - zero + transition.extraGpuBytes)
  {
    var pins, builds, releases := PinSteps(transition.pinningCopyIds), BuildSteps(transition.hostAllocations), ReleaseSteps(transition.releaseHostIds);
    var mem1, mem2 := WithGpuBlocks(mem, transition.extraGpuBytes), Built(mem, transition);
    var host := Held(storages, mem, true);
    ConstructionParts(storages, mem, transition, 0, host);
    FourParts(storages, mem, [TakeGpuBlocks(transition.extraGpuBytes)], pins, builds, releases, false, zero);
    GpuBlocksTaken(storages, mem, transition.extraGpuBytes, false, zero);
    PinStepsOnly(transition.pinningCopyIds);
    BuildStepsOnly(transition.hostAllocations);
    GpuSteady(storages, mem1, pins, zero);
    GpuSteady(storages, mem1, builds, zero);
    ReleaseStepLevels(storages, mem2, transition.releaseHostIds, Retained(transition.hostAllocations), host, zero);
  }

  // ---------------------------------------------------------------------------
  // Whole plans
  // ---------------------------------------------------------------------------

  /** The memory once the moves are made is ready for the construction. */
  lemma {:induction false} ReadyAfterMoves(current: ModelState, target: ModelState, transition: TransitionSpec, capacity: Capacity,
                        moves: seq<Migration>)
    requires InputsOk(current, target, transition, capacity) && MovesEverything(current, target, moves)
    ensures var storages, mem := current.storages, Run(current.storages, Start(current), Migrations(moves));
            && mem == Start(current).(at := PlacesOf(target.storages)) && Ready(storages, mem, transition)
            && Held(storages, mem, true) - Held(storages, Start(current), true) == FinalHost(moves)
            && Held(storages, mem, false) - Held(storages, Start(current), false) == -FinalHost(moves)
  {
    assert moves[..|moves|] == moves;
    MigrationLevels(current, target, moves, |moves|);
    MovesReachTarget(current, target, moves);
    LevelsAreBytes(current, target, moves, |moves|);
    ReleasedAreOnHost(current, target, transition);
    assert BytesOk(transition, Capacity(0, 0)) && StoragesOk(current.storages);
    hide MovesEverything, Levels, MoveLevels;
  }

  lemma {:induction false} ReleasedAreOnHost(current: ModelState, target: ModelState, transition: TransitionSpec)
    requires PlacementOk(target) && StoragesMatch(current, target) && TransitionOk(current, target, transition)
    ensures forall id :: id in transition.releaseHostIds ==>
              id in PlacesOf(target.storages) && PlacesOf(target.storages)[id].Cpu? && id in StorageIds(current.storages)
  {
    forall id | id in transition.releaseHostIds
      ensures id in PlacesOf(target.storages) && PlacesOf(target.storages)[id].Cpu? && id in StorageIds(current.storages)
    {
      assert IsOnHost(target, id);
      var s :| s in target.storages && s.id == id && s.device.Cpu?;
      PlaceOf(target.storages, s);
    }
  }

  /** The ids and sizes of the storages are the same before and after. */
  lemma {:induction false} SameSizes(current: ModelState, target: ModelState, ids: seq<string>, base: int)
    requires PlacementOk(current) && PlacementOk(target) && StoragesMatch(current, target)
    requires forall id :: id in ids ==> id in StorageIds(target.storages)
    ensures SumOver(current.storages, ids) == SumOver(target.storages, ids)
    ensures PinLevels(current.storages, ids, base) == PinLevels(target.storages, ids, base)
  {
    hide PlacementOk, StoragesMatch, SizeOf;
    if ids != [] {
      var last := |ids| - 1;
      assert ids[last] in ids && forall id :: id in ids[..last] ==> id in ids;
      SameSizes(current, target, ids[..last], base);
      SameSize(current, target, ids[last]);
    }
  }

  lemma {:induction false} SameSize(current: ModelState, target: ModelState, id: string)
    requires PlacementOk(current) && PlacementOk(target) && StoragesMatch(current, target) && id in StorageIds(target.storages)
    ensures SizeOf(current.storages, id) == SizeOf(target.storages, id)
  {
    var s' :| s' in target.storages && s'.id == id;
    var s :| s in current.storages && s.id == id;
    SizeOfIndexed(current.storages, s);
    SizeOfIndexed(target.storages, s');
    assert StorageMayMove(s, s');
  }

  /** What is held during the whole script, by what is counted. */
  lemma {:induction false} ScriptLevels(current: ModelState, target: ModelState, transition: TransitionSpec, capacity: Capacity,
                     moves: seq<Migration>)
    requires InputsOk(current, target, transition, capacity) && MovesEverything(current, target, moves)
    ensures var storages, mem, base := current.storages, Start(current), FinalHost(moves);
            var zero, gpuZero := Held(storages, mem, true), Held(storages, mem, false);
            var middle := Run(storages, mem, Migrations(moves));
            var host, gpu := Levels(storages, middle, Construction(transition), true, zero), Levels(storages, middle, Construction(transition), false, gpuZero);
            && Levels(storages, mem, Script(moves, transition), true, zero) == MoveLevels(moves) + host
            && Levels(storages, mem, Script(moves, transition), false, gpuZero) == Negated(MoveLevels(moves)) + gpu
            && Covers(base, host, ConstructionLevels(target, transition, base)) && base in host
            && gpu != [] && AllEqual(gpu, -base + transition.extraGpuBytes)
  {
    var storages, mem, base := current.storages, Start(current), FinalHost(moves);
    var zero, gpuZero := Held(storages, mem, true), Held(storages, mem, false);
    var middle := Run(storages, mem, Migrations(moves));
    assert moves[..|moves|] == moves;
    MigrationLevels(current, target, moves, |moves|);
    ReadyAfterMoves(current, target, transition, capacity, moves);
    LevelsConcat(storages, mem, Migrations(moves), Construction(transition), true, zero);
    LevelsConcat(storages, mem, Migrations(moves), Construction(transition), false, gpuZero);
    ConstructionHostLevels(storages, middle, transition, base, zero);
    ConstructionGpuLevels(storages, middle, transition, gpuZero);
    PinnedAreKnown(current, target, transition);
    SameSizes(current, target, transition.pinningCopyIds, base);
  }

  lemma {:induction false} PinnedAreKnown(current: ModelState, target: ModelState, transition: TransitionSpec)
    requires TransitionOk(current, target, transition)
    ensures forall id :: id in transition.pinningCopyIds ==> id in StorageIds(target.storages)
    ensures forall id :: id in transition.releaseHostIds ==> id in StorageIds(target.storages)
  {
    forall id | id in transition.pinningCopyIds ensures id in StorageIds(target.storages) {
      assert IsNewlyPinned(current, target, id);
    }
    forall id | id in transition.releaseHostIds ensures id in StorageIds(target.storages) { assert IsOnHost(target, id); }
  }

  /** All levels of a run are at most `bound` exactly when no step exceeds it. */
  lemma {:induction false} LevelsBound(storages: seq<StorageState>, mem: Memory, steps: seq<Step>, host: bool, bound: int)
    requires bound >= 0
    ensures AllAtMost(Levels(storages, mem, steps, host, Held(storages, mem, host)), bound) <==>
              forall k: nat :: k <= |steps| ==> Extra(storages, mem, steps, k, host) <= bound
  {
    var levels := Levels(storages, mem, steps, host, Held(storages, mem, host));
    assert steps[..0] == [];
    forall k: nat | 0 < k <= |steps| ensures levels[k - 1] == Extra(storages, mem, steps, k, host) {
      LevelAfter(storages, mem, steps, host, k);
    }
    if AllAtMost(levels, bound) {
      forall k: nat | k <= |steps| ensures Extra(storages, mem, steps, k, host) <= bound {
        if k > 0 { assert levels[k - 1] in levels; }
      }
    } else {
      var v :| v in levels && v > bound;
      var i :| 0 <= i < |levels| && levels[i] == v;
      var k := i + 1;
      assert levels[k - 1] == Extra(storages, mem, steps, k, host);
    }
  }

  /** The host bytes in the end are those after the last step. */
  lemma {:induction false} EndLevel(current: ModelState, target: ModelState, transition: TransitionSpec, capacity: Capacity,
                 moves: seq<Migration>)
    requires InputsOk(current, target, transition, capacity) && MovesEverything(current, target, moves)
    ensures var storages, mem, script := current.storages, Start(current), Script(moves, transition);
            && Extra(storages, mem, script, |script|, true) == HostAtEnd(target, transition, FinalHost(moves))
            && Extra(storages, mem, script, |script|, false) == -FinalHost(moves) + transition.extraGpuBytes
            && Run(storages, mem, script) ==
                 Memory(PlacesOf(target.storages) - (set id | id in transition.releaseHostIds),
                        Retained(transition.hostAllocations), 0, transition.extraGpuBytes)
  {
    var storages, mem, script := current.storages, Start(current), Script(moves, transition);
    assert script[..|script|] == script;
    ReadyAfterMoves(current, target, transition, capacity, moves);
    RunConcat(storages, mem, Migrations(moves), Construction(transition));
    ConstructionRuns(storages, Run(storages, mem, Migrations(moves)), transition, FinalHost(moves), Held(storages, mem, true));
    PinnedAreKnown(current, target, transition);
    SameSizes(current, target, transition.releaseHostIds, 0);
  }

  /** The planner's count of an order of the moves fits exactly when carrying it out, step by
      step, never holds more than the start and the capacity. */
  lemma {:induction false} FitsIffStaysWithin(current: ModelState, target: ModelState, transition: TransitionSpec, capacity: Capacity,
                           moves: seq<Migration>)
    requires InputsOk(current, target, transition, capacity) && MovesEverything(current, target, moves)
    ensures Fits(moves, target, transition, capacity) <==>
            StaysWithin(current.storages, Start(current), Script(moves, transition), capacity)
  {
    var storages, mem, script, base := current.storages, Start(current), Script(moves, transition), FinalHost(moves);
    var zero, gpuZero := Held(storages, mem, true), Held(storages, mem, false);
    var middle := Run(storages, mem, Migrations(moves));
    var host, gpu := Levels(storages, middle, Construction(transition), true, zero), Levels(storages, middle, Construction(transition), false, gpuZero);
    ScriptLevels(current, target, transition, capacity, moves);
    LevelsBound(storages, mem, script, true, capacity.hostBytes);
    LevelsBound(storages, mem, script, false, capacity.gpuBytes);
    EndLevel(current, target, transition, capacity, moves);
    FinalIsLevel(moves);
    CoveredBound(base, host, ConstructionLevels(target, transition, base), capacity.hostBytes);
    BothAtMost(MoveLevels(moves), host, capacity.hostBytes);
    BothAtMost(Negated(MoveLevels(moves)), gpu, capacity.gpuBytes);
    EqualBound(gpu, -base + transition.extraGpuBytes, capacity.gpuBytes);
    WithinByBounds(storages, mem, script, capacity);
  }

  lemma {:induction false} WithinByBounds(storages: seq<StorageState>, mem: Memory, steps: seq<Step>, capacity: Capacity)
    ensures StaysWithin(storages, mem, steps, capacity) <==>
              (forall k: nat :: k <= |steps| ==> Extra(storages, mem, steps, k, true) <= capacity.hostBytes) &&
              (forall k: nat :: k <= |steps| ==> Extra(storages, mem, steps, k, false) <= capacity.gpuBytes)
  {
  }

  lemma {:induction false} BothAtMost(a: seq<int>, b: seq<int>, bound: int)
    ensures AllAtMost(a + b, bound) <==> AllAtMost(a, bound) && AllAtMost(b, bound)
  {
    assert forall v :: v in a + b <==> v in a || v in b;
  }

  lemma {:induction false} EqualBound(levels: seq<int>, v: int, bound: int)
    requires levels != [] && AllEqual(levels, v)
    ensures AllAtMost(levels, bound) <==> v <= bound
  {
    var w := levels[0];
    assert w in levels && w == v;
    if v <= bound {
      forall u | u in levels ensures u <= bound {}
    }
  }

  lemma {:induction false} CoveredBound(floor: int, held: seq<int>, counted: seq<int>, bound: int)
    requires Covers(floor, held, counted) && floor in held
    ensures AllAtMost(held, bound) <==> floor <= bound && AllAtMost(counted, bound)
  {
    if AllAtMost(held, bound) {
      forall v | v in counted ensures v <= bound { assert v in held; }
    }
    if floor <= bound && AllAtMost(counted, bound) {
      forall w | w in held ensures w <= bound { assert AtMostSome(w, floor, counted); }
    }
  }

  /** A peak of the levels is the most held. */
  lemma {:induction false} LevelsPeak(storages: seq<StorageState>, mem: Memory, steps: seq<Step>, n: nat, peak: int, host: bool)
    requires n <= |steps|
    requires var levels := Levels(storages, mem, steps, host, Held(storages, mem, host));
             && (forall i :: n <= i < |levels| ==> levels[i] <= peak)
             && (Extra(storages, mem, steps, n, host) == peak || exists i :: n <= i < |levels| && levels[i] == peak)
    requires Extra(storages, mem, steps, n, host) <= peak
    ensures IsMostHeld(peak, storages, mem, steps, n, host)
  {
    var levels := Levels(storages, mem, steps, host, Held(storages, mem, host));
    forall k: nat | n <= k <= |steps| ensures Extra(storages, mem, steps, k, host) <= peak {
      if k > n {
        LevelAfter(storages, mem, steps, host, k);
        assert levels[k - 1] <= peak;
      }
    }
    if Extra(storages, mem, steps, n, host) != peak {
      var i :| n <= i < |levels| && levels[i] == peak;
      var k := i + 1;
      LevelAfter(storages, mem, steps, host, k);
      assert Extra(storages, mem, steps, k, host) == peak;
    }
  }

  /** Carrying out a plan: it ends in the target with the homes released that the blocks replace,
      never holds more than granted on either side, and its peaks are exactly the most held. */
  lemma {:induction false} PlanExecutes(current: ModelState, target: ModelState, transition: TransitionSpec, capacity: Capacity,
                     r: PlanResult)
    requires InputsOk(current, target, transition, capacity) && r.Planned?
    requires GoodPlan(current, target, transition, capacity, r)
    ensures var storages, mem, script := current.storages, Start(current), Script(r.migrations, transition);
            && StaysWithin(storages, mem, script, capacity)
            && IsMostHeld(r.peakHost, storages, mem, script, 0, true) && IsMostHeld(r.peakGpu, storages, mem, script, 0, false)
            && Run(storages, mem, script) ==
                 Memory(PlacesOf(target.storages) - (set id | id in transition.releaseHostIds),
                        Retained(transition.hostAllocations), 0, transition.extraGpuBytes)
  {
    FitsIffStaysWithin(current, target, transition, capacity, r.migrations);
    EndLevel(current, target, transition, capacity, r.migrations);
    PlanPeaks(current, target, transition, capacity, r);
  }

  lemma {:induction false} PlanPeaks(current: ModelState, target: ModelState, transition: TransitionSpec, capacity: Capacity, r: PlanResult)
    requires InputsOk(current, target, transition, capacity) && r.Planned?
    requires GoodPlan(current, target, transition, capacity, r)
    ensures var storages, mem, script := current.storages, Start(current), Script(r.migrations, transition);
            IsMostHeld(r.peakHost, storages, mem, script, 0, true) && IsMostHeld(r.peakGpu, storages, mem, script, 0, false)
  {
    hide Covers, AllEqual, IsPeak, IsMostHeld, Levels, Run, Held, InputsOk, MovesEverything, Fits, Script, Migrations;
    var storages, mem, moves := current.storages, Start(current), r.migrations;
    var script, base := Script(moves, transition), FinalHost(moves);
    var zero, gpuZero := Held(storages, mem, true), Held(storages, mem, false);
    var middle := Run(storages, mem, Migrations(moves));
    var host, gpu := Levels(storages, middle, Construction(transition), true, zero), Levels(storages, middle, Construction(transition), false, gpuZero);
    ScriptLevels(current, target, transition, capacity, moves);
    FinalIsLevel(moves);
    HeldPeak(MoveLevels(moves), host, ConstructionLevels(target, transition, base), base, r.peakHost);
    EqualPeak(Negated(MoveLevels(moves)), gpu, -base + transition.extraGpuBytes, r.peakGpu);
    PeakIsMost(storages, mem, script, r.peakHost, true);
    PeakIsMost(storages, mem, script, r.peakGpu, false);
  }

  lemma {:induction false} PeakIsMost(storages: seq<StorageState>, mem: Memory, steps: seq<Step>, peak: int, host: bool)
    requires IsPeak(peak, Levels(storages, mem, steps, host, Held(storages, mem, host)))
    ensures IsMostHeld(peak, storages, mem, steps, 0, host)
  {
    var levels := Levels(storages, mem, steps, host, Held(storages, mem, host));
    assert steps[..0] == [];
    forall i | 0 <= i < |levels| ensures levels[i] <= peak { assert levels[i] in levels; }
    LevelsPeak(storages, mem, steps, 0, peak, host);
  }

  lemma {:induction false} HeldPeak(moves: seq<int>, held: seq<int>, counted: seq<int>, base: int, peak: int)
    requires Covers(base, held, counted) && IsPeak(peak, moves + counted) && (base == 0 || base in moves)
    ensures IsPeak(peak, moves + held)
  {
    assert forall v :: v in moves + counted <==> v in moves || v in counted;
    assert forall v :: v in moves + held <==> v in moves || v in held;
    forall w | w in held ensures w <= peak { assert AtMostSome(w, base, counted); }
  }

  lemma {:induction false} EqualPeak(moves: seq<int>, held: seq<int>, v: int, peak: int)
    requires held != [] && AllEqual(held, v) && IsPeak(peak, moves + [v])
    ensures IsPeak(peak, moves + held)
  {
    assert held[0] in held;
    assert forall w :: w in moves + held <==> w in moves || w in held;
    assert forall w :: w in moves + [v] <==> w in moves || w == v;
  }

  /** A refusal for lack of memory: in whatever order the moves are made, some step holds more
      than granted; the GPU bytes reported are those held in the end, and the host bytes those
      held after the moves or, when those fit, the most held from then on. */
  lemma {:induction false} RefusalExecutes(current: ModelState, target: ModelState, transition: TransitionSpec, capacity: Capacity,
                        r: PlanResult, moves: seq<Migration>)
    requires InputsOk(current, target, transition, capacity) && r.NotEnoughMemory?
    requires GoodRefusal(current, target, transition, capacity, r) && MovesEverything(current, target, moves)
    ensures var storages, mem, script := current.storages, Start(current), Script(moves, transition);
            && !StaysWithin(storages, mem, script, capacity) && |moves| <= |script|
            && r.requiredGpu == MaxOf(0, Extra(storages, mem, script, |script|, false))
            && (r.requiredHost == MaxOf(0, Extra(storages, mem, script, |moves|, true)) ||
                (r.requiredHost > capacity.hostBytes && IsMostHeld(r.requiredHost, storages, mem, script, |moves|, true)))
  {
    FitsIffStaysWithin(current, target, transition, capacity, moves);
    EndLevel(current, target, transition, capacity, moves);
    AfterMoves(current, target, transition, capacity, moves);
    assert ReportedFor(FinalHost(moves), target, transition, capacity, r);
    if r.requiredHost != MaxOf(0, FinalHost(moves)) { RefusalPeak(current, target, transition, capacity, r, moves); }
  }

  lemma {:induction false} OneStepEach(moves: seq<Migration>)
    ensures |Migrations(moves)| == |moves|
  {
    if moves != [] { OneStepEach(moves[..|moves| - 1]); }
  }

  lemma {:induction false} AfterMoves(current: ModelState, target: ModelState, transition: TransitionSpec, capacity: Capacity, moves: seq<Migration>)
    requires InputsOk(current, target, transition, capacity) && MovesEverything(current, target, moves)
    ensures |moves| <= |Script(moves, transition)|
    ensures Extra(current.storages, Start(current), Script(moves, transition), |moves|, true) == FinalHost(moves)
  {
    OneStepEach(moves);
    assert Script(moves, transition)[..|moves|] == Migrations(moves);
    ReadyAfterMoves(current, target, transition, capacity, moves);
  }

  lemma {:induction false} RefusalPeak(current: ModelState, target: ModelState, transition: TransitionSpec, capacity: Capacity,
                    r: PlanResult, moves: seq<Migration>)
    requires InputsOk(current, target, transition, capacity) && MovesEverything(current, target, moves)
    requires r.NotEnoughMemory? && r.requiredHost > capacity.hostBytes >= FinalHost(moves)
    requires var base := FinalHost(moves);
             IsPeak(r.requiredHost, ConstructionLevels(target, transition, base) + [HostAtEnd(target, transition, base)])
    requires |moves| <= |Script(moves, transition)|
    ensures IsMostHeld(r.requiredHost, current.storages, Start(current), Script(moves, transition), |moves|, true)
  {
    hide Covers, AllEqual, IsPeak, IsMostHeld, Levels, Run, Held;
    var storages, mem, script, base := current.storages, Start(current), Script(moves, transition), FinalHost(moves);
    var zero := Held(storages, mem, true);
    var host := Levels(storages, Run(storages, mem, Migrations(moves)), Construction(transition), true, zero);
    ScriptLevels(current, target, transition, capacity, moves);
    EndLevel(current, target, transition, capacity, moves);
    AfterMoves(current, target, transition, capacity, moves);
    LastIsHeld(storages, mem, script, MoveLevels(moves), host);
    ConstructionIsPeak(host, ConstructionLevels(target, transition, base), base, HostAtEnd(target, transition, base), r.requiredHost);
    FinalIsLevel(moves);
    if moves == [] { assert MoveLevels(moves) == []; }
    SuffixPeak(storages, mem, script, MoveLevels(moves), host, r.requiredHost);
  }

  lemma {:induction false} LastIsHeld(storages: seq<StorageState>, mem: Memory, steps: seq<Step>, front: seq<int>, back: seq<int>)
    requires Levels(storages, mem, steps, true, Held(storages, mem, true)) == front + back && back != []
    ensures Extra(storages, mem, steps, |steps|, true) in back
  {
    LevelAfter(storages, mem, steps, true, |steps|);
    assert (front + back)[|steps| - 1] == back[|back| - 1];
  }

  lemma {:induction false} SuffixPeak(storages: seq<StorageState>, mem: Memory, steps: seq<Step>, front: seq<int>, back: seq<int>, peak: int)
    requires Levels(storages, mem, steps, true, Held(storages, mem, true)) == front + back
    requires peak in back && AllAtMost(back, peak) && Extra(storages, mem, steps, |front|, true) <= peak
    ensures IsMostHeld(peak, storages, mem, steps, |front|, true)
  {
    hide IsMostHeld, Extra;
    var levels := Levels(storages, mem, steps, true, Held(storages, mem, true));
    forall i | |front| <= i < |levels| ensures levels[i] <= peak { assert back[i - |front|] in back; }
    var j :| 0 <= j < |back| && back[j] == peak;
    assert levels[|front| + j] == peak;
    LevelsPeak(storages, mem, steps, |front|, peak, true);
  }

  lemma {:induction false} ConstructionIsPeak(held: seq<int>, counted: seq<int>, base: int, end: int, peak: int)
    requires Covers(base, held, counted) && end in held && IsPeak(peak, counted + [end]) && peak > 0 && base <= peak
    ensures peak in held && AllAtMost(held, peak)
  {
    assert forall v :: v in counted + [end] <==> v in counted || v == end;
    forall w | w in held ensures w <= peak { assert AtMostSome(w, base, counted); }
  }
}
