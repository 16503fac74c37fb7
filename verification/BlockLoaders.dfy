/** The two preallocated block loaders as they update their state. Both classes of the source
  share their fields, recovery, fork, copy and join code; they differ in when they wait. */
module BlockLoaders {
  import opened Timeline
  import opened Streams
  import opened PrefetchPolicy
  import opened LoaderProtocol
  import opened LoaderReads

  class PreallocatedLoader {
    const s: Schedule
    const variant: Variant
    const policy: PiecewisePrefetchPolicy
    var scheduledTransfers: map<Label, nat>
    var computeEventsMap: map<Label, nat>
    var lastBlockIdToLabelMap: map<int, Label>
    var hasPendingTransferWork: bool
    var issued: Trace

    ghost function State(): Loader
      reads this, policy
    {
      Loader(scheduledTransfers, computeEventsMap, lastBlockIdToLabelMap, hasPendingTransferWork, policy.State(), issued)
    }

    ghost predicate Valid()
      reads this, policy
    {
      Loadable(s) && OccupantsKnown(s, State())
    }

    /** `order` lists the transfers to preload, in dict order. */
    constructor (variant: Variant, s: Schedule, order: seq<Label>, policy: PiecewisePrefetchPolicy)
      requires Loadable(s) && forall x :: x in order ==> x in s.block
      ensures Valid() && this.s == s && this.variant == variant && this.policy == policy
      ensures State() == Preloaded(variant, s, order, policy.State())
    {
      this.s, this.variant, this.policy := s, variant, policy;
      scheduledTransfers, computeEventsMap, lastBlockIdToLabelMap := map[], map[], map[];
      hasPendingTransferWork, issued := false, [];
      new;
      Preload(order);
    }

    method Preload(order: seq<Label>)
      requires Valid() && forall x :: x in order ==> x in s.block
      requires State() == Loader(map[], map[], map[], false, policy.State(), [])
      modifies this
      ensures Valid() && State() == Preloaded(variant, s, order, old(policy.State()))
    {
      for i := 0 to |order|
        invariant State() == Loader(map[], map[], map[], false, old(policy.State()), PreloadCopies(s, order[..i]))
      {
        assert order[..i + 1] == order[..i] + [order[i]];
        assert PreloadCopies(s, order[..i + 1]) == PreloadCopies(s, order[..i]) + [Copy(order[i], s.block[order[i]])];
        issued := issued + [Copy(order[i], s.block[order[i]])];
      }
      assert order[..|order|] == order;
      JoinTransferStream();
      TrackPreloaded(order);
    }

    method TrackPreloaded(order: seq<Label>)
      requires Valid() && forall x :: x in order ==> x in s.block
      modifies this
      ensures Valid() && State() == TrackPreloads(variant, s, old(State()), order)
    {
      for i := 0 to |order|
        invariant State() == TrackPreloads(variant, s, old(State()), order[..i])
      {
        var x := order[i];
        assert x in s.block.Keys;
        assert order[..i + 1] == order[..i] + [x] && order[..i + 1][..i] == order[..i];
        lastBlockIdToLabelMap := lastBlockIdToLabelMap[s.block[x] := x];
        if variant.Reordered? {
          var event := |issued|;
          issued := issued + [Record(TransferStream)];
          scheduledTransfers := scheduledTransfers[s.compute[x] := event];
        }
      }
      assert order[..|order|] == order;
    }

    /** record_event on the transfer stream, wait_event on the compute stream. */
    method JoinTransferStream()
      modifies this`issued
      ensures State() == JoinStreams(old(State()))
    {
      var event := |issued|;
      issued := issued + [Record(TransferStream)];
      issued := issued + [Wait(ComputeStream, event)];
    }

    method ClearEventMaps()
      modifies this`scheduledTransfers, this`computeEventsMap, this`lastBlockIdToLabelMap
      ensures State() == ClearMaps(old(State()))
    {
      scheduledTransfers, computeEventsMap, lastBlockIdToLabelMap := map[], map[], map[];
    }

    method BeginFirstLayer()
      modifies this, policy
      ensures State() == StartForward(old(State()))
    {
      var recovering := computeEventsMap != map[] || hasPendingTransferWork;
      if recovering {
        if hasPendingTransferWork || scheduledTransfers != map[] {
          JoinTransferStream();
          hasPendingTransferWork := false;
        }
        ClearEventMaps();
      } else if computeEventsMap != map[] || lastBlockIdToLabelMap != map[] {
        computeEventsMap, lastBlockIdToLabelMap := map[], map[];
      }
      hasPendingTransferWork := false;
      policy.Reset();
    }

    method ForkTransferStream()
      modifies this
      ensures State() == Fork(old(State()))
    {
      if !hasPendingTransferWork {
        var event := |issued|;
        issued := issued + [Record(ComputeStream)];
        issued := issued + [Wait(TransferStream, event)];
        hasPendingTransferWork := true;
      }
    }

    method WaitForTransfer(l: Label)
      modifies this, policy
      ensures State() == AwaitTransfer(old(State()), l)
    {
      if l in scheduledTransfers {
        issued := issued + [Wait(ComputeStream, scheduledTransfers[l])];
        policy.OnWait(l);
      }
    }

    method ScheduleBlockTransfer(l: Label)
      requires Valid() && l in s.block && l in s.compute
      modifies this, policy
      ensures Valid() && State() == ScheduleCopy(variant, s, old(State()), l)
    {
      var b := s.block[l];
      if b in lastBlockIdToLabelMap {
        var reader := s.compute[lastBlockIdToLabelMap[b]];
        if reader in computeEventsMap {
          issued := issued + [Wait(TransferStream, computeEventsMap[reader])];
        }
      }
      lastBlockIdToLabelMap := lastBlockIdToLabelMap[b := l];
      issued := issued + [Copy(l, b)];
      var event := |issued|;
      issued := issued + [Record(TransferStream)];
      var key := if variant.Rolling? then l else s.compute[l];
      scheduledTransfers := scheduledTransfers[key := event];
      policy.OnSchedule(l, key);
    }

    /** enter of PreallocatedBatchTransferTensorLoader. */
    method EnterRolling(l: Label)
      requires Valid() && variant.Rolling?
      modifies this, policy
      ensures Valid() && State() == Enter(variant, s, old(State()), l)
    {
      if l == s.stats[0] { BeginFirstLayer(); }
      ForkTransferStream();
      if l !in s.block { return; }
      assert l in s.block.Keys;
      ScheduleBlockTransfer(l);
    }

    /** enter of PreallocatedBatchTransferTensorLoaderReordered. */
    method EnterReordered(l: Label)
      requires Valid() && variant.Reordered?
      modifies this, policy
      ensures Valid() && State() == Enter(variant, s, old(State()), l)
    {
      if l == s.stats[0] { BeginFirstLayer(); }
      ForkTransferStream();
      WaitForTransfer(l);
      if l !in s.block { return; }
      assert l in s.block.Keys;
      ScheduleBlockTransfer(l);
    }

    /** The model's forward between enter and exit. */
    method ComputeLayer(l: Label)
      requires Valid()
      modifies this`issued
      ensures Valid() && State() == Issue(old(State()), [Compute(l)])
    {
      issued := issued + [Compute(l)];
    }

    method RecordComputeEvent(l: Label)
      modifies this
      ensures State() == RecordCompute(old(State()), l)
    {
      computeEventsMap := computeEventsMap[l := |issued|];
      issued := issued + [Record(ComputeStream)];
    }

    /** The last-layer join and the clears happen even when the policy raises. */
    method JoinLastLayer() returns (raised: bool)
      modifies this, policy
      ensures State() == Join(old(State()), true) && raised == old(policy.State()).Raises(true)
    {
      if hasPendingTransferWork {
        JoinTransferStream();
        hasPendingTransferWork := false;
      }
      var _, _, error := policy.OnPieceJoin(true);
      ClearEventMaps();
      raised := error;
    }

    method ExitRolling(l: Label) returns (raised: bool)
      requires Valid() && variant.Rolling?
      modifies this, policy
      ensures Valid() && State() == Exit(variant, s, old(State()), l)
      ensures raised <==> l == LastLayer(s) && AwaitTransfer(old(State()), l).policy.Raises(true)
    {
      raised := false;
      WaitForTransfer(l);
      RecordComputeEvent(l);
      if l == s.stats[|s.stats| - 1] { raised := JoinLastLayer(); }
    }

    method ExitReordered(l: Label) returns (raised: bool)
      requires Valid() && variant.Reordered?
      modifies this, policy
      ensures Valid() && State() == Exit(variant, s, old(State()), l)
      ensures raised <==> l == LastLayer(s) && old(policy.State()).Raises(true)
    {
      raised := false;
      RecordComputeEvent(l);
      if l == s.stats[|s.stats| - 1] { raised := JoinLastLayer(); }
    }

    /** Here the policy is asked first; the join and the clears still always happen. */
    method JoinAfterForward() returns (raised: bool)
      requires Valid()
      modifies this, policy
      ensures Valid() && State() == Join(old(State()), false) && raised == old(policy.State()).Raises(false)
    {
      var _, _, error := policy.OnPieceJoin(false);
      if hasPendingTransferWork {
        JoinTransferStream();
        hasPendingTransferWork := false;
      }
      ClearEventMaps();
      raised := error;
    }

    /** One complete forward of the traps, with a join after each marked layer. */
    method RunForward(joins: seq<bool>)
      requires Valid() && |joins| == |s.stats|
      modifies this, policy
      ensures Valid() && State() == Layers(variant, s, old(State()), joins, |s.stats|)
    {
      hide Trap;
      ghost var start := State();
      for k := 0 to |s.stats|
        invariant IsLayers(start, joins, k)
      {
        RunLayer(start, joins, k);
      }
    }

    /** Complete forwards, one for each element of `script`. */
    method RunForwards(script: seq<seq<bool>>)
      requires Valid() && forall f :: f in script ==> |f| == |s.stats|
      modifies this, policy
      ensures Valid() && State() == Forwards(variant, s, old(State()), script)
    {
      hide Trap, Layers;
      ghost var start := State();
      for i := 0 to |script|
        invariant Valid() && State() == Forwards(variant, s, start, script[..i])
      {
        ghost var before := State();
        RunForward(script[i]);
        ForwardIsNext(variant, s, start, before, State(), script, i);
      }
      assert script[..|script|] == script;
    }

    /** The state is that before layer k of a forward from `start`. */
    ghost predicate IsLayers(start: Loader, joins: seq<bool>, k: nat)
      reads this, policy
    {
      && Valid() && OccupantsKnown(s, start) && |joins| == |s.stats| && k <= |s.stats|
      && State() == Layers(variant, s, start, joins, k)
    }

    method RunLayer(ghost start: Loader, joins: seq<bool>, k: nat)
      requires k < |s.stats| && IsLayers(start, joins, k)
      modifies this, policy
      ensures IsLayers(start, joins, k + 1)
    {
      ghost var before := State();
      RunTrap(s.stats[k], joins[k]);
      TrapIsNextLayer(variant, s, start, before, State(), joins, k);
    }

    method RunTrap(l: Label, join: bool)
      requires Valid()
      modifies this, policy
      ensures Valid() && State() == Trap(variant, s, old(State()), l, join)
    {
      var raised;
      if variant.Rolling? {
        EnterRolling(l);
        ComputeLayer(l);
        raised := ExitRolling(l);
      } else {
        EnterReordered(l);
        ComputeLayer(l);
        raised := ExitReordered(l);
      }
      if join { raised := JoinAfterForward(); }
    }
  }

  lemma TrapIsNextLayer(v: Variant, s: Schedule, start: Loader, before: Loader, after: Loader, joins: seq<bool>, k: nat)
    requires Loadable(s) && OccupantsKnown(s, start) && |joins| == |s.stats| && k < |s.stats|
    requires before == Layers(v, s, start, joins, k) && after == Trap(v, s, before, s.stats[k], joins[k])
    ensures after == Layers(v, s, start, joins, k + 1)
  {
    NextLayerIsTrap(v, s, start, joins, k + 1);
  }

  lemma ForwardIsNext(v: Variant, s: Schedule, start: Loader, before: Loader, after: Loader, script: seq<seq<bool>>, i: nat)
    requires Loadable(s) && OccupantsKnown(s, start) && i < |script| && forall f :: f in script ==> |f| == |s.stats|
    requires before == Forwards(v, s, start, script[..i]) && after == Layers(v, s, before, script[i], |s.stats|)
    ensures after == Forwards(v, s, start, script[..i + 1])
  {
    hide Trap, Layers;
    assert script[..i + 1][..i] == script[..i];
  }

  /** Construct a loader and run it for any number of forwards with any joins: everything it
      issued to the two streams lets every layer read its own data. */
  method Run(v: Variant, s: Schedule, order: seq<Label>, policy: PiecewisePrefetchPolicy, script: seq<seq<bool>>)
    returns (loader: PreallocatedLoader)
    requires Loadable(s) && s.OverlapFree() && PreloadOrder(s, order) && forall f :: f in script ==> |f| == |s.stats|
    modifies policy
    ensures fresh(loader) && loader.Valid() && loader.s == s
    ensures loader.State() == Forwards(v, s, Preloaded(v, s, order, old(policy.State())), script)
    ensures EveryReadIsRight(s, loader.issued)
  {
    loader := new PreallocatedLoader(v, s, order, policy);
    loader.RunForwards(script);
    RunReadsItsData(v, s, order, old(policy.State()), script);
  }

  lemma RunReadsItsData(v: Variant, s: Schedule, order: seq<Label>, policy: Policy, script: seq<seq<bool>>)
    requires Loadable(s) && s.OverlapFree() && PreloadOrder(s, order) && forall f :: f in script ==> |f| == |s.stats|
    ensures EveryReadIsRight(s, Forwards(v, s, Preloaded(v, s, order, policy), script).issued)
  {
    EveryRunReadsItsData(v, s, order, policy, script, seq(|s.stats|, _ => false), 0);
  }
}
