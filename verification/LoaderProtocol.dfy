/** The protocol both block loaders follow, as functions on the loader's state. Rolling is
  PreallocatedBatchTransferTensorLoader, Reordered is its Reordered variant. */
module LoaderProtocol {
  import opened Timeline
  import opened Streams
  import opened PrefetchPolicy

  datatype Variant = Rolling | Reordered

  /** `issued` are the operations issued to the two streams so far; an event handle is the
      index of its Record. `scheduled` is scheduled_transfers, `occupant` is
      last_block_id_to_label_map, `pending` is _has_pending_transfer_work. */
  datatype Loader = Loader(
    scheduled: map<Label, nat>,
    computeEvents: map<Label, nat>,
    occupant: map<int, Label>,
    pending: bool,
    policy: Policy,
    issued: Trace)

  /** What the loaders are built with: every transfer has a block and names known layers. */
  ghost predicate Loadable(s: Schedule) {
    s.WellPlaced() && s.compute.Keys == s.block.Keys && s.stats != []
  }

  function Issue(st: Loader, ops: Trace): Loader { st.(issued := st.issued + ops) }

  /** The compute stream waits for everything issued on the transfer stream. */
  function JoinStreams(st: Loader): Loader {
    Issue(st, [Record(TransferStream), Wait(ComputeStream, |st.issued|)])
  }

  function ClearMaps(st: Loader): Loader {
    st.(scheduled := map[], computeEvents := map[], occupant := map[])
  }

  /** First-layer enter: recover from an abort, or drop occupancy left by preload. */
  function StartForward(st: Loader): Loader {
    var a :=
      if st.computeEvents != map[] || st.pending then
        ClearMaps(if st.pending || st.scheduled != map[] then JoinStreams(st) else st)
      else st.(computeEvents := map[], occupant := map[]);
    a.(pending := false, policy := a.policy.Reset())
  }

  /** The transfer stream waits for the compute stream once per forward or piece. */
  function Fork(st: Loader): Loader {
    if st.pending then st
    else Issue(st, [Record(ComputeStream), Wait(TransferStream, |st.issued|)]).(pending := true)
  }

  function AwaitTransfer(st: Loader, l: Label): Loader {
    if l in st.scheduled then
      Issue(st, [Wait(ComputeStream, st.scheduled[l])]).(policy := st.policy.OnWait(l))
    else st
  }

  /** Occupants are transfers of the schedule. */
  predicate OccupantsKnown(s: Schedule, st: Loader) {
    forall b :: b in st.occupant ==> st.occupant[b] in s.compute
  }

  /** A wait for the event by which the block's previous occupant was read, if on record. */
  function AwaitReader(s: Schedule, st: Loader, b: int): Trace
    requires OccupantsKnown(s, st)
  {
    if b in st.occupant && s.compute[st.occupant[b]] in st.computeEvents then
      [Wait(TransferStream, st.computeEvents[s.compute[st.occupant[b]]])]
    else []
  }

  /** The label a later layer waits for: the slot itself, or the layer that computes. */
  function WaitKey(v: Variant, s: Schedule, l: Label): Label
    requires l in s.compute
  {
    if v.Rolling? then l else s.compute[l]
  }

  function ScheduleCopy(v: Variant, s: Schedule, st: Loader, l: Label): (r: Loader)
    requires l in s.block && l in s.compute && OccupantsKnown(s, st)
    ensures OccupantsKnown(s, r)
  {
    var b, key := s.block[l], WaitKey(v, s, l);
    var a := Issue(st, AwaitReader(s, st, b));
    var c := Issue(a, [Copy(l, b), Record(TransferStream)]);
    c.(occupant := st.occupant[b := l], scheduled := st.scheduled[key := |c.issued| - 1],
       policy := st.policy.OnSchedule(l, key))
  }

  function FirstLayer(s: Schedule): Label
    requires s.stats != []
  {
    s.stats[0]
  }

  function LastLayer(s: Schedule): Label
    requires s.stats != []
  {
    s.stats[|s.stats| - 1]
  }

  function Begin(v: Variant, s: Schedule, st: Loader, l: Label): Loader
    requires Loadable(s)
  {
    var a := Fork(if l == FirstLayer(s) then StartForward(st) else st);
    if v.Reordered? then AwaitTransfer(a, l) else a
  }

  function Enter(v: Variant, s: Schedule, st: Loader, l: Label): (r: Loader)
    requires Loadable(s) && OccupantsKnown(s, st)
    ensures OccupantsKnown(s, r)
  {
    var a := Begin(v, s, st, l);
    if l in s.block then ScheduleCopy(v, s, a, l) else a
  }

  function RecordCompute(st: Loader, l: Label): Loader {
    Issue(st, [Record(ComputeStream)]).(computeEvents := st.computeEvents[l := |st.issued|])
  }

  /** join_after_forward, and the end of the last layer's exit. */
  function Join(st: Loader, atLastLayer: bool): Loader {
    var a := if st.pending then JoinStreams(st).(pending := false) else st;
    ClearMaps(a).(policy := a.policy.AfterJoin(atLastLayer))
  }

  function Exit(v: Variant, s: Schedule, st: Loader, l: Label): Loader
    requires Loadable(s)
  {
    var a := RecordCompute(if v.Rolling? then AwaitTransfer(st, l) else st, l);
    if l == LastLayer(s) then Join(a, true) else a
  }

  /** One layer: enter, compute, exit, and a piece boundary after it if `join`. */
  function Trap(v: Variant, s: Schedule, st: Loader, l: Label, join: bool): (r: Loader)
    requires Loadable(s) && OccupantsKnown(s, st)
    ensures OccupantsKnown(s, r)
  {
    var a := Exit(v, s, Issue(Enter(v, s, st, l), [Compute(l)]), l);
    if join then Join(a, false) else a
  }

  // ---------------------------------------------------------------------------
  // Runs: a preload, then complete forwards
  // ---------------------------------------------------------------------------

  function PreloadCopies(s: Schedule, order: seq<Label>): (tr: Trace)
    requires forall x :: x in order ==> x in s.block
    ensures |tr| == |order| && forall i :: 0 <= i < |tr| ==> tr[i] == Copy(order[i], s.block[order[i]])
  {
    seq(|order|, i requires 0 <= i < |order| => Copy(order[i], s.block[order[i]]))
  }

  /** The bookkeeping of preload; only the reordered loader records an event for each copy. */
  function TrackPreload(v: Variant, s: Schedule, st: Loader, x: Label): Loader
    requires x in s.block && x in s.compute
  {
    var a := st.(occupant := st.occupant[s.block[x] := x]);
    if v.Rolling? then a
    else Issue(a, [Record(TransferStream)]).(scheduled := a.scheduled[s.compute[x] := |a.issued|])
  }

  function TrackPreloads(v: Variant, s: Schedule, st: Loader, order: seq<Label>): (r: Loader)
    requires Loadable(s) && (forall x :: x in order ==> x in s.block) && OccupantsKnown(s, st)
    ensures OccupantsKnown(s, r)
  {
    if order == [] then st
    else
      var last := |order| - 1;
      assert order[last] in s.block.Keys;
      TrackPreload(v, s, TrackPreloads(v, s, st, order[..last]), order[last])
  }

  /** The loader as constructed; `order` lists the transfers to preload. */
  function Preloaded(v: Variant, s: Schedule, order: seq<Label>, policy: Policy): (r: Loader)
    requires Loadable(s) && forall x :: x in order ==> x in s.block
    ensures OccupantsKnown(s, r)
  {
    TrackPreloads(v, s, JoinStreams(Loader(map[], map[], map[], false, policy, PreloadCopies(s, order))), order)
  }

  /** The state before layer k of a forward with a join after each layer that `joins` marks. */
  function Layers(v: Variant, s: Schedule, st: Loader, joins: seq<bool>, k: nat): (r: Loader)
    requires Loadable(s) && OccupantsKnown(s, st) && |joins| == |s.stats| && k <= |s.stats|
    ensures OccupantsKnown(s, r)
  {
    if k == 0 then st else Trap(v, s, Layers(v, s, st, joins, k - 1), s.stats[k - 1], joins[k - 1])
  }

  /** The layer at which the piece of layer p began. */
  function PieceStart(joins: seq<bool>, p: nat): (q: nat)
    requires p <= |joins|
    ensures q <= p
  {
    if p == 0 then 0 else if joins[p - 1] then p else PieceStart(joins, p - 1)
  }

  /** The state after complete forwards, one for each element of `script`. */
  function Forwards(v: Variant, s: Schedule, st: Loader, script: seq<seq<bool>>): (r: Loader)
    requires Loadable(s) && OccupantsKnown(s, st) && forall f :: f in script ==> |f| == |s.stats|
    ensures OccupantsKnown(s, r)
  {
    if script == [] then st
    else
      var last := |script| - 1;
      Layers(v, s, Forwards(v, s, st, script[..last]), script[last], |s.stats|)
  }
}
