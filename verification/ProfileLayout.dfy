/** Which tensors a profile shares between labels, and the layout that follows from it. */
module ProfileLayout {
  import opened Arithmetic
  import opened Timeline
  import opened SlotLayout

  datatype LayerStats = LayerStats(name: Label, tensorIds: seq<int>)

  const DEFAULT_SLOT_ALIGNMENT_BYTES: nat := DEFAULT_PACKED_TENSOR_ALIGNMENT_BYTES

  type Tensors = map<int, Tensor>

  // ---------------------------------------------------------------------------
  // Collecting
  // ---------------------------------------------------------------------------

  /** The ids of one layer that are known, each once. */
  function Kept(ids: seq<int>, tensors: Tensors): (r: seq<int>)
    ensures forall tid :: tid in r <==> tid in ids && tid in tensors
    ensures forall i, j :: 0 <= i < j < |r| ==> r[i] != r[j]
  {
    if ids == [] then []
    else
      var last := ids[|ids| - 1];
      var before := Kept(ids[..|ids| - 1], tensors);
      assert ids == ids[..|ids| - 1] + [last];
      if last in before || last !in tensors then before else before + [last]
  }

  /** A label that comes again replaces what it had. */
  function LabelTensors(stats: seq<LayerStats>, tensors: Tensors): map<Label, seq<int>> {
    if stats == [] then map[]
    else
      var last := stats[|stats| - 1];
      LabelTensors(stats[..|stats| - 1], tensors)[last.name := Kept(last.tensorIds, tensors)]
  }

  /** How many layers list a tensor; a label that comes again counts again. */
  function Count(stats: seq<LayerStats>, tensors: Tensors, tid: int): nat {
    if stats == [] then 0
    else Count(stats[..|stats| - 1], tensors, tid) + if tid in Kept(stats[|stats| - 1].tensorIds, tensors) then 1 else 0
  }

  function AddNew(seen: seq<int>, ids: seq<int>): (r: seq<int>)
    ensures forall tid :: tid in r <==> tid in seen || tid in ids
  {
    if ids == [] then seen
    else
      var last := ids[|ids| - 1];
      var before := AddNew(seen, ids[..|ids| - 1]);
      assert ids == ids[..|ids| - 1] + [last];
      if last in before then before else before + [last]
  }

  /** The tensors listed, in the order they are first met. */
  function FirstMet(stats: seq<LayerStats>, tensors: Tensors): (r: seq<int>)
    ensures forall tid :: tid in r <==> Count(stats, tensors, tid) > 0
  {
    if stats == [] then [] else AddNew(FirstMet(stats[..|stats| - 1], tensors), Kept(stats[|stats| - 1].tensorIds, tensors))
  }

  ghost predicate NoRepeats(ids: seq<int>) {
    forall i, j :: 0 <= i < j < |ids| ==> ids[i] != ids[j]
  }

  lemma {:induction false} AddNewKeepsDistinct(seen: seq<int>, ids: seq<int>)
    requires NoRepeats(seen)
    ensures NoRepeats(AddNew(seen, ids))
  {
    if ids != [] { AddNewKeepsDistinct(seen, ids[..|ids| - 1]); }
  }

  /** A dict of shared slots loses none: the shared ids are all different. */
  lemma {:induction false} MetOnce(stats: seq<LayerStats>, tensors: Tensors)
    ensures NoRepeats(FirstMet(stats, tensors))
  {
    if stats != [] {
      MetOnce(stats[..|stats| - 1], tensors);
      AddNewKeepsDistinct(FirstMet(stats[..|stats| - 1], tensors), Kept(stats[|stats| - 1].tensorIds, tensors));
    }
  }

  lemma {:induction false} ListedIsCounted(stats: seq<LayerStats>, tensors: Tensors, l: Label, tid: int)
    requires l in LabelTensors(stats, tensors) && tid in LabelTensors(stats, tensors)[l]
    ensures Count(stats, tensors, tid) > 0 && tid in tensors
  {
    var last := |stats| - 1;
    if stats[last].name != l { ListedIsCounted(stats[..last], tensors, l, tid); }
  }

  /** A tensor of two labels is shared, even when labels repeat. */
  lemma {:induction false} TwoLabelsShare(stats: seq<LayerStats>, tensors: Tensors, l: Label, m: Label, tid: int)
    requires l in LabelTensors(stats, tensors) && m in LabelTensors(stats, tensors) && l != m
    requires tid in LabelTensors(stats, tensors)[l] && tid in LabelTensors(stats, tensors)[m]
    ensures Count(stats, tensors, tid) >= 2
  {
    var last := |stats| - 1;
    if stats[last].name == l {
      ListedIsCounted(stats[..last], tensors, m, tid);
    } else if stats[last].name == m {
      ListedIsCounted(stats[..last], tensors, l, tid);
    } else {
      TwoLabelsShare(stats[..last], tensors, l, m, tid);
    }
  }

  // ---------------------------------------------------------------------------
  // The layout
  // ---------------------------------------------------------------------------

  function Shared(stats: seq<LayerStats>, tensors: Tensors, met: seq<int>): (r: seq<int>)
    ensures forall tid :: tid in r <==> tid in met && Count(stats, tensors, tid) >= 2
  {
    if met == [] then []
    else
      var last := met[|met| - 1];
      assert met == met[..|met| - 1] + [last];
      Shared(stats, tensors, met[..|met| - 1]) + if Count(stats, tensors, last) >= 2 then [last] else []
  }

  function SharedIds(stats: seq<LayerStats>, tensors: Tensors): (r: seq<int>)
    ensures forall tid :: tid in r <==> Count(stats, tensors, tid) >= 2
  {
    Shared(stats, tensors, FirstMet(stats, tensors))
  }

  /** The ids that are not shared. */
  function Private(ids: seq<int>, shared: seq<int>): (r: seq<int>)
    ensures forall tid :: tid in r <==> tid in ids && tid !in shared
  {
    if ids == [] then []
    else
      var last := ids[|ids| - 1];
      assert ids == ids[..|ids| - 1] + [last];
      Private(ids[..|ids| - 1], shared) + if last in shared then [] else [last]
  }

  /** The slots of the shared prefix, the slots of each label, and the sizes. */
  datatype Layout = Layout(shared: seq<(int, Slot)>, sharedSize: nat, labels: map<Label, seq<(int, Slot)>>, blockSize: nat)

  ghost predicate TensorsOk(tensors: Tensors) {
    forall tid :: tid in tensors ==> TensorOk(tensors[tid], DEFAULT_SLOT_ALIGNMENT_BYTES)
  }

  function SharedSlots(stats: seq<LayerStats>, tensors: Tensors): seq<(int, Slot)>
    requires TensorsOk(tensors)
  {
    SharedAreKnown(stats, tensors);
    PackSlots(tensors, SharedIds(stats, tensors), 0, DEFAULT_SLOT_ALIGNMENT_BYTES)
  }

  lemma ListedAreKnown(stats: seq<LayerStats>, tensors: Tensors, l: Label)
    requires l in LabelTensors(stats, tensors)
    ensures forall tid :: tid in LabelTensors(stats, tensors)[l] ==> tid in tensors
  {
    forall tid | tid in LabelTensors(stats, tensors)[l] ensures tid in tensors { ListedIsCounted(stats, tensors, l, tid); }
  }

  lemma {:induction false} CountedIsKnown(stats: seq<LayerStats>, tensors: Tensors, tid: int)
    requires Count(stats, tensors, tid) > 0
    ensures tid in tensors
  {
    if tid !in Kept(stats[|stats| - 1].tensorIds, tensors) { CountedIsKnown(stats[..|stats| - 1], tensors, tid); }
  }

  lemma SharedAreKnown(stats: seq<LayerStats>, tensors: Tensors)
    ensures forall tid :: tid in SharedIds(stats, tensors) ==> tid in tensors
  {
    forall tid | tid in SharedIds(stats, tensors) ensures tid in tensors { CountedIsKnown(stats, tensors, tid); }
  }

  /** Slots of these tensors one after another from `start`. */
  ghost predicate IsPacked(slots: seq<(int, Slot)>, ids: seq<int>, start: nat, tensors: Tensors) {
    AllKnown(ids, tensors, DEFAULT_SLOT_ALIGNMENT_BYTES) && slots == PackSlots(tensors, ids, start, DEFAULT_SLOT_ALIGNMENT_BYTES)
  }

  /** Every listed label has the slots of its own tensors, from the end of the prefix. */
  ghost predicate SlotsFor(labels: map<Label, seq<(int, Slot)>>, listed: map<Label, seq<int>>, shared: seq<int>,
                           start: nat, tensors: Tensors) {
    labels.Keys <= listed.Keys && forall l :: l in labels ==> IsPacked(labels[l], Private(listed[l], shared), start, tensors)
  }

  /** The region is as large as the largest label needs. */
  ghost predicate LargestRegion(labels: map<Label, seq<(int, Slot)>>, start: nat, size: nat) {
    && (forall l :: l in labels ==> EndOf(labels[l], start) <= start + size)
    && (size == 0 || exists l :: l in labels && EndOf(labels[l], start) == start + size)
  }

  /** L is the layout of these layers. */
  ghost predicate IsLayout(L: Layout, stats: seq<LayerStats>, tensors: Tensors)
    requires TensorsOk(tensors)
  {
    && L.shared == SharedSlots(stats, tensors) && L.sharedSize == EndOf(L.shared, 0) <= L.blockSize
    && L.labels.Keys == LabelTensors(stats, tensors).Keys
    && SlotsFor(L.labels, LabelTensors(stats, tensors), SharedIds(stats, tensors), L.sharedSize, tensors)
    && LargestRegion(L.labels, L.sharedSize, L.blockSize - L.sharedSize)
  }

  /** Slots of the prefix and of one label are aligned, inside their region and apart. */
  ghost predicate LayoutFits(L: Layout, tensors: Tensors) {
    && L.sharedSize <= L.blockSize && SlotsFit(tensors, L.shared, 0, L.sharedSize)
    && forall l :: l in L.labels ==> SlotsFit(tensors, L.labels[l], L.sharedSize, L.blockSize)
  }

  /** A tensor of a label is in the prefix or else in the region of that label and no other. */
  ghost predicate LayoutCovers(L: Layout, listed: map<Label, seq<int>>) {
    && L.labels.Keys == listed.Keys
    && (forall l, tid :: l in listed && tid in listed[l] ==> HasSlot(L.shared, tid) || HasSlot(L.labels[l], tid))
    && (forall l, m, tid :: l in L.labels && m in L.labels && HasSlot(L.labels[l], tid) && HasSlot(L.labels[m], tid) ==> l == m)
    && (forall l, tid :: l in L.labels && HasSlot(L.labels[l], tid) ==> !HasSlot(L.shared, tid))
  }

  ghost predicate HasSlot(slots: seq<(int, Slot)>, tid: int) {
    exists i :: 0 <= i < |slots| && slots[i].0 == tid
  }

  lemma PackedHasSlot(tensors: Tensors, ids: seq<int>, start: nat, tid: int)
    requires AllKnown(ids, tensors, DEFAULT_SLOT_ALIGNMENT_BYTES)
    ensures HasSlot(PackSlots(tensors, ids, start, DEFAULT_SLOT_ALIGNMENT_BYTES), tid) <==> tid in ids
  {
    var slots := PackSlots(tensors, ids, start, DEFAULT_SLOT_ALIGNMENT_BYTES);
    if tid in ids {
      var i :| 0 <= i < |ids| && ids[i] == tid;
      assert slots[i].0 == tid;
    }
  }

  lemma LayoutIsOk(L: Layout, stats: seq<LayerStats>, tensors: Tensors)
    requires TensorsOk(tensors) && IsLayout(L, stats, tensors)
    ensures LayoutFits(L, tensors) && LayoutCovers(L, LabelTensors(stats, tensors))
  {
    SharedAreKnown(stats, tensors);
    PackedSlotsFit(tensors, SharedIds(stats, tensors), 0, DEFAULT_SLOT_ALIGNMENT_BYTES);
    forall l | l in L.labels ensures SlotsFit(tensors, L.labels[l], L.sharedSize, L.blockSize) {
      LabelFits(L, stats, tensors, l);
    }
    SlotsCover(L, stats, tensors);
  }

  lemma SlotsCover(L: Layout, stats: seq<LayerStats>, tensors: Tensors)
    requires TensorsOk(tensors) && IsLayout(L, stats, tensors)
    ensures LayoutCovers(L, LabelTensors(stats, tensors))
  {
    var listed := LabelTensors(stats, tensors);
    forall l, tid | l in listed && tid in listed[l] ensures HasSlot(L.shared, tid) || HasSlot(L.labels[l], tid) {
      SharedHasSlot(L, stats, tensors, tid);
      LabelHasSlot(L, stats, tensors, l, tid);
    }
    forall l, m, tid | l in L.labels && m in L.labels && HasSlot(L.labels[l], tid) && HasSlot(L.labels[m], tid) ensures l == m {
      LabelHasSlot(L, stats, tensors, l, tid);
      LabelHasSlot(L, stats, tensors, m, tid);
      if l != m { TwoLabelsShare(stats, tensors, l, m, tid); }
    }
    forall l, tid | l in L.labels && HasSlot(L.labels[l], tid) ensures !HasSlot(L.shared, tid) {
      SharedHasSlot(L, stats, tensors, tid);
      LabelHasSlot(L, stats, tensors, l, tid);
    }
  }

  lemma SharedHasSlot(L: Layout, stats: seq<LayerStats>, tensors: Tensors, tid: int)
    requires TensorsOk(tensors) && IsLayout(L, stats, tensors)
    ensures HasSlot(L.shared, tid) <==> tid in SharedIds(stats, tensors)
  {
    SharedAreKnown(stats, tensors);
    PackedHasSlot(tensors, SharedIds(stats, tensors), 0, tid);
  }

  lemma LabelHasSlot(L: Layout, stats: seq<LayerStats>, tensors: Tensors, l: Label, tid: int)
    requires TensorsOk(tensors) && IsLayout(L, stats, tensors) && l in LabelTensors(stats, tensors)
    ensures HasSlot(L.labels[l], tid) <==> tid in LabelTensors(stats, tensors)[l] && tid !in SharedIds(stats, tensors)
  {
    PackedHasSlot(tensors, Private(LabelTensors(stats, tensors)[l], SharedIds(stats, tensors)), L.sharedSize, tid);
  }

  lemma LabelFits(L: Layout, stats: seq<LayerStats>, tensors: Tensors, l: Label)
    requires TensorsOk(tensors) && IsLayout(L, stats, tensors) && l in L.labels
    ensures SlotsFit(tensors, L.labels[l], L.sharedSize, L.blockSize)
  {
    var ids := Private(LabelTensors(stats, tensors)[l], SharedIds(stats, tensors));
    PackedSlotsFit(tensors, ids, L.sharedSize, DEFAULT_SLOT_ALIGNMENT_BYTES);
    WiderFits(tensors, L.labels[l], L.sharedSize, EndOf(L.labels[l], L.sharedSize), L.blockSize);
  }

  // ---------------------------------------------------------------------------
  // Computing the layout
  // ---------------------------------------------------------------------------

  method CollectLabelTensors(stats: seq<LayerStats>, tensors: Tensors)
    returns (labelTensors: map<Label, seq<int>>, met: seq<int>, labelCount: map<int, nat>)
    ensures labelTensors == LabelTensors(stats, tensors) && met == FirstMet(stats, tensors)
    ensures forall tid :: CountedIn(labelCount, tid) == Count(stats, tensors, tid)
  {
    labelTensors, met, labelCount := map[], [], map[];
    for i := 0 to |stats|
      invariant labelTensors == LabelTensors(stats[..i], tensors) && met == FirstMet(stats[..i], tensors)
      invariant forall tid :: tid in labelCount <==> tid in met
      invariant forall tid :: CountedIn(labelCount, tid) == Count(stats[..i], tensors, tid)
    {
      var stat := stats[i];
      assert stats[..i + 1][..i] == stats[..i];
      var ordered := KeepKnown(stat.tensorIds, tensors);
      labelTensors := labelTensors[stat.name := ordered];
      met, labelCount := CountAll(met, labelCount, ordered);
    }
    assert stats[..|stats|] == stats;
  }

  method KeepKnown(ids: seq<int>, tensors: Tensors) returns (ordered: seq<int>)
    ensures ordered == Kept(ids, tensors)
  {
    var seen: set<int> := {};
    ordered := [];
    for i := 0 to |ids|
      invariant ordered == Kept(ids[..i], tensors) && forall tid :: tid in seen <==> tid in ordered
    {
      assert ids[..i + 1][..i] == ids[..i];
      if ids[i] !in seen && ids[i] in tensors {
        seen, ordered := seen + {ids[i]}, ordered + [ids[i]];
      }
    }
    assert ids[..|ids|] == ids;
  }

  function CountedIn(labelCount: map<int, nat>, tid: int): nat {
    if tid in labelCount then labelCount[tid] else 0
  }

  /** Each of the ids counts once more. */
  ghost predicate Counted(labelCount: map<int, nat>, labelCount': map<int, nat>, ids: seq<int>) {
    forall tid :: CountedIn(labelCount', tid) == CountedIn(labelCount, tid) + if tid in ids then 1 else 0
  }

  lemma AddNothing(met: seq<int>)
    ensures AddNew(met, []) == met
  {
  }

  lemma NoneCounted(labelCount: map<int, nat>)
    ensures Counted(labelCount, labelCount, [])
  {
  }

  lemma CountedNext(labelCount: map<int, nat>, labelCount': map<int, nat>, ids: seq<int>, tid: int)
    requires Counted(labelCount, labelCount', ids) && tid !in ids
    ensures Counted(labelCount, labelCount'[tid := CountedIn(labelCount', tid) + 1], ids + [tid])
  {
  }

  lemma OneMore(met: seq<int>, ordered: seq<int>, i: nat)
    requires i < |ordered| && forall i, j :: 0 <= i < j < |ordered| ==> ordered[i] != ordered[j]
    ensures ordered[..i + 1] == ordered[..i] + [ordered[i]] && ordered[i] !in ordered[..i]
    ensures AddNew(met, ordered[..i + 1]) ==
              var before := AddNew(met, ordered[..i]);
              if ordered[i] in before then before else before + [ordered[i]]
  {
    assert ordered[..i + 1][..i] == ordered[..i];
  }

  method CountAll(met: seq<int>, labelCount: map<int, nat>, ordered: seq<int>) returns (met': seq<int>,
                  labelCount': map<int, nat>)
    requires forall i, j :: 0 <= i < j < |ordered| ==> ordered[i] != ordered[j]
    requires forall tid :: tid in labelCount <==> tid in met
    ensures met' == AddNew(met, ordered) && forall tid :: tid in labelCount' <==> tid in met'
    ensures Counted(labelCount, labelCount', ordered)
  {
    hide Counted, CountedIn, AddNew;
    met', labelCount' := met, labelCount;
    NoneCounted(labelCount);
    AddNothing(met);
    for i := 0 to |ordered|
      invariant met' == AddNew(met, ordered[..i]) && forall tid :: tid in labelCount' <==> tid in met'
      invariant Counted(labelCount, labelCount', ordered[..i])
    {
      var tid := ordered[i];
      OneMore(met, ordered, i);
      CountedNext(labelCount, labelCount', ordered[..i], tid);
      if tid !in labelCount' { met' := met' + [tid]; }
      labelCount' := labelCount'[tid := CountedIn(labelCount', tid) + 1];
    }
    assert ordered[..|ordered|] == ordered;
  }

  /** Slots one after another from `start`, and where they end. */
  method LayoutSlots(tensors: Tensors, ids: seq<int>, start: nat) returns (slots: seq<(int, Slot)>, cursor: nat)
    requires AllKnown(ids, tensors, DEFAULT_SLOT_ALIGNMENT_BYTES)
    ensures slots == PackSlots(tensors, ids, start, DEFAULT_SLOT_ALIGNMENT_BYTES) && cursor == EndOf(slots, start)
  {
    slots, cursor := [], start;
    for i := 0 to |ids|
      invariant AllKnown(ids[..i], tensors, DEFAULT_SLOT_ALIGNMENT_BYTES)
      invariant slots == PackSlots(tensors, ids[..i], start, DEFAULT_SLOT_ALIGNMENT_BYTES) && cursor == EndOf(slots, start)
    {
      var tid := ids[i];
      assert tid in ids && ids[..i + 1][..i] == ids[..i];
      var meta := BuildSlot(tensors[tid], cursor, DEFAULT_SLOT_ALIGNMENT_BYTES);
      slots, cursor := slots + [(tid, meta)], meta.end;
    }
    assert ids[..|ids|] == ids;
  }

  method ComputeLayout(stats: seq<LayerStats>, tensors: Tensors) returns (L: Layout)
    requires TensorsOk(tensors)
    ensures IsLayout(L, stats, tensors)
  {
    var labelTensors, met, labelCount := CollectLabelTensors(stats, tensors);
    var sharedIds := SharedOf(met, labelCount, stats, tensors);
    SharedAreKnown(stats, tensors);
    var shared, sharedSize := LayoutSlots(tensors, sharedIds, 0);
    forall l | l in labelTensors ensures AllKnown(labelTensors[l], tensors, DEFAULT_SLOT_ALIGNMENT_BYTES) {
      ListedAreKnown(stats, tensors, l);
    }
    var labels, rotatingSize := LayoutRotatingRegion(tensors, labelTensors, sharedIds, sharedSize);
    L := Layout(shared, sharedSize, labels, sharedSize + rotatingSize);
  }

  method SharedOf(met: seq<int>, labelCount: map<int, nat>, ghost stats: seq<LayerStats>,
                  ghost tensors: Tensors) returns (r: seq<int>)
    requires forall tid :: CountedIn(labelCount, tid) == Count(stats, tensors, tid)
    ensures r == Shared(stats, tensors, met)
  {
    r := [];
    for i := 0 to |met|
      invariant r == Shared(stats, tensors, met[..i])
    {
      assert met[..i + 1][..i] == met[..i];
      if CountedIn(labelCount, met[i]) >= 2 { r := r + [met[i]]; }
    }
    assert met[..|met|] == met;
  }

  /** Each label has the rotating region to itself. */
  method LayoutRotatingRegion(tensors: Tensors, labelTensors: map<Label, seq<int>>, sharedIds: seq<int>,
                              sharedSize: nat)
    returns (labels: map<Label, seq<(int, Slot)>>, maxLabelBytes: nat)
    requires forall l :: l in labelTensors ==> AllKnown(labelTensors[l], tensors, DEFAULT_SLOT_ALIGNMENT_BYTES)
    ensures labels.Keys == labelTensors.Keys && SlotsFor(labels, labelTensors, sharedIds, sharedSize, tensors)
    ensures LargestRegion(labels, sharedSize, maxLabelBytes)
  {
    labels, maxLabelBytes := map[], 0;
    var todo := labelTensors.Keys;
    while todo != {}
      invariant todo <= labelTensors.Keys && labels.Keys == labelTensors.Keys - todo
      invariant SlotsFor(labels, labelTensors, sharedIds, sharedSize, tensors) && LargestRegion(labels, sharedSize, maxLabelBytes)
      decreases |todo|
    {
      var l :| l in todo;
      PrivateKnown(labelTensors[l], sharedIds, tensors);
      var slots, cursor := LayoutLabel(tensors, Private(labelTensors[l], sharedIds), sharedSize);
      RegionGrows(labels, sharedSize, maxLabelBytes, l, slots);
      SlotsForNext(labels, labelTensors, sharedIds, sharedSize, tensors, l, slots);
      labels, todo := labels[l := slots], todo - {l};
      if cursor - sharedSize > maxLabelBytes { maxLabelBytes := cursor - sharedSize; }
    }
  }

  lemma PrivateKnown(ids: seq<int>, shared: seq<int>, tensors: Tensors)
    requires AllKnown(ids, tensors, DEFAULT_SLOT_ALIGNMENT_BYTES)
    ensures AllKnown(Private(ids, shared), tensors, DEFAULT_SLOT_ALIGNMENT_BYTES)
  {
  }

  lemma SlotsForNext(labels: map<Label, seq<(int, Slot)>>, listed: map<Label, seq<int>>, shared: seq<int>, start: nat,
                     tensors: Tensors,
                     l: Label, slots: seq<(int, Slot)>)
    requires SlotsFor(labels, listed, shared, start, tensors)
    requires l in listed && IsPacked(slots, Private(listed[l], shared), start, tensors)
    ensures SlotsFor(labels[l := slots], listed, shared, start, tensors)
  {
  }

  method LayoutLabel(tensors: Tensors, ids: seq<int>, sharedSize: nat) returns (slots: seq<(int, Slot)>, cursor: nat)
    requires AllKnown(ids, tensors, DEFAULT_SLOT_ALIGNMENT_BYTES)
    ensures IsPacked(slots, ids, sharedSize, tensors) && cursor == EndOf(slots, sharedSize) >= sharedSize
  {
    slots, cursor := LayoutSlots(tensors, ids, sharedSize);
    PackedSlotsFit(tensors, ids, sharedSize, DEFAULT_SLOT_ALIGNMENT_BYTES);
  }

  lemma RegionGrows(labels: map<Label, seq<(int, Slot)>>, start: nat, size: nat, l: Label, slots: seq<(int, Slot)>)
    requires l !in labels && LargestRegion(labels, start, size) && start <= EndOf(slots, start)
    ensures var bytes := EndOf(slots, start) - start;
            LargestRegion(labels[l := slots], start, if bytes > size then bytes else size)
  {
    var labels' := labels[l := slots];
    assert l in labels';
    if EndOf(slots, start) - start <= size && size != 0 {
      var m :| m in labels && EndOf(labels[m], start) == start + size;
      assert m in labels' && labels'[m] == labels[m];
    }
  }
}
