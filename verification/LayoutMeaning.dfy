/** What the layout of a profile is in terms of the layers' lists: which tensors are shared, which
  come first, and that no region is larger than it must be. */
module LayoutMeaning {
  import opened Timeline
  import opened SlotLayout
  import opened ProfileLayout

  ghost predicate Lists(stats: seq<LayerStats>, tensors: Tensors, i: int, tid: int) {
    0 <= i < |stats| && tid in stats[i].tensorIds && tid in tensors
  }

  ghost predicate ListedTwice(stats: seq<LayerStats>, tensors: Tensors, tid: int) {
    exists i, j :: 0 <= i < j && Lists(stats, tensors, i, tid) && Lists(stats, tensors, j, tid)
  }

  /** A tensor is shared exactly when two layers list it. */
  lemma {:induction false} SharedIff(stats: seq<LayerStats>, tensors: Tensors, tid: int)
    ensures Count(stats, tensors, tid) >= 1 <==> exists i :: Lists(stats, tensors, i, tid)
    ensures tid in SharedIds(stats, tensors) <==> ListedTwice(stats, tensors, tid)
  {
    if stats != [] {
      var last := |stats| - 1;
      var before := stats[..last];
      SharedIff(before, tensors, tid);
      forall i | 0 <= i < last ensures Lists(stats, tensors, i, tid) <==> Lists(before, tensors, i, tid) {}
      CountTwice(stats, tensors, tid);
    }
  }

  lemma CountTwice(stats: seq<LayerStats>, tensors: Tensors, tid: int)
    requires stats != []
    requires var before := stats[..|stats| - 1];
             && (Count(before, tensors, tid) >= 1 <==> exists i :: Lists(before, tensors, i, tid))
             && (Count(before, tensors, tid) >= 2 <==> ListedTwice(before, tensors, tid))
    ensures Count(stats, tensors, tid) >= 1 <==> exists i :: Lists(stats, tensors, i, tid)
    ensures Count(stats, tensors, tid) >= 2 <==> ListedTwice(stats, tensors, tid)
  {
    var last := |stats| - 1;
    var before := stats[..last];
    forall i | 0 <= i < last ensures Lists(stats, tensors, i, tid) <==> Lists(before, tensors, i, tid) {}
    forall i ensures Lists(before, tensors, i, tid) ==> i < last && Lists(stats, tensors, i, tid) {}
    if ListedTwice(before, tensors, tid) {
      var i, j :| 0 <= i < j && Lists(before, tensors, i, tid) && Lists(before, tensors, j, tid);
      assert Lists(stats, tensors, i, tid) && Lists(stats, tensors, j, tid);
    } else if Lists(stats, tensors, last, tid) && exists i :: Lists(before, tensors, i, tid) {
      var i :| Lists(before, tensors, i, tid);
      assert Lists(stats, tensors, i, tid);
    }
  }

  /** A label's tensors are those of the last layer of that name. */
  lemma {:induction false} LabelTensorsMean(stats: seq<LayerStats>, tensors: Tensors, l: Label)
    ensures l in LabelTensors(stats, tensors) <==> exists i :: 0 <= i < |stats| && stats[i].name == l
    ensures forall i :: 0 <= i < |stats| && stats[i].name == l && (forall j :: i < j < |stats| ==> stats[j].name != l) ==>
                        l in LabelTensors(stats, tensors) && LabelTensors(stats, tensors)[l] == Kept(stats[i].tensorIds, tensors)
  {
    if stats != [] { LabelTensorsMean(stats[..|stats| - 1], tensors, l); }
  }

  // ---------------------------------------------------------------------------
  // The order of slots
  // ---------------------------------------------------------------------------

  /** In r, whatever stands before a tensor is also in `ids` before every place of that tensor. */
  ghost predicate InFirstOrder(r: seq<int>, ids: seq<int>) {
    forall i, j, p :: 0 <= i < j < |r| && 0 <= p < |ids| && ids[p] == r[j] ==> r[i] in ids[..p]
  }

  lemma {:induction false} KeptInOrder(ids: seq<int>, tensors: Tensors)
    ensures InFirstOrder(Kept(ids, tensors), ids)
  {
    if ids != [] {
      var last := |ids| - 1;
      var before, r := Kept(ids[..last], tensors), Kept(ids, tensors);
      KeptInOrder(ids[..last], tensors);
      forall i, j, p | 0 <= i < j < |r| && 0 <= p < |ids| && ids[p] == r[j] ensures r[i] in ids[..p] {
        assert r[i] in before;
        if p < last {
          assert ids[..last][..p] == ids[..p] && ids[..last][p] == r[j];
          assert r[j] in before;
          assert j < |before|;
        } else {
          assert ids[..p] == ids[..last];
        }
      }
    }
  }

  /** All the ids, layer after layer. */
  function AllIds(stats: seq<LayerStats>): seq<int> {
    if stats == [] then [] else AllIds(stats[..|stats| - 1]) + stats[|stats| - 1].tensorIds
  }

  lemma {:induction false} KeptAppends(a: seq<int>, b: seq<int>, tensors: Tensors)
    ensures Kept(a + b, tensors) == AddNew(Kept(a, tensors), Kept(b, tensors))
  {
    if b == [] {
      assert a + b == a;
    } else {
      var last := |b| - 1;
      assert (a + b)[..|a + b| - 1] == a + b[..last] && (a + b)[|a + b| - 1] == b[last];
      KeptAppends(a, b[..last], tensors);
      var before := Kept(b[..last], tensors);
      if b[last] !in before && b[last] in tensors { assert (before + [b[last]])[..|before|] == before; }
    }
  }

  /** Tensors are met in the order in which the layers, one after another, first list them. */
  lemma {:induction false} MetInOrder(stats: seq<LayerStats>, tensors: Tensors)
    ensures FirstMet(stats, tensors) == Kept(AllIds(stats), tensors)
    ensures InFirstOrder(FirstMet(stats, tensors), AllIds(stats))
  {
    if stats != [] {
      var last := |stats| - 1;
      MetInOrder(stats[..last], tensors);
      KeptAppends(AllIds(stats[..last]), stats[last].tensorIds, tensors);
    }
    KeptInOrder(AllIds(stats), tensors);
  }

  // ---------------------------------------------------------------------------
  // Nothing is larger than it must be
  // ---------------------------------------------------------------------------

  /** Each slot begins at the first aligned byte after the one before it. */
  ghost predicate Tight(tensors: Tensors, slots: seq<(int, Slot)>, start: nat, alignment: nat) {
    forall i :: 0 <= i < |slots| ==> FollowsTightly(tensors, slots, start, alignment, i)
  }

  ghost predicate FollowsTightly(tensors: Tensors, slots: seq<(int, Slot)>, start: nat, alignment: nat, i: nat)
    requires i < |slots|
  {
    var (tid, s) := slots[i];
    tid in tensors && tensors[tid].itemsize > 0 &&
    IsFirst(s.start, if i == 0 then start else slots[i - 1].1.end,
            if tensors[tid].itemsize > alignment then tensors[tid].itemsize else alignment)
  }

  lemma {:induction false} PackedTightly(tensors: Tensors, ids: seq<int>, start: nat, alignment: nat)
    requires AllKnown(ids, tensors, alignment)
    ensures Tight(tensors, PackSlots(tensors, ids, start, alignment), start, alignment)
  {
    if ids != [] {
      var last := |ids| - 1;
      var slots, before := PackSlots(tensors, ids, start, alignment), PackSlots(tensors, ids[..last], start, alignment);
      PackedTightly(tensors, ids[..last], start, alignment);
      assert ids[last] in ids;
      SlotAccepted(tensors[ids[last]], EndOf(before, start), alignment);
      forall i | 0 <= i < |slots| ensures FollowsTightly(tensors, slots, start, alignment, i) {
        assert i < last ==> FollowsTightly(tensors, before, start, alignment, i) && slots[i] == before[i];
        assert 0 < i ==> slots[i - 1] == before[i - 1];
      }
    }
  }

  ghost predicate EndsAt(slots: seq<(int, Slot)>, at: nat) {
    exists i :: 0 <= i < |slots| && slots[i].1.end == at
  }

  /** Prefix and block end where a slot ends, and slots follow each other tightly. */
  lemma LayoutIsTight(L: Layout, stats: seq<LayerStats>, tensors: Tensors)
    requires TensorsOk(tensors) && IsLayout(L, stats, tensors)
    ensures L.sharedSize == 0 || EndsAt(L.shared, L.sharedSize)
    ensures L.blockSize == L.sharedSize || exists l :: l in L.labels && EndsAt(L.labels[l], L.blockSize)
    ensures Tight(tensors, L.shared, 0, DEFAULT_SLOT_ALIGNMENT_BYTES)
    ensures forall l :: l in L.labels ==> Tight(tensors, L.labels[l], L.sharedSize, DEFAULT_SLOT_ALIGNMENT_BYTES)
  {
    SharedAreKnown(stats, tensors);
    PackedTightly(tensors, SharedIds(stats, tensors), 0, DEFAULT_SLOT_ALIGNMENT_BYTES);
    forall l | l in L.labels ensures Tight(tensors, L.labels[l], L.sharedSize, DEFAULT_SLOT_ALIGNMENT_BYTES) {
      PackedTightly(tensors, Private(LabelTensors(stats, tensors)[l], SharedIds(stats, tensors)), L.sharedSize, DEFAULT_SLOT_ALIGNMENT_BYTES);
    }
    if L.shared != [] { assert L.shared[|L.shared| - 1].1.end == L.sharedSize; }
    if L.blockSize > L.sharedSize {
      var l :| l in L.labels && EndOf(L.labels[l], L.sharedSize) == L.blockSize;
      assert L.labels[l][|L.labels[l]| - 1].1.end == L.blockSize;
    }
  }
}
