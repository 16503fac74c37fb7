/** The profile block: one buffer on each device, repacked whenever a label is entered. */
module ProfileBlock {
  import opened Timeline
  import opened SlotLayout
  import opened ProfileLayout

  /** Every slot shows its tensor's bytes. */
  ghost predicate Shows(block: seq<Byte>, tensors: Tensors, slots: seq<(int, Slot)>) {
    SlotsFit(tensors, slots, 0, |block|) && forall i :: 0 <= i < |slots| ==> ShowsSlot(block, tensors, slots[i])
  }

  ghost predicate ShowsSlot(block: seq<Byte>, tensors: Tensors, entry: (int, Slot))
    requires SlotFits(tensors, entry, 0, |block|)
  {
    Read(block, entry.1) == tensors[entry.0].data
  }

  function MaxEnd(slots: seq<(int, Slot)>, low: nat): (r: nat)
    ensures r >= low && forall i :: 0 <= i < |slots| ==> slots[i].1.end <= r
    ensures r == low || exists i :: 0 <= i < |slots| && slots[i].1.end == r
  {
    if slots == [] then low
    else
      var last := slots[|slots| - 1].1.end;
      var r := MaxEnd(slots[..|slots| - 1], low);
      if last > r then last else r
  }

  lemma WithinBlock(L: Layout, tensors: Tensors, l: Label)
    requires LayoutFits(L, tensors) && l in L.labels
    ensures var slots := L.labels[l];
            SlotsFit(tensors, slots, 0, L.blockSize) && MaxEnd(slots, L.sharedSize) <= L.blockSize
  {
    var slots := L.labels[l];
    forall i | 0 <= i < |slots| ensures SlotFits(tensors, slots[i], 0, L.blockSize) {
      assert SlotFits(tensors, slots[i], L.sharedSize, L.blockSize);
    }
  }

  /** The bytes from low to end copied over. */
  function Splice(gpu: seq<Byte>, packed: seq<Byte>, low: nat, end: nat): (r: seq<Byte>)
    requires low <= end <= |gpu| == |packed|
    ensures |r| == |gpu|
  {
    gpu[..low] + packed[low..end] + gpu[end..]
  }

  /** Both blocks after entering a label. */
  function Entered(L: Layout, tensors: Tensors, cpu: seq<Byte>, gpu: seq<Byte>, l: Label): (r: (seq<Byte>, seq<Byte>))
    requires LayoutFits(L, tensors) && |cpu| == |gpu| == L.blockSize
    ensures |r.0| == |r.1| == L.blockSize
  {
    if l !in L.labels || L.labels[l] == [] then (cpu, gpu)
    else
      WithinBlock(L, tensors, l);
      var packed, end := PackInto(cpu, tensors, L.labels[l]), MaxEnd(L.labels[l], L.sharedSize);
      (packed, Splice(gpu, packed, L.sharedSize, end))
  }

  lemma SpliceReads(gpu: seq<Byte>, packed: seq<Byte>, low: nat, end: nat, from: nat, to: nat)
    requires low <= from <= to <= end <= |gpu| == |packed|
    ensures Splice(gpu, packed, low, end)[from..to] == packed[from..to]
  {
    var front := gpu[..low] + packed[low..end];
    assert forall k :: low <= k < end ==> front[k] == packed[k];
    assert Splice(gpu, packed, low, end)[..end] == front;
  }

  lemma SpliceShows(gpu: seq<Byte>, packed: seq<Byte>, tensors: Tensors, slots: seq<(int, Slot)>, low: nat, end: nat)
    requires low <= end <= |gpu| == |packed| && SlotsFit(tensors, slots, low, end) && Shows(packed, tensors, slots)
    ensures Shows(Splice(gpu, packed, low, end), tensors, slots)
  {
    forall i | 0 <= i < |slots| ensures ShowsSlot(Splice(gpu, packed, low, end), tensors, slots[i]) {
      assert SlotFits(tensors, slots[i], low, end) && ShowsSlot(packed, tensors, slots[i]);
      SpliceReads(gpu, packed, low, end, slots[i].1.start, slots[i].1.end);
    }
  }

  lemma PackedShows(cpu: seq<Byte>, tensors: Tensors, slots: seq<(int, Slot)>)
    requires SlotsFit(tensors, slots, 0, |cpu|)
    ensures Shows(PackInto(cpu, tensors, slots), tensors, slots)
  {
    PackedReads(cpu, tensors, slots, 0);
  }

  lemma EnteredShows(L: Layout, tensors: Tensors, cpu: seq<Byte>, gpu: seq<Byte>, l: Label)
    requires LayoutFits(L, tensors) && |cpu| == |gpu| == L.blockSize
    ensures var gpu' := Entered(L, tensors, cpu, gpu, l).1;
            gpu'[..L.sharedSize] == gpu[..L.sharedSize] && (l in L.labels ==> Shows(gpu', tensors, L.labels[l]))
  {
    if l in L.labels && L.labels[l] != [] {
      var slots, end := L.labels[l], MaxEnd(L.labels[l], L.sharedSize);
      WithinBlock(L, tensors, l);
      PackedShows(cpu, tensors, slots);
      forall i | 0 <= i < |slots| ensures SlotFits(tensors, slots[i], L.sharedSize, end) {
        assert SlotFits(tensors, slots[i], L.sharedSize, L.blockSize);
      }
      SpliceShows(gpu, PackInto(cpu, tensors, slots), tensors, slots, L.sharedSize, end);
    }
  }

  lemma PrefixShows(L: Layout, tensors: Tensors, gpu: seq<Byte>, gpu': seq<Byte>)
    requires LayoutFits(L, tensors) && |gpu| == |gpu'| == L.blockSize && gpu'[..L.sharedSize] == gpu[..L.sharedSize]
    requires Shows(gpu, tensors, L.shared)
    ensures Shows(gpu', tensors, L.shared)
  {
    forall i | 0 <= i < |L.shared| ensures ShowsSlot(gpu', tensors, L.shared[i]) {
      assert SlotFits(tensors, L.shared[i], 0, L.sharedSize);
      assert ShowsSlot(gpu, tensors, L.shared[i]);
      SliceOfPrefix(gpu, gpu', L.sharedSize, L.shared[i].1.start, L.shared[i].1.end);
    }
  }

  lemma SliceOfPrefix(gpu: seq<Byte>, gpu': seq<Byte>, n: nat, start: nat, end: nat)
    requires start <= end <= n <= |gpu| == |gpu'| && gpu'[..n] == gpu[..n]
    ensures gpu'[start..end] == gpu[start..end]
  {
    forall k | start <= k < end ensures gpu'[k] == gpu[k] {
      assert gpu'[..n][k] == gpu[..n][k];
    }
  }

  /** The blocks after any sequence of enters. */
  function Run(L: Layout, tensors: Tensors, cpu: seq<Byte>, gpu: seq<Byte>,
               labels: seq<Label>): (r: (seq<Byte>, seq<Byte>))
    requires LayoutFits(L, tensors) && |cpu| == |gpu| == L.blockSize
    ensures |r.0| == |r.1| == L.blockSize
  {
    if labels == [] then (cpu, gpu)
    else
      var before := Run(L, tensors, cpu, gpu, labels[..|labels| - 1]);
      Entered(L, tensors, before.0, before.1, labels[|labels| - 1])
  }

  // ---------------------------------------------------------------------------
  // Views
  // ---------------------------------------------------------------------------

  /** Every tensor with a slot has a view, and it is of one of that tensor's slots. */
  ghost predicate ViewsOk(views: map<int, Slot>, L: Layout) {
    && ViewsOf(views, L.shared)
    && forall l :: l in L.labels ==> ViewsOf(views, L.labels[l])
  }

  ghost predicate ViewsOf(views: map<int, Slot>, slots: seq<(int, Slot)>) {
    forall tid :: HasSlot(slots, tid) ==> tid in views && (tid, views[tid]) in slots
  }

  /** The view of a tensor shows the tensor. */
  ghost predicate Readable(gpu: seq<Byte>, tensors: Tensors, views: map<int, Slot>, tid: int) {
    tid in views && tid in tensors && SlotFits(tensors, (tid, views[tid]), 0, |gpu|) && Read(gpu, views[tid]) == tensors[tid].data
  }

  lemma ShownIsReadable(gpu: seq<Byte>, tensors: Tensors, views: map<int, Slot>, slots: seq<(int, Slot)>, tid: int)
    requires Shows(gpu, tensors, slots) && ViewsOf(views, slots) && HasSlot(slots, tid)
    ensures Readable(gpu, tensors, views, tid)
  {
    var i :| 0 <= i < |slots| && slots[i] == (tid, views[tid]);
    assert ShowsSlot(gpu, tensors, slots[i]);
  }

  /** Entering a label leaves the prefix readable and makes all tensors of the label readable. */
  lemma EnterReads(L: Layout, tensors: Tensors, listed: map<Label, seq<int>>, views: map<int, Slot>,
                   cpu: seq<Byte>, gpu: seq<Byte>, l: Label)
    requires LayoutFits(L, tensors) && LayoutCovers(L, listed) && ViewsOk(views, L)
    requires |cpu| == |gpu| == L.blockSize && Shows(gpu, tensors, L.shared)
    ensures var gpu' := Entered(L, tensors, cpu, gpu, l).1;
            Shows(gpu', tensors, L.shared) && (l in listed ==> AllReadable(gpu', tensors, views, listed[l]))
  {
    var gpu' := Entered(L, tensors, cpu, gpu, l).1;
    EnteredShows(L, tensors, cpu, gpu, l);
    PrefixShows(L, tensors, gpu, gpu');
    if l in listed {
      forall tid | tid in listed[l] ensures Readable(gpu', tensors, views, tid) {
        if HasSlot(L.shared, tid) {
          ShownIsReadable(gpu', tensors, views, L.shared, tid);
        } else {
          ShownIsReadable(gpu', tensors, views, L.labels[l], tid);
        }
      }
    }
  }

  ghost predicate AllReadable(gpu: seq<Byte>, tensors: Tensors, views: map<int, Slot>, ids: seq<int>) {
    forall tid :: tid in ids ==> Readable(gpu, tensors, views, tid)
  }

  lemma {:induction false} RunShows(L: Layout, tensors: Tensors, cpu: seq<Byte>, gpu: seq<Byte>, labels: seq<Label>)
    requires LayoutFits(L, tensors) && |cpu| == |gpu| == L.blockSize && Shows(gpu, tensors, L.shared)
    ensures Shows(Run(L, tensors, cpu, gpu, labels).1, tensors, L.shared)
  {
    if labels != [] {
      var last := |labels| - 1;
      RunShows(L, tensors, cpu, gpu, labels[..last]);
      var before := Run(L, tensors, cpu, gpu, labels[..last]);
      EnteredShows(L, tensors, before.0, before.1, labels[last]);
      PrefixShows(L, tensors, before.1, Run(L, tensors, cpu, gpu, labels).1);
    }
  }

  /** After any sequence of enters, shared tensors read back through their views, and so does
      every tensor of the label just entered. */
  lemma EnteredLabelReadsBack(L: Layout, tensors: Tensors, listed: map<Label, seq<int>>, views: map<int, Slot>,
                              cpu: seq<Byte>, gpu: seq<Byte>, labels: seq<Label>)
    requires LayoutFits(L, tensors) && LayoutCovers(L, listed) && ViewsOk(views, L)
    requires |cpu| == |gpu| == L.blockSize && Shows(gpu, tensors, L.shared)
    ensures var gpu' := Run(L, tensors, cpu, gpu, labels).1;
            && (forall tid :: HasSlot(L.shared, tid) ==> Readable(gpu', tensors, views, tid))
            && (labels != [] && labels[|labels| - 1] in listed ==>
                  AllReadable(gpu', tensors, views, listed[labels[|labels| - 1]]))
  {
    var gpu' := Run(L, tensors, cpu, gpu, labels).1;
    RunShows(L, tensors, cpu, gpu, labels);
    forall tid | HasSlot(L.shared, tid) ensures Readable(gpu', tensors, views, tid) {
      ShownIsReadable(gpu', tensors, views, L.shared, tid);
    }
    if labels != [] {
      var last := |labels| - 1;
      RunShows(L, tensors, cpu, gpu, labels[..last]);
      var before := Run(L, tensors, cpu, gpu, labels[..last]);
      EnterReads(L, tensors, listed, views, before.0, before.1, labels[last]);
    }
  }
}
