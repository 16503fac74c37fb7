/** The controller that owns the profile block. */
module ProfileController {
  import opened Timeline
  import opened SlotLayout
  import opened ProfileLayout
  import opened ProfileBlock

  /** Bytes copied into a device buffer, in place. */
  method CopyInto(block: array<Byte>, at: nat, data: seq<Byte>)
    requires at + |data| <= block.Length
    modifies block
    ensures block[..] == Put(old(block[..]), at, data)
  {
    for i := 0 to |data|
      invariant block[..] == old(block[..])[..at] + data[..i] + old(block[..])[at + i..]
    {
      block[at + i] := data[i];
    }
  }

  method AddViews(views: map<int, Slot>, slots: seq<(int, Slot)>) returns (views': map<int, Slot>)
    ensures ViewsOf(views', slots)
    ensures forall tid :: !HasSlot(slots, tid) ==> (tid in views' <==> tid in views) && (tid in views ==> views'[tid] == views[tid])
  {
    views' := views;
    for i := 0 to |slots|
      invariant ViewsOf(views', slots[..i])
      invariant forall tid :: !HasSlot(slots[..i], tid) ==> (tid in views' <==> tid in views) && (tid in views ==> views'[tid] == views[tid])
    {
      assert slots[..i + 1] == slots[..i] + [slots[i]];
      HasSlotNext(slots, i);
      views' := views'[slots[i].0 := slots[i].1];
    }
    assert slots[..|slots|] == slots;
  }

  lemma HasSlotNext(slots: seq<(int, Slot)>, i: nat)
    requires i < |slots|
    ensures forall tid :: HasSlot(slots[..i + 1], tid) <==> HasSlot(slots[..i], tid) || tid == slots[i].0
    ensures slots[i] in slots[..i + 1]
  {
    var next := slots[..i + 1];
    assert next[i] == slots[i];
    forall tid | HasSlot(slots[..i], tid) ensures HasSlot(next, tid) {
      var k :| 0 <= k < i && slots[..i][k].0 == tid;
      assert next[k].0 == tid;
    }
    forall tid | HasSlot(next, tid) && tid != slots[i].0 ensures HasSlot(slots[..i], tid) {
      var k :| 0 <= k <= i && next[k].0 == tid;
      assert slots[..i][k].0 == tid;
    }
  }

  method BuildViewMap(L: Layout, ghost listed: map<Label, seq<int>>) returns (views: map<int, Slot>)
    requires LayoutCovers(L, listed)
    ensures ViewsOk(views, L)
  {
    views := AddViews(map[], L.shared);
    var todo := L.labels.Keys;
    while todo != {}
      invariant todo <= L.labels.Keys && ViewsOf(views, L.shared)
      invariant forall l :: l in L.labels && l !in todo ==> ViewsOf(views, L.labels[l])
      decreases |todo|
    {
      var l :| l in todo;
      views := AddViews(views, L.labels[l]);
      todo := todo - {l};
    }
  }

  class ProfileBlockController {
    const tensors: Tensors
    const listed: map<Label, seq<int>>
    const layout: Layout
    const views: map<int, Slot>
    const cpuBlock: array<Byte>
    const gpuBlock: array<Byte>

    ghost predicate Valid()
      reads cpuBlock, gpuBlock
    {
      && cpuBlock != gpuBlock && cpuBlock.Length == gpuBlock.Length == layout.blockSize
      && LayoutFits(layout, tensors) && LayoutCovers(layout, listed) && ViewsOk(views, layout)
      && Shows(gpuBlock[..], tensors, layout.shared)
    }

    /** Lays out the block, builds the views and loads the shared prefix once. */
    constructor (stats: seq<LayerStats>, tensors: Tensors)
      requires TensorsOk(tensors)
      ensures Valid() && fresh(cpuBlock) && fresh(gpuBlock)
      ensures this.tensors == tensors && this.listed == LabelTensors(stats, tensors) && IsLayout(layout, stats, tensors)
    {
      var L := ComputeLayout(stats, tensors);
      LayoutIsOk(L, stats, tensors);
      var views' := BuildViewMap(L, LabelTensors(stats, tensors));
      var cpu, gpu := new Byte[L.blockSize](i => 0), new Byte[L.blockSize](i => 0);
      LoadSharedPrefix(L, tensors, cpu, gpu);
      this.tensors, this.listed, this.layout, this.views := tensors, LabelTensors(stats, tensors), L, views';
      this.cpuBlock, this.gpuBlock := cpu, gpu;
    }

    /** Repacks the label's own tensors and copies their part of the region to the GPU. */
    method Enter(l: Label)
      requires Valid()
      modifies cpuBlock, gpuBlock
      ensures Valid()
      ensures (cpuBlock[..], gpuBlock[..]) == Entered(layout, tensors, old(cpuBlock[..]), old(gpuBlock[..]), l)
      ensures l in listed ==> AllReadable(gpuBlock[..], tensors, views, listed[l])
    {
      EnterReads(layout, tensors, listed, views, cpuBlock[..], gpuBlock[..], l);
      EnterBlocks(layout, tensors, cpuBlock, gpuBlock, l);
    }
  }

  method EnterBlocks(L: Layout, tensors: Tensors, cpu: array<Byte>, gpu: array<Byte>, l: Label)
    requires LayoutFits(L, tensors) && cpu != gpu && cpu.Length == gpu.Length == L.blockSize
    modifies cpu, gpu
    ensures (cpu[..], gpu[..]) == Entered(L, tensors, old(cpu[..]), old(gpu[..]), l)
  {
    if l !in L.labels || L.labels[l] == [] { return; }
    WithinBlock(L, tensors, l);
    PackAll(cpu, tensors, L.labels[l]);
    var suffixEnd := MaxEnd(L.labels[l], L.sharedSize);
    CopyRegion(cpu, gpu, L.sharedSize, suffixEnd);
  }

  /** Copies the part of the region that is in use, if any. */
  method CopyRegion(cpu: array<Byte>, gpu: array<Byte>, low: nat, end: nat)
    requires cpu != gpu && low <= end <= cpu.Length == gpu.Length
    modifies gpu
    ensures gpu[..] == Splice(old(gpu[..]), cpu[..], low, end)
  {
    if end > low { CopyInto(gpu, low, cpu[low..end]); }
  }

  /** Each slot in turn, through its view. */
  method PackAll(block: array<Byte>, tensors: Tensors, slots: seq<(int, Slot)>)
    requires SlotsFit(tensors, slots, 0, block.Length)
    modifies block
    ensures block[..] == PackInto(old(block[..]), tensors, slots)
  {
    ghost var before := block[..];
    for i := 0 to |slots|
      invariant SlotsFit(tensors, slots[..i], 0, |before|)
      invariant block[..] == PackInto(before, tensors, slots[..i])
    {
      var (tid, s) := slots[i];
      PackNext(before, tensors, slots, i);
      CopyInto(block, ViewStart(s), tensors[tid].data);
    }
    assert slots[..|slots|] == slots;
  }

  lemma PackNext(block: seq<Byte>, tensors: Tensors, slots: seq<(int, Slot)>, i: nat)
    requires i < |slots| && SlotsFit(tensors, slots, 0, |block|)
    ensures SlotsFit(tensors, slots[..i], 0, |block|) && SlotsFit(tensors, slots[..i + 1], 0, |block|)
    ensures SlotFits(tensors, slots[i], 0, |block|)
    ensures var (tid, s) := slots[i];
            PackInto(block, tensors, slots[..i + 1]) == Put(PackInto(block, tensors, slots[..i]), ViewStart(s), tensors[tid].data)
  {
    assert slots[..i + 1][..i] == slots[..i];
  }

  method LoadSharedPrefix(L: Layout, tensors: Tensors, cpu: array<Byte>, gpu: array<Byte>)
    requires LayoutFits(L, tensors) && cpu != gpu && cpu.Length == gpu.Length == L.blockSize
    modifies cpu, gpu
    ensures Shows(gpu[..], tensors, L.shared)
  {
    WiderFits(tensors, L.shared, 0, L.sharedSize, L.blockSize);
    if L.sharedSize <= 0 {
      EmptyPrefixShows(L, tensors, gpu[..]);
      return;
    }
    ghost var before := cpu[..];
    PackAll(cpu, tensors, L.shared);
    PackedShows(before, tensors, L.shared);
    SpliceShows(gpu[..], cpu[..], tensors, L.shared, 0, L.sharedSize);
    CopyRegion(cpu, gpu, 0, L.sharedSize);
  }

  lemma EmptyPrefixShows(L: Layout, tensors: Tensors, gpu: seq<Byte>)
    requires LayoutFits(L, tensors) && |gpu| == L.blockSize && L.sharedSize == 0
    ensures Shows(gpu, tensors, L.shared)
  {
    WiderFits(tensors, L.shared, 0, L.sharedSize, L.blockSize);
    forall i | 0 <= i < |L.shared| ensures ShowsSlot(gpu, tensors, L.shared[i]) {
      assert SlotFits(tensors, L.shared[i], 0, L.sharedSize);
    }
  }
}
