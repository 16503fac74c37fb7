/** The host and GPU memory that a block loader takes for a profile, by the sizes of the tensors. */
module AdoptedMemory {
  import opened Arithmetic
  import opened Timeline
  import opened Placement
  import opened StateAdoption
  import opened ResidentBytes
  import opened ProfileRequirements

  /** The keys of what the profile keeps in dicts. */
  ghost predicate KeysOnce(profile: Profile) {
    && (forall i, j :: 0 <= i < j < |profile.load| ==> profile.load[i].0 != profile.load[j].0)
    && (forall i, j :: 0 <= i < j < |profile.allocation| ==> profile.allocation[i].0 != profile.allocation[j].0)
    && (forall i, j :: 0 <= i < j < |profile.blockSizes| ==> profile.blockSizes[i].0 != profile.blockSizes[j].0)
  }

  // ---------------------------------------------------------------------------
  // Sizes of labels
  // ---------------------------------------------------------------------------

  /** The next aligned number. */
  function AlignedUp(n: int): (r: int)
    ensures n <= r < n + DEFAULT_PACKED_TENSOR_ALIGNMENT_BYTES && r % DEFAULT_PACKED_TENSOR_ALIGNMENT_BYTES == 0
  {
    Padded(n)
  }

  function Aligned(logical: map<string, int>): (r: map<string, int>)
    ensures r.Keys == logical.Keys
  {
    map name | name in logical :: AlignedUp(logical[name])
  }

  ghost predicate NamesTensors(names: set<string>, stats: seq<Stat>) {
    forall name :: name in names <==> exists stat :: stat in stats && stat.name == name
  }

  /** The bytes of a label's block: for the raw loader the saved size, which is that of its
      tensors; for the allocation loader its different tensors, each up to the next alignment. */
  ghost predicate IsLabelSize(profile: Profile, logical: map<string, int>, l: Label, size: int) {
    exists stats :: stats != [] && (l, stats) in profile.load &&
      if profile.loader.RawBlockLoader? then l in profile.labelSizes && size == profile.labelSizes[l] == SumSizes(stats)
      else exists names: set<string> :: NamesTensors(names, stats) && names <= logical.Keys && size == SumOf(Aligned(logical), names)
  }

  lemma {:induction false} PackedIsSum(names: seq<string>, logical: map<string, int>)
    requires forall name :: name in names ==> name in logical
    ensures AsSet(names) <= logical.Keys && PackedBytes(names, logical) == SumOf(Aligned(logical), AsSet(names))
    ensures PackedBytes(names, logical) % DEFAULT_PACKED_TENSOR_ALIGNMENT_BYTES == 0
  {
    if names != [] {
      assert names == names[..|names| - 1] + [names[|names| - 1]];
      PackedIsSum(names[..|names| - 1], logical);
      NextPacked(names[..|names| - 1], names[|names| - 1], logical);
    }
  }

  lemma {:induction false} NextPacked(before: seq<string>, name: string, logical: map<string, int>)
    requires name in logical && (forall n :: n in before ==> n in logical) && AsSet(before) <= logical.Keys
    requires PackedBytes(before, logical) == SumOf(Aligned(logical), AsSet(before))
    requires PackedBytes(before, logical) % DEFAULT_PACKED_TENSOR_ALIGNMENT_BYTES == 0
    ensures var names := before + [name];
            && (forall n :: n in names ==> n in logical) && AsSet(names) <= logical.Keys
            && PackedBytes(names, logical) == SumOf(Aligned(logical), AsSet(names))
            && PackedBytes(names, logical) % DEFAULT_PACKED_TENSOR_ALIGNMENT_BYTES == 0
  {
    hide AlignedUp, Padded, SumOf;
    assert (before + [name])[..|before|] == before;
    if name in before {
      assert AsSet(before + [name]) == AsSet(before);
    } else {
      assert AsSet(before + [name]) == AsSet(before) + {name};
      SumWith(Aligned(logical), AsSet(before), name);
      PaddedBehindAligned(PackedBytes(before, logical), logical[name]);
    }
  }

  lemma PaddedBehindAligned(cursor: int, nbytes: int)
    requires cursor % DEFAULT_PACKED_TENSOR_ALIGNMENT_BYTES == 0
    ensures Padded(cursor + nbytes) == cursor + AlignedUp(nbytes)
  {
  }

  // ---------------------------------------------------------------------------
  // Sizes of blocks
  // ---------------------------------------------------------------------------

  function Sum(sizes: seq<int>): int {
    if sizes == [] then 0 else Sum(sizes[..|sizes| - 1]) + sizes[|sizes| - 1]
  }

  ghost predicate IsLargest(size: int, labels: seq<Label>, bytes: map<Label, int>) {
    && (exists l :: l in labels && l in bytes && bytes[l] == size)
    && forall l :: l in labels && l in bytes ==> bytes[l] <= size
  }

  /** One block for each group, as large as the largest of its labels. */
  ghost predicate IsSumOfLargest(total: int, allocation: seq<(int, seq<Label>)>, bytes: map<Label, int>) {
    exists sizes: seq<int> :: |sizes| == |allocation| && Sum(sizes) == total &&
      forall g :: 0 <= g < |allocation| ==> IsLargest(sizes[g], allocation[g].1, bytes)
  }

  /** Every group has labels, and their sizes are known. */
  ghost predicate Sized(allocation: seq<(int, seq<Label>)>, bytes: map<Label, int>) {
    forall group :: group in allocation ==> group.1 != [] && forall l :: l in group.1 ==> l in bytes
  }

  function LargestSizes(allocation: seq<(int, seq<Label>)>, bytes: map<Label, int>): (r: seq<int>)
    requires Sized(allocation, bytes)
    ensures |r| == |allocation|
    ensures forall g :: 0 <= g < |r| ==> IsLargest(r[g], allocation[g].1, bytes)
  {
    if allocation == [] then []
    else
      var before, group := allocation[..|allocation| - 1], allocation[|allocation| - 1];
      assert allocation == before + [group];
      LargestSizes(before, bytes) + [LargestOf(group.1, bytes)]
  }

  lemma {:induction false} LargestTotals(allocation: seq<(int, seq<Label>)>, bytes: map<Label, int>)
    requires Sized(allocation, bytes)
    ensures Sum(LargestSizes(allocation, bytes)) == TotalOfLargest(allocation, bytes)
  {
    if allocation != [] {
      var before, group := allocation[..|allocation| - 1], allocation[|allocation| - 1];
      assert allocation == before + [group];
      LargestTotals(before, bytes);
      hide LargestSizes;
      assert LargestSizes(allocation, bytes) == LargestSizes(before, bytes) + [LargestOf(group.1, bytes)] by { NextLargest(allocation, bytes); }
      assert LargestSizes(allocation, bytes)[..|before|] == LargestSizes(before, bytes);
    }
  }

  lemma {:induction false} NextLargest(allocation: seq<(int, seq<Label>)>, bytes: map<Label, int>)
    requires Sized(allocation, bytes) && allocation != []
    ensures var before, group := allocation[..|allocation| - 1], allocation[|allocation| - 1];
            && allocation == before + [group] && group in allocation && Sized(before, bytes)
            && LargestSizes(allocation, bytes) == LargestSizes(before, bytes) + [LargestOf(group.1, bytes)]
  {
    assert allocation == allocation[..|allocation| - 1] + [allocation[|allocation| - 1]];
  }

  // Saved block sizes may come in another order than the groups.

  ghost predicate IdsOnce<T>(items: seq<(int, T)>) { forall i, j :: 0 <= i < j < |items| ==> items[i].0 != items[j].0 }

  ghost predicate IsBlockOf(block: (int, int), group: (int, seq<Label>), sizes: map<Label, int>) {
    group.0 == block.0 && group.1 != [] && (forall l :: l in group.1 ==> l in sizes) && block.1 == LargestOf(group.1, sizes)
  }

  ghost predicate BlockFor(block: (int, int), allocation: seq<(int, seq<Label>)>, sizes: map<Label, int>) {
    exists group :: group in allocation && IsBlockOf(block, group, sizes)
  }

  ghost predicate HasBlock(id: int, blocks: seq<(int, int)>) { exists block :: block in blocks && block.0 == id }

  ghost predicate SameBlocks(blocks: seq<(int, int)>, allocation: seq<(int, seq<Label>)>, sizes: map<Label, int>) {
    && IdsOnce(blocks) && IdsOnce(allocation) && Sized(allocation, sizes)
    && (forall block :: block in blocks ==> BlockFor(block, allocation, sizes))
    && forall group :: group in allocation ==> HasBlock(group.0, blocks)
  }

  lemma {:induction false} WithoutBlock(blocks: seq<(int, int)>, k: nat)
    requires k < |blocks|
    ensures TotalOf(blocks) == TotalOf(blocks[..k] + blocks[k + 1..]) + blocks[k].1
  {
    var last := |blocks| - 1;
    if k == last {
      assert blocks[..k] + blocks[k + 1..] == blocks[..last];
    } else {
      WithoutBlock(blocks[..last], k);
      var rest := blocks[..k] + blocks[k + 1..];
      assert rest[..|rest| - 1] == blocks[..last][..k] + blocks[..last][k + 1..];
    }
  }

  /** Saved block sizes add up to the sum over the groups of the largest label. */
  lemma {:induction false} SavedTotals(blocks: seq<(int, int)>, allocation: seq<(int, seq<Label>)>, sizes: map<Label, int>)
    requires SameBlocks(blocks, allocation, sizes)
    ensures Sized(allocation, sizes) && TotalOf(blocks) == TotalOfLargest(allocation, sizes)
  {
    if blocks != [] { BlocksNeedGroups(blocks, allocation, sizes); }
    if allocation != [] {
      var k := LastBlock(blocks, allocation, sizes);
      WithoutBlock(blocks, k);
      OneBlockLess(blocks, allocation, sizes, k);
      assert Sized(allocation, sizes);
      hide SameBlocks;
      SavedTotals(blocks[..k] + blocks[k + 1..], allocation[..|allocation| - 1], sizes);
    }
  }

  lemma {:induction false} BlocksNeedGroups(blocks: seq<(int, int)>, allocation: seq<(int, seq<Label>)>, sizes: map<Label, int>)
    requires SameBlocks(blocks, allocation, sizes) && blocks != []
    ensures allocation != []
  {
    assert blocks[0] in blocks && BlockFor(blocks[0], allocation, sizes);
    var group :| group in allocation && IsBlockOf(blocks[0], group, sizes);
  }

  /** The block of the last group. */
  lemma {:induction false} LastBlock(blocks: seq<(int, int)>, allocation: seq<(int, seq<Label>)>, sizes: map<Label, int>)
    returns (k: nat)
    requires SameBlocks(blocks, allocation, sizes) && allocation != []
    ensures k < |blocks| && IsBlockOf(blocks[k], allocation[|allocation| - 1], sizes)
  {
    var last := |allocation| - 1;
    assert allocation[last] in allocation && HasBlock(allocation[last].0, blocks);
    var block :| block in blocks && block.0 == allocation[last].0;
    k :| 0 <= k < |blocks| && blocks[k] == block;
    assert BlockFor(block, allocation, sizes);
    var group :| group in allocation && IsBlockOf(block, group, sizes);
    var i :| 0 <= i < |allocation| && allocation[i] == group;
    assert i == last;
  }

  lemma {:induction false} OneBlockLess(blocks: seq<(int, int)>, allocation: seq<(int, seq<Label>)>, sizes: map<Label, int>, k: nat)
    requires SameBlocks(blocks, allocation, sizes) && k < |blocks| && allocation != []
    requires IsBlockOf(blocks[k], allocation[|allocation| - 1], sizes)
    ensures SameBlocks(blocks[..k] + blocks[k + 1..], allocation[..|allocation| - 1], sizes)
  {
    var last := |allocation| - 1;
    var rest, before, group := blocks[..k] + blocks[k + 1..], allocation[..last], allocation[last];
    assert allocation == before + [group];
    OtherBlocks(blocks, k);
    hide IsBlockOf, IdsOnce;
    assert IdsOnce(before) by { PrefixOnce(allocation); }
    forall block | block in rest ensures BlockFor(block, before, sizes) {
      BlockStays(block, allocation, sizes);
    }
    forall g | g in before ensures HasBlock(g.0, rest) {
      assert g in allocation && HasBlock(g.0, blocks);
      var block :| block in blocks && block.0 == g.0;
      OtherGroup(allocation, g);
      assert group.0 == blocks[k].0 by { SameId(blocks[k], group, sizes); }
      assert block in rest;
    }
  }

  lemma {:induction false} SameId(block: (int, int), group: (int, seq<Label>), sizes: map<Label, int>)
    requires IsBlockOf(block, group, sizes)
    ensures group.0 == block.0
  {
  }

  lemma {:induction false} PrefixOnce<T>(items: seq<(int, T)>)
    requires IdsOnce(items) && items != []
    ensures IdsOnce(items[..|items| - 1])
  {
  }

  lemma {:induction false} OtherGroup(allocation: seq<(int, seq<Label>)>, g: (int, seq<Label>))
    requires IdsOnce(allocation) && allocation != [] && g in allocation[..|allocation| - 1]
    ensures g.0 != allocation[|allocation| - 1].0
  {
    var i :| 0 <= i < |allocation| - 1 && allocation[i] == g;
  }

  lemma {:induction false} BlockStays(block: (int, int), allocation: seq<(int, seq<Label>)>, sizes: map<Label, int>)
    requires allocation != [] && BlockFor(block, allocation, sizes) && block.0 != allocation[|allocation| - 1].0
    ensures BlockFor(block, allocation[..|allocation| - 1], sizes)
  {
    var group :| group in allocation && IsBlockOf(block, group, sizes);
    var i :| 0 <= i < |allocation| && allocation[i] == group;
    assert allocation[..|allocation| - 1][i] == group;
  }

  lemma {:induction false} OtherBlocks(blocks: seq<(int, int)>, k: nat)
    requires k < |blocks| && IdsOnce(blocks)
    ensures var rest := blocks[..k] + blocks[k + 1..];
            && IdsOnce(rest)
            && (forall block :: block in rest <==> block in blocks && block.0 != blocks[k].0)
  {
    var rest := blocks[..k] + blocks[k + 1..];
    forall block | block in blocks && block.0 != blocks[k].0 ensures block in rest {
      var i :| 0 <= i < |blocks| && blocks[i] == block;
      assert rest[if i < k then i else i - 1] == block;
    }
    forall block | block in rest ensures block in blocks && block.0 != blocks[k].0 {
      var i :| 0 <= i < |rest| && rest[i] == block;
      assert blocks[if i < k then i else i + 1] == block;
    }
  }

  // ---------------------------------------------------------------------------
  // All of it
  // ---------------------------------------------------------------------------

  /** The labels of the groups, one group after another. */
  function AllocatedLabels(allocation: seq<(int, seq<Label>)>): (r: seq<Label>)
    ensures forall l :: l in r <==> exists group :: group in allocation && l in group.1
  {
    if allocation == [] then []
    else
      var before, group := allocation[..|allocation| - 1], allocation[|allocation| - 1];
      assert allocation == before + [group];
      AllocatedLabels(before) + group.1
  }

  /** Labels in the groups before the g-th. */
  function LabelsBefore(allocation: seq<(int, seq<Label>)>, g: nat): nat
    requires g <= |allocation|
  {
    if g == 0 then 0 else LabelsBefore(allocation, g - 1) + |allocation[g - 1].1|
  }

  /** The p-th label of the g-th group comes after all labels of earlier groups. */
  lemma {:induction false} AllocatedInOrder(allocation: seq<(int, seq<Label>)>)
    ensures |AllocatedLabels(allocation)| == LabelsBefore(allocation, |allocation|)
    ensures forall g, p :: 0 <= g < |allocation| && 0 <= p < |allocation[g].1| ==> IsLabelAt(allocation, g, p)
  {
    if allocation != [] {
      var last := |allocation| - 1;
      var before := allocation[..last];
      AllocatedInOrder(before);
      forall g: nat | g <= last ensures LabelsBefore(allocation, g) == LabelsBefore(before, g) { SameBefore(allocation, last, g); }
      forall g: nat, p: nat | g < |allocation| && p < |allocation[g].1| ensures IsLabelAt(allocation, g, p) {
        if g < last { assert IsLabelAt(before, g, p) && before[g] == allocation[g]; }
      }
    }
  }

  ghost predicate IsLabelAt(allocation: seq<(int, seq<Label>)>, g: int, p: int)
    requires 0 <= g < |allocation| && 0 <= p < |allocation[g].1|
  {
    var labels, at := AllocatedLabels(allocation), LabelsBefore(allocation, g) + p;
    at < |labels| && labels[at] == allocation[g].1[p]
  }

  lemma {:induction false} SameBefore(allocation: seq<(int, seq<Label>)>, n: nat, g: nat)
    requires g <= n <= |allocation|
    ensures LabelsBefore(allocation[..n], g) == LabelsBefore(allocation, g)
  {
    if g > 0 { SameBefore(allocation, n, g - 1); }
  }

  /** The items with tensors at a and b, in this order. */
  ghost predicate LoadedInTurn(load: seq<(Label, seq<Stat>)>, l: Label, m: Label) {
    exists a, b :: 0 <= a < b < |load| && load[a].0 == l && load[b].0 == m && load[a].1 != [] && load[b].1 != []
  }

  /** Labels of a raw-block profile come as the profile loads them. */
  lemma {:induction false} LoadLabelsInOrder(load: seq<(Label, seq<Stat>)>)
    ensures forall i, j :: 0 <= i < j < |LoadLabels(load)| ==> LoadedInTurn(load, LoadLabels(load)[i], LoadLabels(load)[j])
  {
    if load != [] {
      var last := |load| - 1;
      var before, r := load[..last], LoadLabels(load);
      LoadLabelsInOrder(before);
      forall i, j | 0 <= i < j < |r| ensures LoadedInTurn(load, r[i], r[j]) {
        if j < |LoadLabels(before)| {
          assert LoadedInTurn(before, LoadLabels(before)[i], LoadLabels(before)[j]);
          assert r[i] == LoadLabels(before)[i] && r[j] == LoadLabels(before)[j];
          var a, b :| 0 <= a < b < |before| && before[a].0 == r[i] && before[b].0 == r[j] && before[a].1 != [] && before[b].1 != [];
          assert load[a] == before[a] && load[b] == before[b];
        } else {
          assert r[i] in LoadLabels(before);
          var item :| item in before && item.0 == r[i] && item.1 != [];
          var a :| 0 <= a < |before| && before[a] == item;
          assert load[a] == item;
        }
      }
    }
  }

  /** The labels that get a block of host memory, in this order. */
  function BlockLabels(profile: Profile): seq<Label> {
    if profile.loader.AllocationBlockLoader? then AllocatedLabels(profile.allocation) else LoadLabels(profile.load)
  }

  /** Each label with tensors once. */
  ghost predicate ListsLabels(labels: seq<Label>, profile: Profile) {
    && (forall i, j :: 0 <= i < j < |labels| ==> labels[i] != labels[j])
    && forall l :: l in labels <==> HasTensors(profile.load, l)
  }

  ghost predicate HasTensors(load: seq<(Label, seq<Stat>)>, l: Label) {
    exists stats :: stats != [] && (l, stats) in load
  }

  /** Blocks are copied when pinned by copying, unless they are allocated in shared memory. */
  ghost predicate CopiesBlocks(profile: Profile, pinning: Pinning, useShm: bool) {
    pinning.CopyPinning? && !(profile.loader.AllocationBlockLoader? && useShm)
  }

  /** The host blocks of a process that only follows are there already. */
  ghost predicate Follows(profile: Profile, useShm: bool) {
    profile.loader.AllocationBlockLoader? && useShm && profile.hasShm
  }

  /** One host allocation for each label, with room for its tensors, and a copy beside it when
      blocks are copied; on the GPU one block for each group, as large as its largest label. */
  ghost predicate TakesBlockMemory(logical: map<string, int>, profile: Profile, pinning: Pinning, useShm: bool,
                                   transition: TransitionSpec) {
    ListsLabels(BlockLabels(profile), profile) &&
    exists bytes: map<Label, int> :: TakesFor(bytes, logical, profile, pinning, useShm, transition)
  }

  ghost predicate TakesFor(bytes: map<Label, int>, logical: map<string, int>, profile: Profile, pinning: Pinning,
                           useShm: bool, transition: TransitionSpec) {
    var labels := BlockLabels(profile);
    && (forall l :: l in bytes <==> l in labels)
    && (forall l :: l in bytes ==> IsLabelSize(profile, logical, l, bytes[l]))
    && IsSumOfLargest(transition.extraGpuBytes, profile.allocation, bytes)
    && |transition.hostAllocations| == (if Follows(profile, useShm) then 0 else |labels|)
    && forall i :: 0 <= i < |transition.hostAllocations| ==>
         labels[i] in bytes && transition.hostAllocations[i].nbytes == bytes[labels[i]] &&
         transition.hostAllocations[i].temporaryCopyBytes == if CopiesBlocks(profile, pinning, useShm) then bytes[labels[i]] else 0
  }

  // ---------------------------------------------------------------------------
  // What the dicts hold for a label
  // ---------------------------------------------------------------------------

  ghost predicate LoadOnce(load: seq<(Label, seq<Stat>)>) {
    forall i, j :: 0 <= i < j < |load| ==> load[i].0 != load[j].0
  }

  lemma {:induction false} OtherItems(load: seq<(Label, seq<Stat>)>)
    requires LoadOnce(load) && load != []
    ensures var before, item := load[..|load| - 1], load[|load| - 1];
            && load == before + [item] && LoadOnce(before) && forall other :: other in before ==> other.0 != item.0
  {
    var last := |load| - 1;
    assert load == load[..last] + [load[last]];
    forall other | other in load[..last] ensures other.0 != load[last].0 {
      var i :| 0 <= i < last && load[..last][i] == other;
      assert load[i].0 != load[last].0;
    }
  }

  lemma {:induction false} LoadLabelsOnce(load: seq<(Label, seq<Stat>)>)
    requires LoadOnce(load)
    ensures var labels := LoadLabels(load); forall i, j :: 0 <= i < j < |labels| ==> labels[i] != labels[j]
  {
    if load != [] {
      var before, item := load[..|load| - 1], load[|load| - 1];
      OtherItems(load);
      LoadLabelsOnce(before);
      assert item.0 !in LoadLabels(before);
    }
  }

  lemma {:induction false} LogicalSizeOf(load: seq<(Label, seq<Stat>)>, l: Label, stats: seq<Stat>)
    requires LoadOnce(load) && (l, stats) in load && stats != []
    ensures l in LogicalSizes(load) && LogicalSizes(load)[l] == SumSizes(stats)
  {
    var before, item := load[..|load| - 1], load[|load| - 1];
    OtherItems(load);
    if item != (l, stats) {
      assert (l, stats) in before;
      LogicalSizeOf(before, l, stats);
    }
  }

  lemma {:induction false} NameIsListed(stats: seq<Stat>, stat: Stat)
    requires stat in stats
    ensures stat.name in NamesOfStats(stats)
  {
    var last := |stats| - 1;
    assert stats == stats[..last] + [stats[last]];
    if stats[last] != stat { NameIsListed(stats[..last], stat); }
  }

  lemma {:induction false} NamesAreThoseOfStats(stats: seq<Stat>)
    ensures NamesTensors(AsSet(NamesOfStats(stats)), stats)
  {
    forall stat | stat in stats ensures stat.name in AsSet(NamesOfStats(stats)) { NameIsListed(stats, stat); }
  }
}
