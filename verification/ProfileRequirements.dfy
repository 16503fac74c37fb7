/** What a saved profile keeps on the GPU, and what it must agree with the model on. */
module ProfileRequirements {
  import opened Arithmetic
  import opened Timeline
  import opened Placement
  import opened StateAdoption
  import opened ResidentBytes

  // ---------------------------------------------------------------------------
  // What the strategy loader keeps on the GPU
  // ---------------------------------------------------------------------------

  type Layers = seq<(Label, seq<string>)>

  function ScheduledBy(layers: Layers, load: map<Label, seq<string>>): Names {
    if layers == [] then {}
    else ScheduledBy(layers[..|layers| - 1], load) + AsSet(Lookup(load, layers[|layers| - 1].0))
  }

  function UsedBy(layers: Layers): Names {
    if layers == [] then {} else UsedBy(layers[..|layers| - 1]) + AsSet(layers[|layers| - 1].1)
  }

  function Preloaded(layers: Layers, load: map<Label, seq<string>>): Names {
    if layers == [] then {}
    else Preloaded(layers[..|layers| - 1], load) + (AsSet(layers[|layers| - 1].1) - ScheduledBy(layers, load))
  }

  /** Some layer uses the tensor before any layer up to it has scheduled its load. */
  ghost predicate UsedUnscheduled(name: string, layers: Layers, load: map<Label, seq<string>>) {
    exists k :: 0 <= k < |layers| && name in layers[k].1 && name !in ScheduledBy(layers[..k + 1], load)
  }

  lemma {:induction false} PreloadedMeans(name: string, layers: Layers, load: map<Label, seq<string>>)
    ensures name in Preloaded(layers, load) <==> UsedUnscheduled(name, layers, load)
  {
    if layers != [] {
      var last := |layers| - 1;
      var before := layers[..last];
      PreloadedMeans(name, before, load);
      assert layers[..last + 1] == layers;
      if UsedUnscheduled(name, before, load) {
        var k :| 0 <= k < last && name in before[k].1 && name !in ScheduledBy(before[..k + 1], load);
        assert before[..k + 1] == layers[..k + 1] && name in layers[k].1;
      }
      if UsedUnscheduled(name, layers, load) {
        var k :| 0 <= k < |layers| && name in layers[k].1 && name !in ScheduledBy(layers[..k + 1], load);
        if k < last { assert before[..k + 1] == layers[..k + 1] && name in before[k].1; }
      }
    }
  }

  /** What is resident before the first layer. */
  function Start(layers: Layers, load: map<Label, seq<string>>, managed: Names): Names {
    (Preloaded(layers, load) + (managed - UsedBy(layers))) * managed
  }

  method ResidentAtStart(layers: Layers, load: map<Label, seq<string>>, managed: Names) returns (resident: Names)
    ensures resident == Start(layers, load, managed)
  {
    var scheduled, used, preload: Names := {}, {}, {};
    for i := 0 to |layers|
      invariant scheduled == ScheduledBy(layers[..i], load) && used == UsedBy(layers[..i]) && preload == Preloaded(layers[..i], load)
    {
      var (l, names) := layers[i];
      assert layers[..i + 1][..i] == layers[..i];
      scheduled := scheduled + AsSet(Lookup(load, l));
      used := used + AsSet(names);
      preload := preload + (AsSet(names) - scheduled);
    }
    assert layers[..|layers|] == layers;
    resident := (preload + (managed - used)) * managed;
  }

  // ---------------------------------------------------------------------------
  // What the profile and the model must agree on
  // ---------------------------------------------------------------------------

  function NamesOfStats(stats: seq<Stat>): (r: seq<string>)
    ensures forall name :: name in r ==> exists stat :: stat in stats && stat.name == name
    ensures |r| == |stats| && forall i :: 0 <= i < |r| ==> r[i] == stats[i].name
  {
    if stats == [] then []
    else
      assert stats == stats[..|stats| - 1] + [stats[|stats| - 1]];
      NamesOfStats(stats[..|stats| - 1]) + [stats[|stats| - 1].name]
  }

  /** A dict of statistics as the names it lists; a later item of the same label replaces. */
  function NamesByLabel(items: seq<(Label, seq<Stat>)>): (r: map<Label, seq<string>>)
    ensures forall l :: l in r ==> exists item :: item in items && item.0 == l && r[l] == NamesOfStats(item.1)
    ensures forall item :: item in items ==> item.0 in r
  {
    if items == [] then map[]
    else
      var item := items[|items| - 1];
      assert items == items[..|items| - 1] + [item];
      NamesByLabel(items[..|items| - 1])[item.0 := NamesOfStats(item.1)]
  }

  function LayerNames(layers: seq<(Label, seq<Stat>)>): Layers {
    seq(|layers|, i requires 0 <= i < |layers| => (layers[i].0, NamesOfStats(layers[i].1)))
  }

  function AllLoaded(load: seq<(Label, seq<Stat>)>): (r: Names)
    ensures forall item, stat :: item in load && stat in item.1 ==> stat.name in r
    ensures forall name :: name in r ==> exists item, stat :: item in load && stat in item.1 && stat.name == name
  {
    if load == [] then {}
    else
      assert load == load[..|load| - 1] + [load[|load| - 1]];
      AllLoaded(load[..|load| - 1]) + set stat | stat in load[|load| - 1].1 :: stat.name
  }

  function ManagedNames(profile: Profile): Names {
    AllLoaded(profile.load) + profile.viewNames
  }

  /** tensor_by_name: the bytes of the tensor of that name. */
  function LogicalBytes(tensors: seq<TensorState>): (r: map<string, int>)
    ensures r.Keys == AllNames(tensors)
    ensures (forall t :: t in tensors ==> t.logicalBytes >= 0) ==> forall name :: name in r ==> r[name] >= 0
  {
    if tensors == [] then map[]
    else
      var t := tensors[|tensors| - 1];
      assert tensors == tensors[..|tensors| - 1] + [t];
      LogicalBytes(tensors[..|tensors| - 1]) + map name | name in t.names :: t.logicalBytes
  }

  /** The size on record under a name is that of the one tensor that has the name. */
  lemma {:induction false} LogicalBytesMeans(tensors: seq<TensorState>, t: TensorState, name: string)
    requires TensorsOk(tensors) && t in tensors && name in t.names
    ensures name in LogicalBytes(tensors) && LogicalBytes(tensors)[name] == t.logicalBytes
  {
    var last := |tensors| - 1;
    assert tensors == tensors[..last] + [tensors[last]];
    if t in tensors[..last] {
      LogicalBytesMeans(tensors[..last], t, name);
      ApartFromAll(tensors[..last], tensors[last]);
      assert Apart(t, tensors[last]) && name in NamesOf(t);
    }
  }

  predicate StatsAgree(stats: seq<Stat>, saved: Names, logical: map<string, int>) {
    forall stat :: stat in stats ==> stat.name in saved && stat.name in logical && stat.sizeBytes == logical[stat.name]
  }

  /** The model has exactly the saved tensors, with their sizes, and no managed one is a buffer. */
  predicate InventoryAgrees(current: ModelState, profile: Profile) {
    var logical, managed := LogicalBytes(current.tensors), ManagedNames(profile);
    && profile.savedNames <= logical.Keys
    && (forall t :: t in current.tensors && t.names != [] ==> InProfile(t, profile.savedNames))
    && (forall item :: item in profile.load ==> StatsAgree(item.1, profile.savedNames, logical))
    && (forall l :: l in profile.release ==> StatsAgree(profile.release[l], profile.savedNames, logical))
    && (forall item :: item in profile.layers ==> StatsAgree(item.1, profile.savedNames, logical))
    && managed <= profile.savedNames
    && forall t :: t in current.tensors && Managed(t, profile.savedNames, managed) ==> t.kind != "buffer"
  }

  // ---------------------------------------------------------------------------
  // Block loaders
  // ---------------------------------------------------------------------------

  function SumSizes(stats: seq<Stat>): int {
    if stats == [] then 0 else SumSizes(stats[..|stats| - 1]) + stats[|stats| - 1].sizeBytes
  }

  lemma {:induction false} SizesNonNegative(stats: seq<Stat>, saved: Names, logical: map<string, int>)
    requires StatsAgree(stats, saved, logical) && forall name :: name in logical ==> logical[name] >= 0
    ensures SumSizes(stats) >= 0
  {
    if stats != [] {
      var last := |stats| - 1;
      assert stats[last] in stats;
      SizesNonNegative(stats[..last], saved, logical);
    }
  }

  /** Bytes of one label's tensors, each once, packed at aligned offsets. */
  function PackedBytes(names: seq<string>, logical: map<string, int>): int
    requires forall name :: name in names ==> name in logical
  {
    if names == [] then 0
    else
      var before, name := names[..|names| - 1], names[|names| - 1];
      if name in before then PackedBytes(before, logical)
      else Padded(PackedBytes(before, logical) + logical[name])
  }

  /** The cursor moves on to the next aligned offset. */
  function Padded(cursor: int): (r: int)
    ensures cursor <= r && r % DEFAULT_PACKED_TENSOR_ALIGNMENT_BYTES == 0
  {
    (cursor + DEFAULT_PACKED_TENSOR_ALIGNMENT_BYTES - 1) / DEFAULT_PACKED_TENSOR_ALIGNMENT_BYTES *
    DEFAULT_PACKED_TENSOR_ALIGNMENT_BYTES
  }

  /** Packing never loses bytes, and each label ends aligned. */
  lemma {:induction false} PackedIsAligned(names: seq<string>, logical: map<string, int>)
    requires forall name :: name in names ==> name in logical
    requires forall name :: name in logical ==> logical[name] >= 0
    ensures PackedBytes(names, logical) >= 0 && PackedBytes(names, logical) % DEFAULT_PACKED_TENSOR_ALIGNMENT_BYTES == 0
    ensures PackedBytes(names, logical) >= SumOf(logical, AsSet(names))
  {
    if names != [] {
      var before, name := names[..|names| - 1], names[|names| - 1];
      assert names == before + [name];
      PackedIsAligned(before, logical);
      if name in before {
        assert AsSet(names) == AsSet(before);
      } else {
        assert AsSet(names) == AsSet(before) + {name};
        SumWith(logical, AsSet(before), name);
      }
    }
  }

  /** The load labels that have tensors, in order. */
  function LoadLabels(load: seq<(Label, seq<Stat>)>): (r: seq<Label>)
    ensures forall l :: l in r <==> exists item :: item in load && item.0 == l && item.1 != []
  {
    if load == [] then []
    else
      var before, item := load[..|load| - 1], load[|load| - 1];
      assert load == before + [item];
      LoadLabels(before) + if item.1 == [] then [] else [item.0]
  }

  function LargestOf(labels: seq<Label>, bytes: map<Label, int>): (r: int)
    requires labels != [] && forall l :: l in labels ==> l in bytes
    ensures (exists l :: l in labels && bytes[l] == r) && forall l :: l in labels ==> bytes[l] <= r
  {
    var before, l := labels[..|labels| - 1], labels[|labels| - 1];
    assert labels == before + [l];
    if before == [] then bytes[l] else if LargestOf(before, bytes) < bytes[l] then bytes[l] else LargestOf(before, bytes)
  }

  /** The saved blocks hold exactly the nonempty labels, at least one each. */
  predicate BlocksHoldLabels(profile: Profile) {
    && (forall group :: group in profile.allocation ==> group.1 != [] && forall l :: l in group.1 ==> l in LoadLabels(profile.load))
    && forall l :: l in LoadLabels(profile.load) ==> exists group :: group in profile.allocation && l in group.1
  }

  /** A saved block is as large as its largest label. */
  predicate BlockSizesAgree(profile: Profile, sizes: map<Label, int>)
    requires BlocksHoldLabels(profile) && forall l :: l in LoadLabels(profile.load) ==> l in sizes
  {
    forall block :: block in profile.blockSizes ==>
      exists group :: group in profile.allocation && group.0 == block.0 && block.1 == LargestOf(group.1, sizes)
  }

  function LogicalSizes(load: seq<(Label, seq<Stat>)>): (r: map<Label, int>)
    ensures forall l :: l in r <==> l in LoadLabels(load)
    ensures forall l :: l in r ==> exists item :: item in load && item.0 == l && r[l] == SumSizes(item.1)
  {
    if load == [] then map[]
    else
      var before, item := load[..|load| - 1], load[|load| - 1];
      assert load == before + [item];
      if item.1 == [] then LogicalSizes(before) else LogicalSizes(before)[item.0 := SumSizes(item.1)]
  }

  function TotalOf(blocks: seq<(int, int)>): int {
    if blocks == [] then 0 else TotalOf(blocks[..|blocks| - 1]) + blocks[|blocks| - 1].1
  }

  function TotalOfLargest(allocation: seq<(int, seq<Label>)>, bytes: map<Label, int>): int
    requires forall group :: group in allocation ==> group.1 != [] && forall l :: l in group.1 ==> l in bytes
  {
    if allocation == [] then 0
    else
      var before, group := allocation[..|allocation| - 1], allocation[|allocation| - 1];
      TotalOfLargest(before, bytes) + LargestOf(group.1, bytes)
  }

  lemma {:induction false} TotalNonNegative(blocks: seq<(int, int)>)
    requires forall block :: block in blocks ==> block.1 >= 0
    ensures TotalOf(blocks) >= 0
  {
    if blocks != [] {
      var last := |blocks| - 1;
      assert blocks[last] in blocks;
      TotalNonNegative(blocks[..last]);
    }
  }

  lemma {:induction false} LargestTotalNonNegative(allocation: seq<(int, seq<Label>)>, bytes: map<Label, int>)
    requires forall group :: group in allocation ==> group.1 != [] && forall l :: l in group.1 ==> l in bytes
    requires forall l :: l in bytes ==> bytes[l] >= 0
    ensures TotalOfLargest(allocation, bytes) >= 0
  {
    if allocation != [] {
      var last := |allocation| - 1;
      assert allocation[last] in allocation;
      LargestTotalNonNegative(allocation[..last], bytes);
    }
  }
}
