/** Aligned slots in a byte block: the arithmetic of packing. */
module SlotLayout {
  import opened Arithmetic

  type Byte = bv8

  datatype Tensor = Tensor(itemsize: nat, data: seq<Byte>)

  datatype Slot = Slot(start: nat, end: nat, itemsize: nat)

  /** Items are whole, and the alignment suits their size. */
  ghost predicate TensorOk(t: Tensor, alignment: nat) {
    t.itemsize > 0 && |t.data| % t.itemsize == 0 && alignment > 0 && (alignment % t.itemsize == 0 || t.itemsize >= alignment)
  }

  /** start rounded up to a multiple of the larger of item size and alignment. */
  function BuildSlot(t: Tensor, start: nat, alignment: nat): (s: Slot)
    requires t.itemsize > 0
    ensures s.end == s.start + |t.data| && start <= s.start && s.itemsize == t.itemsize
  {
    var required := if t.itemsize > alignment then t.itemsize else alignment;
    RoundsUp(start, required);
    var aligned := -(-(start as int) / required) * required;
    Slot(aligned, aligned + |t.data|, t.itemsize)
  }

  lemma RoundsUp(start: int, required: int)
    requires start >= 0 && required > 0
    ensures var aligned := -(-start / required) * required;
            start <= aligned < start + required && aligned % required == 0
  {
    var q, r := -start / required, -start % required;
    assert -start == q * required + r;
    assert -q * required == start + r;
    DivModUnique(-q * required, required, -q, 0);
  }

  /** Where the typed view of a slot begins. */
  function ViewStart(s: Slot): (v: nat)
    requires s.itemsize > 0
    ensures v <= s.start
  {
    FloorBelow(s.start, s.itemsize);
    s.start / s.itemsize * s.itemsize
  }

  lemma FloorBelow(n: nat, d: nat)
    requires d > 0
    ensures 0 <= n / d * d <= n && (n % d == 0 ==> n / d * d == n)
  {
    assert n == n / d * d + n % d;
  }

  /** The first multiple of d from n on. */
  ghost predicate IsFirst(r: nat, n: nat, d: nat)
    requires d > 0
  {
    r % d == 0 && n <= r && forall k :: n <= k < r ==> k % d != 0
  }

  lemma NextMultiple(n: int, r: int, d: int, k: int)
    requires d > 0 && r % d == 0 && n <= k < r < n + d
    ensures k % d != 0
  {
    if k % d == 0 { DivModUnique(r, d, k / d, r - k); }
  }

  /** The checks in the slot metadata hold for every slot, so its typed view covers exactly the
      copied bytes; the slot starts at the first aligned byte. */
  lemma SlotAccepted(t: Tensor, start: nat, alignment: nat)
    requires TensorOk(t, alignment)
    ensures var s := BuildSlot(t, start, alignment);
            && s.start % t.itemsize == 0 && (s.end - s.start) % t.itemsize == 0 && ViewStart(s) == s.start
            && (t.itemsize <= alignment ==> s.start % alignment == 0)
            && IsFirst(s.start, start, if t.itemsize > alignment then t.itemsize else alignment)
  {
    var s := BuildSlot(t, start, alignment);
    var required := if t.itemsize > alignment then t.itemsize else alignment;
    RoundsUp(start, required);
    forall k | start <= k < s.start ensures k % required != 0 { NextMultiple(start, s.start, required, k); }
    if t.itemsize < alignment { MultipleOfMultiple(s.start, alignment, t.itemsize); }
    FloorBelow(s.start, t.itemsize);
  }

  lemma MultipleOfMultiple(n: nat, a: nat, d: nat)
    requires a > 0 && d > 0 && n % a == 0 && a % d == 0
    ensures n % d == 0
  {
    var m, k := n / a, a / d;
    assert n == m * a && a == k * d;
    assert n == (m * k) * d;
    DivModUnique(n, d, m * k, 0);
  }

  // ---------------------------------------------------------------------------
  // Slots one after another
  // ---------------------------------------------------------------------------

  function EndOf(slots: seq<(int, Slot)>, start: nat): nat {
    if slots == [] then start else slots[|slots| - 1].1.end
  }

  ghost predicate AllKnown(ids: seq<int>, tensors: map<int, Tensor>, alignment: nat) {
    forall tid :: tid in ids ==> tid in tensors && TensorOk(tensors[tid], alignment)
  }

  function PackSlots(tensors: map<int, Tensor>, ids: seq<int>, start: nat, alignment: nat): (slots: seq<(int, Slot)>)
    requires AllKnown(ids, tensors, alignment)
    ensures |slots| == |ids| && forall i :: 0 <= i < |ids| ==> slots[i].0 == ids[i]
  {
    if ids == [] then []
    else
      var last := ids[|ids| - 1];
      var before := PackSlots(tensors, ids[..|ids| - 1], start, alignment);
      before + [(last, BuildSlot(tensors[last], EndOf(before, start), alignment))]
  }

  /** The slot holds its tensor's bytes inside [low, high), and its view starts where they do. */
  ghost predicate SlotFits(tensors: map<int, Tensor>, entry: (int, Slot), low: int, high: int) {
    var (tid, s) := entry;
    tid in tensors && low <= s.start && s.end <= high && s.end - s.start == |tensors[tid].data| &&
    s.itemsize > 0 && s.start % s.itemsize == 0 && ViewStart(s) == s.start
  }

  /** Every slot fits, and no two overlap. */
  ghost predicate SlotsFit(tensors: map<int, Tensor>, slots: seq<(int, Slot)>, low: int, high: int) {
    && (forall i :: 0 <= i < |slots| ==> SlotFits(tensors, slots[i], low, high))
    && forall i, j :: 0 <= i < j < |slots| ==> slots[i].1.end <= slots[j].1.start
  }

  lemma {:induction false} PackedSlotsFit(tensors: map<int, Tensor>, ids: seq<int>, start: nat, alignment: nat)
    requires AllKnown(ids, tensors, alignment)
    ensures var slots := PackSlots(tensors, ids, start, alignment);
            start <= EndOf(slots, start) && SlotsFit(tensors, slots, start, EndOf(slots, start))
  {
    if ids != [] {
      var last := |ids| - 1;
      PackedSlotsFit(tensors, ids[..last], start, alignment);
      var before := PackSlots(tensors, ids[..last], start, alignment);
      var tid := ids[last];
      assert tid in ids && tid in tensors;
      SlotAccepted(tensors[tid], EndOf(before, start), alignment);
      AppendedSlotFits(tensors, before, (tid, BuildSlot(tensors[tid], EndOf(before, start), alignment)), start);
    }
  }

  lemma AppendedSlotFits(tensors: map<int, Tensor>, before: seq<(int, Slot)>, entry: (int, Slot), low: nat)
    requires low <= EndOf(before, low) && SlotsFit(tensors, before, low, EndOf(before, low))
    requires SlotFits(tensors, entry, EndOf(before, low), entry.1.end)
    ensures SlotsFit(tensors, before + [entry], low, entry.1.end)
  {
    var slots := before + [entry];
    forall i | 0 <= i < |slots| ensures SlotFits(tensors, slots[i], low, entry.1.end) {
      if i < |before| { assert SlotFits(tensors, before[i], low, EndOf(before, low)); }
    }
    forall i, j | 0 <= i < j < |slots| ensures slots[i].1.end <= slots[j].1.start {
      assert SlotFits(tensors, before[i], low, EndOf(before, low));
    }
  }

  lemma WiderFits(tensors: map<int, Tensor>, slots: seq<(int, Slot)>, low: int, high: int, high': int)
    requires SlotsFit(tensors, slots, low, high) && high <= high'
    ensures SlotsFit(tensors, slots, low, high')
  {
  }

  // ---------------------------------------------------------------------------
  // Bytes
  // ---------------------------------------------------------------------------

  function Put(block: seq<Byte>, at: nat, data: seq<Byte>): (r: seq<Byte>)
    requires at + |data| <= |block|
    ensures |r| == |block|
  {
    block[..at] + data + block[at + |data|..]
  }

  /** What the typed view of a slot shows. */
  function Read(block: seq<Byte>, s: Slot): seq<Byte>
    requires s.itemsize > 0 && s.start <= s.end <= |block|
  {
    var v := ViewStart(s);
    block[v..v + (s.end - s.start)]
  }

  /** Copying each tensor through the view of its slot. */
  function PackInto(block: seq<Byte>, tensors: map<int, Tensor>, slots: seq<(int, Slot)>): (r: seq<Byte>)
    requires SlotsFit(tensors, slots, 0, |block|)
    ensures |r| == |block|
  {
    if slots == [] then block
    else
      var (tid, s) := slots[|slots| - 1];
      assert SlotFits(tensors, slots[|slots| - 1], 0, |block|);
      Put(PackInto(block, tensors, slots[..|slots| - 1]), ViewStart(s), tensors[tid].data)
  }

  lemma PutReads(block: seq<Byte>, at: nat, data: seq<Byte>, low: nat, high: nat)
    requires at + |data| <= |block| && low <= high <= |block|
    ensures Put(block, at, data)[at..at + |data|] == data
    ensures high <= at ==> Put(block, at, data)[low..high] == block[low..high]
  {
  }

  /** After packing, each view shows its tensor's bytes, and bytes outside stay. */
  lemma {:induction false} PackedReads(block: seq<Byte>, tensors: map<int, Tensor>, slots: seq<(int, Slot)>, low: nat)
    requires SlotsFit(tensors, slots, low, |block|) && SlotsFit(tensors, slots, 0, |block|) && low <= |block|
    ensures var r := PackInto(block, tensors, slots);
            && r[..low] == block[..low]
            && forall i :: 0 <= i < |slots| ==> Read(r, slots[i].1) == tensors[slots[i].0].data
  {
    if slots != [] {
      var last := |slots| - 1;
      PackedReads(block, tensors, slots[..last], low);
      PackedLast(block, tensors, slots, low);
      hide Read, PackInto;
      forall i | 0 <= i < last ensures Read(PackInto(block, tensors, slots), slots[i].1) == tensors[slots[i].0].data {
        PackedEarlier(block, tensors, slots, i, low);
      }
    }
  }

  lemma PackedLast(block: seq<Byte>, tensors: map<int, Tensor>, slots: seq<(int, Slot)>, low: nat)
    requires SlotsFit(tensors, slots, low, |block|) && SlotsFit(tensors, slots, 0, |block|) && low <= |block| && slots != []
    ensures var last, r := |slots| - 1, PackInto(block, tensors, slots);
            r[..low] == PackInto(block, tensors, slots[..last])[..low] && Read(r, slots[last].1) == tensors[slots[last].0].data
  {
    var last := |slots| - 1;
    var (tid, s) := slots[last];
    assert SlotFits(tensors, slots[last], low, |block|);
    PutReads(PackInto(block, tensors, slots[..last]), s.start, tensors[tid].data, 0, low);
  }

  /** The last copy leaves the earlier slots alone. */
  lemma PackedEarlier(block: seq<Byte>, tensors: map<int, Tensor>, slots: seq<(int, Slot)>, i: nat, low: nat)
    requires SlotsFit(tensors, slots, low, |block|) && SlotsFit(tensors, slots, 0, |block|) && i < |slots| - 1
    ensures Read(PackInto(block, tensors, slots), slots[i].1) == Read(PackInto(block, tensors, slots[..|slots| - 1]), slots[i].1)
  {
    assert SlotsFit(tensors, slots[..|slots| - 1], 0, |block|);
    hide ViewStart, Put, SlotFits, SlotsFit;
    var last, e := |slots| - 1, slots[i].1;
    var (tid, s) := slots[last];
    SlotsApart(tensors, slots, i, last, low, |block|);
    PutReads(PackInto(block, tensors, slots[..last]), s.start, tensors[tid].data, e.start, e.end);
  }

  lemma SlotsApart(tensors: map<int, Tensor>, slots: seq<(int, Slot)>, i: nat, j: nat, low: nat, high: nat)
    requires SlotsFit(tensors, slots, low, high) && i < j < |slots|
    ensures var (tid, s) := slots[j];
            var e := slots[i].1;
            && low <= e.start <= e.end <= s.start && ViewStart(s) == s.start && ViewStart(e) == e.start
            && tid in tensors && s.start + |tensors[tid].data| <= high
  {
    assert SlotFits(tensors, slots[i], low, high) && SlotFits(tensors, slots[j], low, high);
  }
}
