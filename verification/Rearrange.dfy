/** What rearrange_transfers computes, and why its final check cannot fire. */
module Rearrange {
  import opened Timeline

  /** Positions at which block b is read by a compute layer. */
  function BlockComputes(s: Schedule, b: int): (r: set<int>)
    ensures forall x :: s.Known(x) && s.block[x] == b ==> s.To(x) in r
  {
    set x | x in s.compute && x in s.block && s.block[x] == b && s.compute[x] in s.stats :: s.To(x)
  }

  /** The largest member of `at` that is at most k, or -1. */
  function PrevFrom(at: set<int>, k: int): (p: int)
    ensures p == -1 || (p in at && 0 <= p <= k)
    ensures forall q :: q in at && 0 <= q <= k ==> q <= p
    decreases k + 1
  {
    if k < 0 then -1 else if k in at then k else PrevFrom(at, k - 1)
  }

  /** The last compute of x's block before x is copied in, or -1. */
  function Previous(s: Schedule, x: Label): int
    requires s.Slot(x) && x in s.stats
  {
    PrevFrom(BlockComputes(s, s.block[x]), s.Pos(x) - 1)
  }

  function FreeSlots(s: Schedule): (r: set<int>)
    ensures forall x :: x in s.compute && x in s.stats ==> s.Pos(x) !in r
  {
    IntRange(0, |s.stats|) - (set x | x in s.compute && x in s.stats :: s.Pos(x))
  }

  /** The slots considered for x: a range read as cyclic when its ends are out of order. */
  function Window(prev: int, c: int, n: int, gap: int): set<int> {
    if prev == -1 then IntRange(0, c)
    else if c < prev + gap then IntRange(0, c) + IntRange(prev + gap, n)
    else IntRange(prev + gap, c)
  }

  function Candidates(s: Schedule, x: Label, gap: int): (r: set<int>)
    requires s.Known(x)
    ensures s.Pos(x) in r && forall i :: i in r ==> 0 <= i < |s.stats|
  {
    FreeSlots(s) * Window(Previous(s, x), s.To(x), |s.stats|, gap) + {s.Pos(x)}
  }

  /** The candidate furthest ahead of compute position c. */
  ghost predicate IsBest(cands: set<int>, c: int, n: int, slot: int) {
    slot in cands && forall i :: i in cands ==> Gap(i, c, n) <= Gap(slot, c, n)
  }

  function BestFrom(cands: set<int>, c: int, n: int, g: int): (slot: int)
    requires 0 <= c < n && g <= n
    requires forall i :: i in cands ==> 0 <= i < n && Gap(i, c, n) <= g
    requires exists i :: i in cands
    ensures IsBest(cands, c, n, slot)
    decreases g
  {
    var at := if g <= c then c - g else n - g + c;
    assert forall i :: i in cands ==> 1 <= Gap(i, c, n);
    assert g >= 1 by { var i :| i in cands; assert 1 <= Gap(i, c, n) <= g; }
    assert Gap(at, c, n) == g;
    assert forall i :: i in cands && Gap(i, c, n) == g ==> i == at;
    if at in cands then at else BestFrom(cands, c, n, g - 1)
  }

  function Best(s: Schedule, x: Label, gap: int): (slot: int)
    requires s.Known(x)
    ensures IsBest(Candidates(s, x, gap), s.To(x), |s.stats|, slot)
  {
    assert s.Pos(x) in Candidates(s, x, gap);
    BestFrom(Candidates(s, x, gap), s.To(x), |s.stats|, |s.stats|)
  }

  function NewLabel(s: Schedule, x: Label, gap: int): Label
    requires s.Known(x)
  {
    s.stats[Best(s, x, gap)]
  }

  /** One turn of the loop: x's copy and block move to its new slot. */
  function Step(s: Schedule, x: Label, gap: int): Schedule
    requires s.Known(x)
  {
    var z := NewLabel(s, x, gap);
    s.(compute := (s.compute - {x})[z := s.compute[x]], block := (s.block - {x})[z := s.block[x]])
  }

  /** t is s with x's copy and block moved to the slot of z, which no other transfer held. */
  ghost predicate MovedTo(s: Schedule, t: Schedule, x: Label, z: Label) {
    && s.Known(x) && t.stats == s.stats && z in s.stats && (z == x || z !in s.compute)
    && t.compute.Keys == s.compute.Keys - {x} + {z}
    && t.block.Keys == s.block.Keys - {x} + {z}
    && t.compute[z] == s.compute[x] && t.block[z] == s.block[x]
    && (forall y :: y in s.compute && y != x && y != z ==> t.compute[y] == s.compute[y])
    && (forall y :: y in s.block && y != x && y != z ==> t.block[y] == s.block[y])
  }

  lemma StepMoves(s: Schedule, x: Label, gap: int)
    requires s.Known(x) && s.WellPlaced()
    ensures var z := NewLabel(s, x, gap);
            MovedTo(s, Step(s, x, gap), x, z) && s.Pos(z) == Best(s, x, gap)
  {
    var z, at := NewLabel(s, x, gap), Best(s, x, gap);
    assert s.stats[s.Pos(z)] == s.stats[at];
    assert z != x ==> at in FreeSlots(s);
  }

  /** The transfers still to be moved are all there, each once. */
  ghost predicate Pending(s: Schedule, order: seq<Label>) {
    s.WellPlaced() && Distinct(order) && forall x :: x in order ==> s.Slot(x)
  }

  lemma MoveKeepsPending(s: Schedule, t: Schedule, order: seq<Label>, z: Label)
    requires order != [] && Pending(s, order) && MovedTo(s, t, order[0], z)
    ensures Pending(t, order[1..])
    ensures z !in order[1..]
  {
    assert forall x :: x in order[1..] ==> x in order && x != order[0];
    forall x | t.Slot(x) ensures x in t.stats && t.compute[x] in t.stats {
      assert x != z ==> s.Slot(x);
    }
  }

  lemma StepKeepsPending(s: Schedule, order: seq<Label>, gap: int)
    requires order != [] && Pending(s, order)
    ensures Pending(Step(s, order[0], gap), order[1..])
  {
    StepMoves(s, order[0], gap);
    MoveKeepsPending(s, Step(s, order[0], gap), order, NewLabel(s, order[0], gap));
  }

  /** The schedule after every transfer of `order` had its turn. */
  function Run(s: Schedule, order: seq<Label>, gap: int): Schedule
    requires Pending(s, order)
    decreases |order|
  {
    if order == [] then s
    else
      StepKeepsPending(s, order, gap);
      Run(Step(s, order[0], gap), order[1..], gap)
  }

  /** remapped_layers in insertion order: each transfer and the slot it got. */
  function Moves(s: Schedule, order: seq<Label>, gap: int): (m: seq<(Label, Label)>)
    requires Pending(s, order)
    ensures |m| == |order| && forall i :: 0 <= i < |m| ==> m[i].0 == order[i]
    decreases |order|
  {
    if order == [] then []
    else
      StepKeepsPending(s, order, gap);
      [(order[0], NewLabel(s, order[0], gap))] + Moves(Step(s, order[0], gap), order[1..], gap)
  }

  // ---------------------------------------------------------------------------
  // Overlap freedom
  // ---------------------------------------------------------------------------

  /** No candidate reaches back to the block's previous compute. */
  ghost predicate Safe(s: Schedule, x: Label, gap: int)
    requires s.Known(x)
  {
    var prev := Previous(s, x);
    prev == -1 || forall i :: i in Candidates(s, x, gap) ==> Gap(i, s.To(x), |s.stats|) < Gap(prev, s.To(x), |s.stats|)
  }

  ghost predicate AllSafe(s: Schedule, order: seq<Label>, gap: int)
    requires Pending(s, order)
    decreases |order|
  {
    order == [] ||
    (StepKeepsPending(s, order, gap);
     Safe(s, order[0], gap) && AllSafe(Step(s, order[0], gap), order[1..], gap))
  }

  /** Overlap freedom, said with positions only. */
  ghost predicate Clear(s: Schedule)
    requires s.WellPlaced()
  {
    && (forall x :: s.Slot(x) ==> s.Pos(x) != s.To(x))
    && (forall x, y :: s.Slot(x) && s.Slot(y) && x != y && s.block[x] == s.block[y] ==>
          !InArc(s.Pos(x), s.Pos(y), s.To(y)))
  }

  lemma OverlapFreeIsClear(s: Schedule)
    requires s.WellPlaced()
    ensures s.OverlapFree() <==> Clear(s)
  {
    forall x, y | s.Slot(x) && s.Slot(y) && x != y && s.block[x] == s.block[y]
      ensures s.Clash(x, y) <==> InArc(s.Pos(x), s.Pos(y), s.To(y)) || InArc(s.Pos(y), s.Pos(x), s.To(x))
    {
      ArcsMeet(s.Pos(x), s.To(x), s.Pos(y), s.To(y), |s.stats|);
    }
    if s.OverlapFree() {
      forall x, y | s.Slot(x) && s.Slot(y) && x != y && s.block[x] == s.block[y]
        ensures !InArc(s.Pos(x), s.Pos(y), s.To(y))
      {
        assert !s.Clash(x, y);
      }
      forall x | s.Slot(x) ensures s.Pos(x) != s.To(x) { assert !s.Clash(x, x); }
    }
  }

  /** Moving the start of a span back to `slot`, short of the previous compute, meets no
      span it did not meet before. */
  lemma EarlierStartStaysClear(t: int, c: int, slot: int, t2: int, c2: int, prev: int, n: int)
    requires 0 <= t < n && 0 <= c < n && 0 <= slot < n && 0 <= t2 < n && 0 <= c2 < n
    requires t != c && t2 != c2 && !InArc(t, t2, c2) && !InArc(t2, t, c)
    requires c2 < t ==> c2 <= prev
    requires c < t ==> c <= prev
    requires -1 <= prev < t
    requires Gap(slot, c, n) >= Gap(t, c, n)
    requires if prev == -1 then slot < c else Gap(slot, c, n) < Gap(prev, c, n)
    ensures !InArc(slot, t2, c2) && !InArc(t2, slot, c)
  {
  }

  lemma EarlierStartIsBeforeCompute(t: int, c: int, slot: int, prev: int, n: int)
    requires 0 <= t < n && 0 <= c < n && 0 <= slot < n && -1 <= prev < n
    requires if prev == -1 then slot < c else Gap(slot, c, n) < Gap(prev, c, n)
    ensures slot != c
  {
  }

  /** z's gap is at least x's, and stops short of the block's previous compute. */
  ghost predicate StopsShort(s: Schedule, x: Label, z: Label)
    requires s.Known(x) && z in s.stats
  {
    var prev, c, n := Previous(s, x), s.To(x), |s.stats|;
    Gap(s.Pos(z), c, n) >= Gap(s.Pos(x), c, n) &&
    if prev == -1 then s.Pos(z) < c else Gap(s.Pos(z), c, n) < Gap(prev, c, n)
  }

  lemma MovedSpanStaysClear(s: Schedule, x: Label, z: Label, y: Label)
    requires s.WellPlaced() && Clear(s) && s.Slot(x) && s.Slot(y) && y != x && s.block[y] == s.block[x]
    requires z in s.stats && StopsShort(s, x, z)
    ensures !InArc(s.Pos(z), s.Pos(y), s.To(y)) && !InArc(s.Pos(y), s.Pos(z), s.To(x))
  {
    assert s.To(y) in BlockComputes(s, s.block[x]) && s.To(x) in BlockComputes(s, s.block[x]);
    EarlierStartStaysClear(s.Pos(x), s.To(x), s.Pos(z), s.Pos(y), s.To(y), Previous(s, x), |s.stats|);
  }

  lemma SafeMoveKeepsClear(s: Schedule, t: Schedule, x: Label, z: Label)
    requires s.WellPlaced() && Clear(s) && MovedTo(s, t, x, z) && t.WellPlaced() && StopsShort(s, x, z)
    ensures Clear(t)
  {
    EarlierStartIsBeforeCompute(s.Pos(x), s.To(x), s.Pos(z), Previous(s, x), |s.stats|);
    forall y, w | t.Slot(y) && t.Slot(w) && y != w && t.block[y] == t.block[w]
      ensures !InArc(t.Pos(y), t.Pos(w), t.To(w))
    {
      PairStaysClear(s, t, x, z, y, w);
    }
    assert forall y :: t.Slot(y) && y != z ==> s.Slot(y) && t.To(y) == s.To(y);
  }

  lemma PairStaysClear(s: Schedule, t: Schedule, x: Label, z: Label, y: Label, w: Label)
    requires s.WellPlaced() && Clear(s) && MovedTo(s, t, x, z) && t.WellPlaced() && StopsShort(s, x, z)
    requires t.Slot(y) && t.Slot(w) && y != w && t.block[y] == t.block[w]
    ensures !InArc(t.Pos(y), t.Pos(w), t.To(w))
  {
    if y == z {
      MovedSpanStaysClear(s, x, z, w);
    } else if w == z {
      MovedSpanStaysClear(s, x, z, y);
    } else {
      assert s.Slot(y) && s.Slot(w) && !InArc(s.Pos(y), s.Pos(w), s.To(w));
    }
  }

  lemma SafeStepKeepsClear(s: Schedule, x: Label, gap: int)
    requires s.WellPlaced() && s.Slot(x) && Clear(s) && Safe(s, x, gap)
    ensures Step(s, x, gap).WellPlaced() && Clear(Step(s, x, gap))
  {
    StepKeepsPending(s, [x], gap);
    StepMoves(s, x, gap);
    BestStopsShort(s, x, gap);
    SafeMoveKeepsClear(s, Step(s, x, gap), x, NewLabel(s, x, gap));
  }

  lemma BestStopsShort(s: Schedule, x: Label, gap: int)
    requires s.WellPlaced() && s.Slot(x) && Clear(s) && Safe(s, x, gap)
    ensures NewLabel(s, x, gap) in s.stats && StopsShort(s, x, NewLabel(s, x, gap))
  {
    StepMoves(s, x, gap);
    assert s.To(x) in BlockComputes(s, s.block[x]);
    assert Best(s, x, gap) in Candidates(s, x, gap);
  }

  /** A transfer that has had its turn and now spans another compute of its block. */
  ghost predicate Doomed(s: Schedule, z: Label, order: seq<Label>) {
    && s.Known(z) && z !in order
    && (s.Pos(z) == s.To(z) ||
        exists y :: y != z && s.Known(y) && s.block[y] == s.block[z] && InArc(s.To(y), s.Pos(z), s.To(z)))
  }

  lemma UnsafeStepDooms(s: Schedule, order: seq<Label>, gap: int)
    requires order != [] && Pending(s, order) && Clear(s) && !Safe(s, order[0], gap)
    ensures Doomed(Step(s, order[0], gap), NewLabel(s, order[0], gap), order[1..])
  {
    var x := order[0];
    StepMoves(s, x, gap);
    StepKeepsPending(s, order, gap);
    LongMoveDooms(s, Step(s, x, gap), order, NewLabel(s, x, gap));
  }

  lemma LongMoveDooms(s: Schedule, t: Schedule, order: seq<Label>, z: Label)
    requires order != [] && Pending(s, order) && Pending(t, order[1..])
    requires MovedTo(s, t, order[0], z) && Previous(s, order[0]) != -1
    requires var c, n := s.To(order[0]), |s.stats|; Gap(s.Pos(z), c, n) >= Gap(Previous(s, order[0]), c, n)
    ensures Doomed(t, z, order[1..])
  {
    var x := order[0];
    var prev, n, c := Previous(s, x), |s.stats|, s.To(x);
    MoveKeepsPending(s, t, order, z);
    if s.Pos(z) != c {
      ArcByGap(prev, s.Pos(z), c, n);
      assert InArc(prev, s.Pos(z), c) && prev != c;
      assert prev in BlockComputes(s, s.block[x]);
      var y :| s.Slot(y) && s.block[y] == s.block[x] && s.To(y) == prev;
      assert y != x && y != z;
      assert t.Known(y) && t.To(y) == prev;
    }
  }

  lemma DoomedStaysDoomed(s: Schedule, t: Schedule, z: Label, order: seq<Label>, w: Label)
    requires order != [] && Pending(s, order) && Doomed(s, z, order) && MovedTo(s, t, order[0], w)
    ensures Doomed(t, z, order[1..])
  {
    MoveKeepsPending(s, t, order, w);
    assert z != w && z !in order[1..] && t.Known(z);
    if s.Pos(z) != s.To(z) {
      var y :| y != z && s.Known(y) && s.block[y] == s.block[z] && InArc(s.To(y), s.Pos(z), s.To(z));
      var y' := if y == order[0] then w else y;
      assert t.Known(y') && y' != z && t.To(y') == s.To(y);
    }
  }

  lemma {:induction false} DoomedNeverRecovers(s: Schedule, z: Label, order: seq<Label>, gap: int)
    requires Pending(s, order) && Doomed(s, z, order)
    ensures !Run(s, order, gap).OverlapFree()
    decreases |order|
  {
    if order == [] {
      OverlapFreeIsClear(s);
      if s.Pos(z) != s.To(z) {
        var y :| y != z && s.Known(y) && s.block[y] == s.block[z] && InArc(s.To(y), s.Pos(z), s.To(z));
        assert InArc(s.To(y), s.Pos(y), s.To(y));
        assert s.Clash(z, y);
      }
    } else {
      StepMoves(s, order[0], gap);
      DoomedStaysDoomed(s, Step(s, order[0], gap), z, order, NewLabel(s, order[0], gap));
      StepKeepsPending(s, order, gap);
      DoomedNeverRecovers(Step(s, order[0], gap), z, order[1..], gap);
    }
  }

  /** For every minimum gap: the moved schedule of an overlap-free one is overlap-free
      exactly when no turn could reach back to the previous compute of its block. */
  lemma {:induction false} RunOverlapFreeIff(s: Schedule, order: seq<Label>, gap: int)
    requires Pending(s, order) && Clear(s)
    ensures Run(s, order, gap).OverlapFree() <==> AllSafe(s, order, gap)
    decreases |order|
  {
    OverlapFreeIsClear(s);
    if order != [] {
      StepKeepsPending(s, order, gap);
      if Safe(s, order[0], gap) {
        SafeStepKeepsClear(s, order[0], gap);
        RunOverlapFreeIff(Step(s, order[0], gap), order[1..], gap);
      } else {
        UnsafeStepDooms(s, order, gap);
        DoomedNeverRecovers(Step(s, order[0], gap), NewLabel(s, order[0], gap), order[1..], gap);
      }
    }
  }

  /** With a gap of 1 or 2 the window never reaches back to the previous compute. */
  lemma SmallGapIsSafe(s: Schedule, x: Label, gap: int)
    requires s.WellPlaced() && s.Slot(x) && Clear(s) && 1 <= gap <= 2
    ensures Safe(s, x, gap)
  {
    var prev, c, n := Previous(s, x), s.To(x), |s.stats|;
    assert c in BlockComputes(s, s.block[x]);
    if prev != -1 && s.Pos(x) < c {
      assert prev + gap <= c;
    }
  }

  lemma {:induction false} SmallGapAlwaysSafe(s: Schedule, order: seq<Label>, gap: int)
    requires Pending(s, order) && Clear(s) && 1 <= gap <= 2
    ensures AllSafe(s, order, gap)
    decreases |order|
  {
    if order != [] {
      SmallGapIsSafe(s, order[0], gap);
      StepKeepsPending(s, order, gap);
      SafeStepKeepsClear(s, order[0], gap);
      SmallGapAlwaysSafe(Step(s, order[0], gap), order[1..], gap);
    }
  }
}
