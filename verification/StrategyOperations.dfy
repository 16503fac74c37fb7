/** The scheduling operations of strategy_operations.py. Loops over a dict whose order cannot
  matter pick its keys in any order; where insertion order matters it is passed as `keys`. */
module StrategyOperations {
  import opened Timeline
  import opened Rearrange
  import opened Sorting

  datatype Outcome =
    | Done(schedule: Schedule, remap: seq<(Label, Label)>)
    | TransferConstraintViolated
    | OverlapConstraintViolated

  /** The keys of a dict in insertion order. */
  ghost predicate KeysOf<V>(keys: seq<Label>, m: map<Label, V>) {
    Distinct(keys) && forall l :: l in keys <==> l in m
  }

  /** Every transfer into block b is for a layer of the timeline. */
  ghost predicate BlockPlaced(s: Schedule, b: int) {
    forall y :: s.Slot(y) && s.block[y] == b ==> s.compute[y] in s.stats
  }

  /** calculate_compute_position_by_block_id, for the one block that is looked up, and the
      positions of its layers; `unknown` tells whether some layer has none. */
  method ComputePositions(s: Schedule, b: int) returns (positions: seq<int>, unknown: bool)
    ensures forall q :: q in positions <==> q in BlockComputes(s, b)
    ensures unknown <==> !BlockPlaced(s, b)
  {
    var todo := s.compute.Keys;
    positions, unknown := [], false;
    while todo != {}
      invariant todo <= s.compute.Keys
      invariant forall q :: q in positions ==> q in BlockComputes(s, b)
      invariant forall y :: InBlock(s, y, b) && y !in todo && s.compute[y] in s.stats ==> s.To(y) in positions
      invariant unknown <==> exists y :: InBlock(s, y, b) && y !in todo && s.compute[y] !in s.stats
      decreases |todo|
    {
      var y :| y in todo;
      if y in s.block && s.block[y] == b {
        assert InBlock(s, y, b);
        if s.compute[y] in s.stats { positions := positions + [s.To(y)]; } else { unknown := true; }
      }
      todo := todo - {y};
    }
  }

  ghost predicate InBlock(s: Schedule, y: Label, b: int) { s.Slot(y) && s.block[y] == b }

  /** A layer without a position makes the sort of the positions raise. */
  method FindPreviousComputePosition(s: Schedule, x: Label) returns (prev: int, raised: bool)
    requires s.Slot(x) && x in s.stats
    ensures raised <==> !BlockPlaced(s, s.block[x])
    ensures !raised ==> prev == Previous(s, x)
  {
    var positions, unknown := ComputePositions(s, s.block[x]);
    if unknown { return -1, true; }
    raised := false;
    var t := s.Pos(x);
    var less := (p: int, q: int) => p < q;
    var sorted := Sort(positions + [t], less);
    SortSorts(positions + [t], less);
    assert forall i, j :: 0 <= i < j < |sorted| ==> !less(sorted[j], sorted[i]);
    assert t in sorted by { assert t in multiset(positions + [t]); }
    var index := 0;
    while sorted[index] != t
      invariant 0 <= index < |sorted|
      invariant t !in sorted[..index]
      decreases |sorted| - index
    {
      index := index + 1;
    }
    prev := if index > 0 then sorted[index - 1] else -1;
    PredecessorIsPrevious(BlockComputes(s, s.block[x]), positions, t, sorted, index);
  }

  /** The element before the first t of the sorted list is the largest position below t. */
  lemma PredecessorIsPrevious(at: set<int>, positions: seq<int>, t: int, sorted: seq<int>, index: nat)
    requires forall q :: q in at <==> q in positions
    requires forall q :: q in at ==> q >= 0
    requires multiset(sorted) == multiset(positions + [t])
    requires forall i, j :: 0 <= i <= j < |sorted| ==> sorted[i] <= sorted[j]
    requires index < |sorted| && sorted[index] == t && t !in sorted[..index]
    ensures PrevFrom(at, t - 1) == if index > 0 then sorted[index - 1] else -1
  {
    if index > 0 {
      assert sorted[index - 1] in sorted[..index];
      assert sorted[index - 1] in multiset(positions + [t]);
      assert sorted[index - 1] in at;
    }
    forall q | q in at && q < t ensures index > 0 && q <= sorted[index - 1] {
      assert q in multiset(positions + [t]);
      assert q in multiset(sorted);
      var i :| 0 <= i < |sorted| && sorted[i] == q;
    }
  }

  /** The silent transfer check accepts every schedule that it can check: the predecessor it
      compares with was looked up among the positions strictly before the transfer. */
  method CheckTransferConstraint(s: Schedule) returns (ok: bool, raised: bool)
    ensures raised <==> exists x :: s.Slot(x) && x in s.stats && !BlockPlaced(s, s.block[x])
    ensures !raised ==> ok
  {
    var todo, violations := s.compute.Keys, 0;
    while todo != {}
      invariant todo <= s.compute.Keys && violations == 0
      invariant forall x :: s.Slot(x) && x in s.stats && x !in todo ==> BlockPlaced(s, s.block[x])
      decreases |todo|
    {
      var x :| x in todo;
      todo := todo - {x};
      if x in s.stats && x in s.block {
        var prev, unplaced := FindPreviousComputePosition(s, x);
        if unplaced { return false, true; }
        if prev != -1 && s.Pos(x) < prev { violations := violations + 1; }
      }
    }
    ok, raised := violations == 0, false;
  }

  /** The positions a transfer-compute pair holds its block for. */
  function Span(t: int, c: int, n: int): (r: set<int>)
    ensures 0 <= t < n && 0 <= c < n ==> forall q :: q in r <==> 0 <= q < n && InArc(q, t, c)
  {
    if c < t then IntRange(t, n) + IntRange(0, c + 1) else IntRange(t, c + 1)
  }

  /** What the two nested loops decide for the pairs of one block. */
  ghost predicate PairsApart(pairs: seq<(int, int)>, n: int) {
    && (forall i, j :: 0 <= i < |pairs| && 0 <= j < |pairs| ==> pairs[i].0 != pairs[j].1)
    && (forall i, j :: 0 <= i < j < |pairs| ==> Span(pairs[i].0, pairs[i].1, n) !! Span(pairs[j].0, pairs[j].1, n))
  }

  method BlockPairsApart(pairs: seq<(int, int)>, n: int) returns (ok: bool)
    ensures ok <==> PairsApart(pairs, n)
  {
    var violations := 0;
    for i := 0 to |pairs|
      invariant violations >= 0
      invariant violations == 0 <==>
        && (forall a, b :: 0 <= a < i && 0 <= b < |pairs| ==> pairs[a].0 != pairs[b].1)
        && (forall a, b :: 0 <= a < i && a < b < |pairs| ==>
              Span(pairs[a].0, pairs[a].1, n) !! Span(pairs[b].0, pairs[b].1, n))
    {
      ghost var before := violations;
      for j := 0 to |pairs|
        invariant violations >= before >= 0
        invariant violations == before <==>
          && (forall b :: 0 <= b < j ==> pairs[i].0 != pairs[b].1)
          && (forall b :: i < b < j ==> Span(pairs[i].0, pairs[i].1, n) !! Span(pairs[b].0, pairs[b].1, n))
      {
        if pairs[i].0 == pairs[j].1 { violations := violations + 1; }
        if i < j && Span(pairs[i].0, pairs[i].1, n) * Span(pairs[j].0, pairs[j].1, n) != {} {
          violations := violations + 1;
        }
      }
    }
    ok := violations == 0;
  }

  ghost predicate BlockClashFree(s: Schedule, b: int) {
    forall x, y :: s.Known(x) && s.Known(y) && s.block[x] == b && s.block[y] == b ==> !s.Clash(x, y)
  }

  ghost predicate PairsOf(s: Schedule, labels: seq<Label>, pairs: seq<(int, int)>) {
    |pairs| == |labels| &&
    forall i :: 0 <= i < |labels| ==> s.Known(labels[i]) && pairs[i] == (s.Pos(labels[i]), s.To(labels[i]))
  }

  /** Two transfers of a block clash exactly when their spans share a position. */
  lemma SpansApart(s: Schedule, x: Label, y: Label)
    requires s.Known(x) && s.Known(y) && x != y && s.block[x] == s.block[y]
    ensures var n := |s.stats|; !s.Clash(x, y) <==> Span(s.Pos(x), s.To(x), n) !! Span(s.Pos(y), s.To(y), n)
    ensures !s.Clash(x, y) ==> s.Pos(x) != s.To(y) && s.Pos(y) != s.To(x)
  {
    var n := |s.stats|;
    var a, b := Span(s.Pos(x), s.To(x), n), Span(s.Pos(y), s.To(y), n);
    if !s.Clash(x, y) {
      assert InArc(s.Pos(x), s.Pos(x), s.To(x)) && InArc(s.To(x), s.Pos(x), s.To(x));
      assert InArc(s.Pos(y), s.Pos(y), s.To(y)) && InArc(s.To(y), s.Pos(y), s.To(y));
    } else {
      var q :| 0 <= q < n && InArc(q, s.Pos(x), s.To(x)) && InArc(q, s.Pos(y), s.To(y));
      assert q in a && q in b;
    }
  }

  /** The pairs of a block are apart exactly when no two of its transfers clash. */
  lemma PairsApartIsClashFree(s: Schedule, labels: seq<Label>, b: int, pairs: seq<(int, int)>)
    requires Distinct(labels) && forall x :: x in labels <==> s.Known(x) && s.block[x] == b
    requires PairsOf(s, labels, pairs)
    ensures PairsApart(pairs, |s.stats|) <==> BlockClashFree(s, b)
  {
    if PairsApart(pairs, |s.stats|) { ApartMeansClashFree(s, labels, b, pairs); }
    if BlockClashFree(s, b) { ClashFreeMeansApart(s, labels, b, pairs); }
  }

  lemma ApartMeansClashFree(s: Schedule, labels: seq<Label>, b: int, pairs: seq<(int, int)>)
    requires Distinct(labels) && forall x :: x in labels <==> s.Known(x) && s.block[x] == b
    requires PairsOf(s, labels, pairs) && PairsApart(pairs, |s.stats|)
    ensures BlockClashFree(s, b)
  {
    forall x, y | s.Known(x) && s.Known(y) && s.block[x] == b && s.block[y] == b ensures !s.Clash(x, y) {
      var i :| 0 <= i < |labels| && labels[i] == x;
      var j :| 0 <= j < |labels| && labels[j] == y;
      if i == j {
        assert pairs[i].0 != pairs[i].1;
      } else {
        SpansApart(s, x, y);
        var low, high := if i < j then i else j, if i < j then j else i;
        assert Span(pairs[low].0, pairs[low].1, |s.stats|) !! Span(pairs[high].0, pairs[high].1, |s.stats|);
      }
    }
  }

  lemma ClashFreeMeansApart(s: Schedule, labels: seq<Label>, b: int, pairs: seq<(int, int)>)
    requires Distinct(labels) && forall x :: x in labels <==> s.Known(x) && s.block[x] == b
    requires PairsOf(s, labels, pairs) && BlockClashFree(s, b)
    ensures PairsApart(pairs, |s.stats|)
  {
    forall i, j | 0 <= i < |pairs| && 0 <= j < |pairs|
      ensures pairs[i].0 != pairs[j].1
      ensures i < j ==> Span(pairs[i].0, pairs[i].1, |s.stats|) !! Span(pairs[j].0, pairs[j].1, |s.stats|)
    {
      var x, y := labels[i], labels[j];
      assert x in labels && y in labels;
      assert !s.Clash(x, y);
      if x != y { SpansApart(s, x, y); }
    }
  }

  /** Every transfer but those in `todo` is listed once, under its block. */
  ghost predicate ByBlock(s: Schedule, byBlock: map<int, seq<Label>>, todo: set<Label>) {
    && (forall x :: s.Slot(x) && x !in todo ==> s.block[x] in byBlock)
    && forall b :: b in byBlock ==> ListsBlock(s, byBlock[b], b, todo)
  }

  ghost predicate ListsBlock(s: Schedule, labels: seq<Label>, b: int, todo: set<Label>) {
    Distinct(labels) && forall x :: x in labels <==> InBlock(s, x, b) && x !in todo
  }

  lemma ListsNext(s: Schedule, labels: seq<Label>, b: int, todo: set<Label>, x: Label)
    requires ListsBlock(s, labels, b, todo) && InBlock(s, x, b) && x in todo
    ensures ListsBlock(s, labels + [x], b, todo - {x})
  {
  }

  lemma OthersNext(s: Schedule, byBlock: map<int, seq<Label>>, todo: set<Label>, x: Label)
    requires ByBlock(s, byBlock, todo)
    ensures forall b :: b in byBlock && !InBlock(s, x, b) ==> ListsBlock(s, byBlock[b], b, todo - {x})
  {
    forall b | b in byBlock && !InBlock(s, x, b) ensures ListsBlock(s, byBlock[b], b, todo - {x}) {
      assert ListsBlock(s, byBlock[b], b, todo);
    }
  }

  /** transfers_by_block: the dict and its keys. */
  method TransfersByBlock(s: Schedule) returns (blocks: seq<int>, byBlock: map<int, seq<Label>>)
    ensures (forall b :: b in blocks <==> b in byBlock) && ByBlock(s, byBlock, {})
  {
    var todo := s.compute.Keys;
    blocks, byBlock := [], map[];
    while todo != {}
      invariant todo <= s.compute.Keys && (forall b :: b in blocks <==> b in byBlock) && ByBlock(s, byBlock, todo)
      decreases |todo|
    {
      var x :| x in todo;
      OthersNext(s, byBlock, todo, x);
      if x in s.block {
        var b := s.block[x];
        ListsNext(s, if b in byBlock then byBlock[b] else [], b, todo, x);
        if b !in byBlock { blocks, byBlock := blocks + [b], byBlock[b := []]; }
        byBlock := byBlock[b := byBlock[b] + [x]];
      }
      todo := todo - {x};
    }
  }

  method CheckOverlapConstraint(s: Schedule) returns (ok: bool)
    ensures ok <==> s.OverlapFree()
  {
    hide BlockClashFree, PairsApart, PairsOf;
    var blocks, byBlock := TransfersByBlock(s);
    var violations := 0;
    for i := 0 to |blocks|
      invariant violations >= 0
      invariant violations == 0 <==> forall b :: b in blocks[..i] ==> BlockClashFree(s, b)
    {
      var b := blocks[i];
      assert b in byBlock && ListsBlock(s, byBlock[b], b, {});
      var labels, pairs := KnownPairs(s, byBlock[b]);
      var apart := BlockPairsApart(pairs, |s.stats|);
      PairsApartIsClashFree(s, labels, b, pairs);
      assert blocks[..i + 1] == blocks[..i] + [b];
      if !apart { violations := violations + 1; }
    }
    assert blocks[..|blocks|] == blocks;
    ok := violations == 0;
    BlocksClashFree(s, blocks);
  }

  lemma BlocksClashFree(s: Schedule, blocks: seq<int>)
    requires forall x :: s.Slot(x) ==> s.block[x] in blocks
    ensures s.OverlapFree() <==> forall b :: b in blocks ==> BlockClashFree(s, b)
  {
    if forall b :: b in blocks ==> BlockClashFree(s, b) {
      forall x, y | s.Known(x) && s.Known(y) ensures !s.Clash(x, y) {
        assert BlockClashFree(s, s.block[x]);
      }
    }
  }

  /** The pairs of a block whose two layers have positions; the others are skipped. */
  method KnownPairs(s: Schedule, transfers: seq<Label>) returns (labels: seq<Label>, pairs: seq<(int, int)>)
    requires Distinct(transfers) && forall x :: x in transfers ==> s.Slot(x)
    ensures Distinct(labels) && forall x :: x in labels <==> x in transfers && s.Known(x)
    ensures PairsOf(s, labels, pairs)
  {
    labels, pairs := [], [];
    for i := 0 to |transfers|
      invariant Distinct(labels) && forall x :: x in labels <==> x in transfers[..i] && s.Known(x)
      invariant PairsOf(s, labels, pairs)
    {
      var x := transfers[i];
      assert transfers[..i + 1] == transfers[..i] + [x];
      assert x in transfers && x !in transfers[..i];
      if x in s.stats && s.compute[x] in s.stats {
        labels, pairs := labels + [x], pairs + [(s.Pos(x), s.To(x))];
      }
    }
    assert transfers[..|transfers|] == transfers;
  }

  /** transfer_by_order: the transfers that have a block, in dict order. */
  function WithBlock(keys: seq<Label>, block: map<Label, int>): (r: seq<Label>)
    ensures forall x :: x in r <==> x in keys && x in block
    ensures Distinct(keys) ==> Distinct(r)
  {
    if keys == [] then []
    else
      var last := |keys| - 1;
      assert keys == keys[..last] + [keys[last]];
      WithBlock(keys[..last], block) + if keys[last] in block then [keys[last]] else []
  }

  ghost function Rearranged(s: Schedule, keys: seq<Label>, gap: int): Outcome
    requires s.WellPlaced() && KeysOf(keys, s.compute)
  {
    if s.compute == map[] || s.block == map[] || s.stats == [] then Done(s, [])
    else
      var order := WithBlock(keys, s.block);
      if Run(s, order, gap).OverlapFree() then Done(Run(s, order, gap), Moves(s, order, gap))
      else OverlapConstraintViolated
  }

  method LargestGapSlot(slots: set<int>, c: int, n: int) returns (slot: int)
    requires 0 <= c < n && (exists i :: i in slots) && forall i :: i in slots ==> 0 <= i < n
    ensures IsBest(slots, c, n, slot)
  {
    var largestGap := -1;
    slot := -1;
    for i := 0 to n
      invariant largestGap == -1 ==> forall j :: j in slots ==> j >= i
      invariant largestGap != -1 ==> slot in slots && largestGap == Gap(slot, c, n)
      invariant forall j :: j in slots && j < i ==> Gap(j, c, n) <= largestGap
    {
      if i in slots && Gap(i, c, n) > largestGap { slot, largestGap := i, Gap(i, c, n); }
    }
  }

  /** The free slots from which x's copy may be issued, and its own. */
  method LocalSlots(s: Schedule, x: Label, gap: int) returns (slots: set<int>)
    requires s.WellPlaced() && s.Slot(x)
    ensures slots == Candidates(s, x, gap)
  {
    var prev, _ := FindPreviousComputePosition(s, x);
    var free := FreeSlots(s);
    var higher, n := s.To(x), |s.stats|;
    if prev == -1 {
      slots := free * IntRange(0, higher);
    } else {
      var lower := prev + gap;
      if higher < lower {
        slots := free * (IntRange(0, higher) + IntRange(lower, n));
      } else {
        slots := free * IntRange(lower, higher);
      }
    }
    slots := slots + {s.Pos(x)};
  }

  /** One turn of the loop. */
  method MoveTransfer(s: Schedule, x: Label, gap: int) returns (z: Label, t: Schedule)
    requires s.WellPlaced() && s.Slot(x)
    ensures z == NewLabel(s, x, gap) && t == Step(s, x, gap)
  {
    var slots := LocalSlots(s, x, gap);
    assert s.Pos(x) in slots;
    var slot := LargestGapSlot(slots, s.To(x), |s.stats|);
    var best := Best(s, x, gap);
    assert Gap(best, s.To(x), |s.stats|) == Gap(slot, s.To(x), |s.stats|);
    z := s.stats[slot];
    t := s.(compute := (s.compute - {x})[z := s.compute[x]], block := (s.block - {x})[z := s.block[x]]);
  }

  /** t and remap are what the loop holds after i transfers of `order`. */
  ghost predicate Reached(s: Schedule, order: seq<Label>, gap: int, i: nat, t: Schedule, remap: seq<(Label, Label)>) {
    Pending(s, order) && i <= |order| && Pending(t, order[i..]) &&
    Run(s, order, gap) == Run(t, order[i..], gap) && Moves(s, order, gap) == remap + Moves(t, order[i..], gap)
  }

  lemma ReachedNext(s: Schedule, order: seq<Label>, gap: int, i: nat,
                    t: Schedule, remap: seq<(Label, Label)>, t': Schedule, z: Label)
    requires i < |order| && Reached(s, order, gap, i, t, remap)
    requires t' == Step(t, order[i], gap) && z == NewLabel(t, order[i], gap)
    ensures Reached(s, order, gap, i + 1, t', remap + [(order[i], z)])
  {
    var rest, next := order[i..], order[i + 1..];
    assert rest[1..] == next && rest[0] == order[i];
    RunUnfolds(t, t', z, rest, gap);
    AppendsOne(remap, (order[i], z), Moves(t', next, gap));
  }

  lemma AppendsOne<T>(front: seq<T>, x: T, back: seq<T>)
    ensures front + ([x] + back) == front + [x] + back
  {
  }

  /** The loop over every transfer that has a block. */
  method MoveTransfers(s: Schedule, order: seq<Label>, gap: int) returns (t: Schedule, remap: seq<(Label, Label)>)
    requires Pending(s, order)
    ensures t == Run(s, order, gap) && remap == Moves(s, order, gap)
  {
    t, remap := s, [];
    assert order[0..] == order;
    for i := 0 to |order|
      invariant Reached(s, order, gap, i, t, remap)
    {
      var z, t' := MoveTransfer(t, order[i], gap);
      ReachedNext(s, order, gap, i, t, remap, t', z);
      t, remap := t', remap + [(order[i], z)];
    }
  }

  lemma RunUnfolds(s: Schedule, t: Schedule, z: Label, order: seq<Label>, gap: int)
    requires order != [] && Pending(s, order)
    requires t == Step(s, order[0], gap) && z == NewLabel(s, order[0], gap)
    ensures Pending(t, order[1..])
    ensures Run(s, order, gap) == Run(t, order[1..], gap)
    ensures Moves(s, order, gap) == [(order[0], z)] + Moves(t, order[1..], gap)
  {
    StepKeepsPending(s, order, gap);
  }

  method RearrangeTransfers(s: Schedule, keys: seq<Label>, gap: int) returns (r: Outcome)
    requires s.WellPlaced() && KeysOf(keys, s.compute)
    ensures r == Rearranged(s, keys, gap)
  {
    if s.compute == map[] || s.block == map[] || s.stats == [] { return Done(s, []); }
    var order := WithBlock(keys, s.block);
    var t, remap := MoveTransfers(s, order, gap);
    RunKeepsPlaced(s, order, gap);
    var transferOk, raised := CheckTransferConstraint(t);
    assert !raised;
    var overlapOk := CheckOverlapConstraint(t);
    if !transferOk { return TransferConstraintViolated; }
    if !overlapOk { return OverlapConstraintViolated; }
    r := Done(t, remap);
  }

  lemma {:induction false} RunKeepsPlaced(s: Schedule, order: seq<Label>, gap: int)
    requires Pending(s, order)
    ensures Run(s, order, gap).WellPlaced() && Run(s, order, gap).stats == s.stats
    decreases |order|
  {
    if order != [] {
      StepKeepsPending(s, order, gap);
      RunKeepsPlaced(Step(s, order[0], gap), order[1..], gap);
    }
  }

  /** The wrap-around transfers: copied in after their compute has run. */
  method FindTransfersForPreload(s: Schedule) returns (preload: map<Label, Label>)
    ensures forall x :: x in preload <==>
              x in s.compute && x in s.stats && s.compute[x] in s.stats && s.To(x) < s.Pos(x)
    ensures forall x :: x in preload ==> preload[x] == s.compute[x]
  {
    var todo := s.compute.Keys;
    preload := map[];
    while todo != {}
      invariant todo <= s.compute.Keys
      invariant forall x :: x in preload <==>
                  x in s.compute && x !in todo && x in s.stats && s.compute[x] in s.stats && s.To(x) < s.Pos(x)
      invariant forall x :: x in preload ==> preload[x] == s.compute[x]
      decreases |todo|
    {
      var x :| x in todo;
      todo := todo - {x};
      if x in s.stats && s.compute[x] in s.stats && s.To(x) < s.Pos(x) {
        preload := preload[x := s.compute[x]];
      }
    }
  }
}
