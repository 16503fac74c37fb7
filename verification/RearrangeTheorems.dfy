/** What rearrangement promises: when it raises, what it conserves, and that the tensor lists
  and block sizes that go with the schedule stay right. */
module RearrangeTheorems {
  import opened Timeline
  import opened Rearrange
  import opened StrategyOperations
  import opened StrategyRemap

  const DEFAULT_GAP := 1

  /** On an overlap-free schedule, for any minimum gap, the call succeeds exactly when it
      returns early or no turn's window reaches back to its block's previous compute. */
  lemma RaisesExactlyWhenUnsafe(s: Schedule, keys: seq<Label>, gap: int)
    requires s.WellPlaced() && KeysOf(keys, s.compute) && s.OverlapFree()
    ensures Rearranged(s, keys, gap).Done? <==>
              s.compute == map[] || s.block == map[] || s.stats == [] || AllSafe(s, WithBlock(keys, s.block), gap)
    ensures Rearranged(s, keys, gap).Done? ==> Rearranged(s, keys, gap).schedule.OverlapFree()
  {
    OverlapFreeIsClear(s);
    RunOverlapFreeIff(s, WithBlock(keys, s.block), gap);
  }

  /** The default gap, and a gap of 2, never raise. */
  lemma SmallGapNeverRaises(s: Schedule, keys: seq<Label>, gap: int)
    requires s.WellPlaced() && KeysOf(keys, s.compute) && s.OverlapFree() && DEFAULT_GAP <= gap <= 2
    ensures Rearranged(s, keys, gap).Done? && Rearranged(s, keys, gap).schedule.OverlapFree()
  {
    RaisesExactlyWhenUnsafe(s, keys, gap);
    OverlapFreeIsClear(s);
    SmallGapAlwaysSafe(s, WithBlock(keys, s.block), gap);
  }

  /** Two transfers of one block, l[0] for l[1] and then l[2] for l[3]. */
  function TwoTransfers(l: seq<Label>): Schedule
    requires |l| == 4
  {
    Schedule(l, map[l[0] := l[1], l[2] := l[3]], map[l[0] := 0, l[2] := 0])
  }

  lemma TwoTransfersOverlapFree(l: seq<Label>)
    requires |l| == 4 && Distinct(l)
    ensures var s := TwoTransfers(l); s.WellPlaced() && s.OverlapFree() && forall i :: 0 <= i < 4 ==> s.Pos(l[i]) == i
  {
    OverlapFreeIsClear(TwoTransfers(l));
  }

  /** The first transfer has no earlier slot. */
  lemma FirstStays(l: seq<Label>, gap: int)
    requires |l| == 4 && Distinct(l)
    ensures TwoTransfers(l).WellPlaced() && Step(TwoTransfers(l), l[0], gap) == TwoTransfers(l)
  {
    var s := TwoTransfers(l);
    TwoTransfersOverlapFree(l);
    assert s.Known(l[0]) && s.Pos(l[0]) == 0 && s.To(l[0]) == 1;
    assert Best(s, l[0], gap) in Candidates(s, l[0], gap);
    assert Gap(0, 1, 4) <= Gap(Best(s, l[0], gap), 1, 4);
    assert Previous(s, l[0]) == -1;
    assert NewLabel(s, l[0], gap) == l[0];
  }

  /** The second may be moved onto the first one's compute. */
  lemma SecondReachesBack(l: seq<Label>, gap: int)
    requires |l| == 4 && Distinct(l) && (gap < 1 || gap > 2)
    ensures TwoTransfers(l).Known(l[2]) && !Safe(TwoTransfers(l), l[2], gap)
  {
    var s := TwoTransfers(l);
    TwoTransfersOverlapFree(l);
    assert s.Known(l[0]) && s.Known(l[2]) && s.Pos(l[2]) == 2 && s.To(l[2]) == 3 && s.To(l[0]) == 1;
    assert BlockComputes(s, 0) == {1, 3};
    assert Previous(s, l[2]) == 1;
    assert 1 in FreeSlots(s);
    assert 1 in Candidates(s, l[2], gap);
  }

  lemma UnsafeSecondTurn(s: Schedule, order: seq<Label>, gap: int)
    requires |order| > 1 && Pending(s, order) && Step(s, order[0], gap) == s && !Safe(s, order[1], gap)
    ensures !AllSafe(s, order, gap)
  {
    StepKeepsPending(s, order, gap);
    assert order[1..][0] == order[1];
  }

  lemma TwoTransfersOrder(l: seq<Label>)
    requires |l| == 4 && Distinct(l)
    ensures var s := TwoTransfers(l);
            KeysOf([l[0], l[2]], s.compute) && WithBlock([l[0], l[2]], s.block) == [l[0], l[2]]
  {
    var s, keys := TwoTransfers(l), [l[0], l[2]];
    assert keys[..1] == [l[0]] && keys[..1][..0] == [];
    assert WithBlock(keys[..1], s.block) == [l[0]];
  }

  /** Every other gap rejects this overlap-free schedule. */
  lemma OtherGapsRaise(l: seq<Label>, gap: int)
    requires |l| == 4 && Distinct(l) && (gap < 1 || gap > 2)
    ensures var s := TwoTransfers(l);
            s.WellPlaced() && KeysOf([l[0], l[2]], s.compute) && s.OverlapFree() &&
            !Rearranged(s, [l[0], l[2]], gap).Done?
  {
    var s, keys := TwoTransfers(l), [l[0], l[2]];
    TwoTransfersOverlapFree(l);
    TwoTransfersOrder(l);
    FirstStays(l, gap);
    SecondReachesBack(l, gap);
    UnsafeSecondTurn(s, keys, gap);
    assert l[0] in s.compute && l[0] in s.block;
    RaisesExactlyWhenUnsafe(s, keys, gap);
  }

  ghost predicate GapNeverRaises(gap: int) {
    forall s: Schedule, keys: seq<Label> ::
      s.WellPlaced() && KeysOf(keys, s.compute) && s.OverlapFree() ==> Rearranged(s, keys, gap).Done?
  }

  /** The gaps for which no overlap-free schedule is ever rejected. */
  lemma GapNeverRaisesIff(gap: int)
    ensures GapNeverRaises(gap) <==> 1 <= gap <= 2
  {
    if 1 <= gap <= 2 {
      forall s: Schedule, keys: seq<Label> | s.WellPlaced() && KeysOf(keys, s.compute) && s.OverlapFree()
        ensures Rearranged(s, keys, gap).Done?
      {
        SmallGapNeverRaises(s, keys, gap);
      }
    } else {
      var l := ["a", "b", "c", "d"];
      assert l[0][0] == 'a' && l[1][0] == 'b' && l[2][0] == 'c' && l[3][0] == 'd';
      OtherGapsRaise(l, gap);
    }
  }

  // ---------------------------------------------------------------------------
  // Conservation
  // ---------------------------------------------------------------------------

  /** The transfer at x is found again at z: same compute, same block, no shorter a gap. */
  ghost predicate Carried(s: Schedule, t: Schedule, x: Label, z: Label)
    requires s.WellPlaced() && t.WellPlaced() && x in s.compute
  {
    && z in t.compute && t.compute[z] == s.compute[x]
    && (s.Slot(x) <==> t.Slot(z))
    && (s.Slot(x) ==> t.block[z] == s.block[x] &&
                      Gap(t.Pos(z), t.To(z), |t.stats|) >= Gap(s.Pos(x), s.To(x), |s.stats|))
  }

  ghost predicate NoNewBlocks(s: Schedule, t: Schedule) {
    forall z :: z in t.block ==> z in t.compute || (z in s.block && z !in s.compute)
  }

  /** The transfers of t are those of s, one for one: `from` lists those of s, each once, and
      `to` lists those of t, each once, in the same order. */
  ghost predicate Relabels(s: Schedule, t: Schedule, from: seq<Label>, to: seq<Label>) {
    && t.stats == s.stats && s.WellPlaced() && t.WellPlaced() && NoNewBlocks(s, t)
    && KeysOf(from, s.compute) && KeysOf(to, t.compute) && |from| == |to|
    && forall i :: 0 <= i < |from| ==> Carried(s, t, from[i], to[i])
  }

  function Renamed(labels: seq<Label>, x: Label, z: Label): (r: seq<Label>)
    ensures |r| == |labels| && forall i :: 0 <= i < |r| ==> r[i] == if labels[i] == x then z else labels[i]
  {
    seq(|labels|, i requires 0 <= i < |labels| => if labels[i] == x then z else labels[i])
  }

  lemma RenamedKeys<V>(m: map<Label, V>, m': map<Label, V>, labels: seq<Label>, x: Label, z: Label)
    requires KeysOf(labels, m) && x in m && (z == x || z !in m) && m'.Keys == m.Keys - {x} + {z}
    ensures KeysOf(Renamed(labels, x, z), m')
  {
    var r := Renamed(labels, x, z);
    forall l ensures l in r <==> l in m' {
      if l in r {
        var i :| 0 <= i < |r| && r[i] == l;
        assert labels[i] in labels;
      }
      if l in m' {
        var i :| 0 <= i < |labels| && labels[i] == if l == z then x else l;
        assert r[i] == l;
      }
    }
    forall i, j | 0 <= i < j < |r| ensures r[i] != r[j] {
      assert labels[i] in labels && labels[j] in labels;
    }
  }

  lemma MoveCarries(s: Schedule, t: Schedule, x: Label, z: Label, y: Label)
    requires MovedTo(s, t, x, z) && s.WellPlaced() && t.WellPlaced() && s.Slot(x) && y in s.compute
    requires Gap(s.Pos(z), s.To(x), |s.stats|) >= Gap(s.Pos(x), s.To(x), |s.stats|)
    ensures Carried(s, t, y, if y == x then z else y)
  {
  }

  lemma StepRelabels(s: Schedule, x: Label, gap: int, from: seq<Label>)
    requires s.Known(x) && s.WellPlaced() && KeysOf(from, s.compute)
    ensures Relabels(s, Step(s, x, gap), from, Renamed(from, x, NewLabel(s, x, gap)))
  {
    var t, z := Step(s, x, gap), NewLabel(s, x, gap);
    StepMoves(s, x, gap);
    StepKeepsPending(s, [x], gap);
    assert s.Pos(x) in Candidates(s, x, gap);
    RenamedKeys(s.compute, t.compute, from, x, z);
    forall i | 0 <= i < |from| ensures Carried(s, t, from[i], Renamed(from, x, z)[i]) {
      assert from[i] in from;
      MoveCarries(s, t, x, z, from[i]);
    }
  }

  lemma CarriedCompose(s: Schedule, t: Schedule, f: Schedule, x: Label, y: Label, z: Label)
    requires s.WellPlaced() && t.WellPlaced() && f.WellPlaced() && x in s.compute
    requires t.stats == s.stats && f.stats == s.stats
    requires Carried(s, t, x, y) && Carried(t, f, y, z)
    ensures Carried(s, f, x, z)
  {
  }

  lemma RelabelsCompose(s: Schedule, t: Schedule, f: Schedule, from: seq<Label>, mid: seq<Label>, to: seq<Label>)
    requires Relabels(s, t, from, mid) && Relabels(t, f, mid, to)
    ensures Relabels(s, f, from, to)
  {
    forall i | 0 <= i < |from| ensures Carried(s, f, from[i], to[i]) {
      assert from[i] in from;
      CarriedCompose(s, t, f, from[i], mid[i], to[i]);
    }
  }

  function Dests(moves: seq<(Label, Label)>, from: seq<Label>): (r: seq<Label>)
    ensures |r| == |from| && forall i :: 0 <= i < |r| ==> r[i] == Dest(moves, from[i])
  {
    seq(|from|, i requires 0 <= i < |from| => Dest(moves, from[i]))
  }

  /** For every gap and every schedule, overlap-free or not, the loop only relabels, and
      remapped_layers says how. */
  lemma {:induction false} RunRelabels(s: Schedule, order: seq<Label>, gap: int, from: seq<Label>)
    requires Pending(s, order) && KeysOf(from, s.compute)
    ensures Relabels(s, Run(s, order, gap), from, Dests(Moves(s, order, gap), from))
    decreases |order|
  {
    if order == [] {
      NothingMoves(s, from);
    } else {
      var t, z, rest := Step(s, order[0], gap), NewLabel(s, order[0], gap), order[1..];
      RunUnfolds(s, t, z, order, gap);
      StepRelabels(s, order[0], gap, from);
      var mid := Renamed(from, order[0], z);
      RunRelabels(t, rest, gap, mid);
      DestsAfterStep(s, order, gap, Moves(t, rest, gap), from);
      RelabelsCompose(s, t, Run(t, rest, gap), from, mid, Dests(Moves(t, rest, gap), mid));
    }
  }

  lemma NothingMoves(s: Schedule, from: seq<Label>)
    requires s.WellPlaced() && KeysOf(from, s.compute)
    ensures Relabels(s, s, from, Dests([], from))
  {
    assert Dests([], from) == from;
    assert forall i :: 0 <= i < |from| ==> from[i] in from;
  }

  lemma DestsAfterStep(s: Schedule, order: seq<Label>, gap: int, rest: seq<(Label, Label)>, from: seq<Label>)
    requires order != [] && Pending(s, order)
    requires forall i :: 0 <= i < |rest| ==> rest[i].0 in order[1..]
    ensures var z := NewLabel(s, order[0], gap);
            Dests([(order[0], z)] + rest, from) == Dests(rest, Renamed(from, order[0], z))
  {
    var x, z := order[0], NewLabel(s, order[0], gap);
    StepMoves(s, x, gap);
    MoveKeepsPending(s, Step(s, x, gap), order, z);
    hide Step, NewLabel;
    NotASourceStays(rest, z);
    assert ([(x, z)] + rest)[1..] == rest;
  }

  /** Targets are used once, and a transfer's slot only after that transfer has moved. */
  lemma {:induction false} RunReusesAfterMove(s: Schedule, order: seq<Label>, gap: int)
    requires Pending(s, order)
    ensures ReusedAfterMove(s.compute.Keys, Moves(s, order, gap))
    decreases |order|
  {
    if order != [] {
      var t, z := Step(s, order[0], gap), NewLabel(s, order[0], gap);
      RunUnfolds(s, t, z, order, gap);
      RunReusesAfterMove(t, order[1..], gap);
      StepThenReuse(s, order, gap, Moves(t, order[1..], gap));
    }
  }

  lemma StepThenReuse(s: Schedule, order: seq<Label>, gap: int, rest: seq<(Label, Label)>)
    requires order != [] && Pending(s, order)
    requires ReusedAfterMove(Step(s, order[0], gap).compute.Keys, rest)
    requires forall i :: 0 <= i < |rest| ==> rest[i].0 in order[1..]
    ensures ReusedAfterMove(s.compute.Keys, [(order[0], NewLabel(s, order[0], gap))] + rest)
  {
    StepMoves(s, order[0], gap);
    StepKeepsPending(s, order, gap);
    ReuseAfterFirst(s, Step(s, order[0], gap), order[0], NewLabel(s, order[0], gap), rest);
  }

  lemma ReuseAfterFirst(s: Schedule, t: Schedule, x: Label, z: Label, rest: seq<(Label, Label)>)
    requires MovedTo(s, t, x, z) && ReusedAfterMove(t.compute.Keys, rest)
    requires forall i :: 0 <= i < |rest| ==> rest[i].0 in t.compute
    ensures ReusedAfterMove(s.compute.Keys, [(x, z)] + rest)
  {
    var moves := [(x, z)] + rest;
    forall i | 0 <= i < |moves| && moves[i].0 in s.compute && moves[i].1 in s.compute
      ensures exists j :: 0 <= j <= i && moves[j].0 == moves[i].1
    {
      if moves[i].1 == x {
        assert moves[0].0 == moves[i].1;
      } else if i > 0 {
        assert moves[i] == rest[i - 1];
        var j :| 0 <= j <= i - 1 && rest[j].0 == rest[i - 1].1;
        assert moves[j + 1].0 == moves[i].1;
      }
    }
  }

  /** What becomes of a table of lists in which some labels are transfers: each transfer's list
      is under its new slot, and any other label keeps its list unless a transfer's list came
      there. */
  ghost predicate Followed<V>(lists: map<Label, V>, transfers: set<Label>, moves: seq<(Label, Label)>, r: map<Label, V>) {
    && (forall x :: x in lists && x in transfers ==> Dest(moves, x) in r && r[Dest(moves, x)] == lists[x])
    && (forall z :: z in lists && z !in transfers ==> z in r && (r[z] == lists[z] || LandsOn(lists, transfers, moves, z)))
    && (forall z :: z in r ==> (z in lists && z !in transfers) || LandsOn(lists, transfers, moves, z))
  }

  ghost predicate LandsOn<V>(lists: map<Label, V>, transfers: set<Label>, moves: seq<(Label, Label)>, z: Label) {
    exists x :: x in lists && x in transfers && Dest(moves, x) == z
  }

  /** remap_strategy, given the remap of any rearrangement and any table of lists, keeps every
      transfer's list. */
  lemma RearrangedListsFollow<V>(s: Schedule, order: seq<Label>, gap: int, from: seq<Label>, lists: map<Label, V>)
    requires Pending(s, order) && KeysOf(from, s.compute)
    ensures IsDict(Moves(s, order, gap))
    ensures Followed(lists, s.compute.Keys, Moves(s, order, gap), RemapUpTo(lists, Moves(s, order, gap), |order|))
  {
    var moves, moving := Moves(s, order, gap), Within(lists, s.compute.Keys);
    TransferListsFollow(s, order, gap, from, moving);
    assert forall i :: 0 <= i < |moves| ==> moves[i].0 == order[i] && order[i] in order;
    RemapWithin(lists, moves, s.compute.Keys, |order|);
    MovedFollow(lists, s.compute.Keys, moves, RemapUpTo(moving, moves, |order|));
  }

  lemma MovedFollow<V>(lists: map<Label, V>, transfers: set<Label>, moves: seq<(Label, Label)>, moved: map<Label, V>)
    requires Lossless(Within(lists, transfers), moves, moved)
    ensures Followed(lists, transfers, moves, (lists - transfers) + moved)
  {
    forall z | z in moved ensures LandsOn(lists, transfers, moves, z) {
      var x :| x in Within(lists, transfers) && Dest(moves, x) == z;
    }
    forall x | x in lists && x in transfers ensures Dest(moves, x) in moved && moved[Dest(moves, x)] == lists[x] {
      assert x in Within(lists, transfers);
    }
  }

  /** A list under a label that is no transfer stays exactly when no transfer's list comes there. */
  lemma OtherListStaysIff<V>(s: Schedule, order: seq<Label>, gap: int, from: seq<Label>, lists: map<Label, V>, z: Label)
    requires Pending(s, order) && KeysOf(from, s.compute) && z in lists && z !in s.compute
    requires forall x :: x in lists && x in s.compute ==> lists[x] != lists[z]
    ensures var r := RemapUpTo(lists, Moves(s, order, gap), |order|);
            z in r && (r[z] == lists[z] <==> !LandsOn(lists, s.compute.Keys, Moves(s, order, gap), z))
  {
    RearrangedListsFollow(s, order, gap, from, lists);
  }

  /** Layers without a transfer hold no tensors to load: then no list with tensors is lost, and
      there is none but the old ones. */
  lemma NoTensorLost<T>(s: Schedule, order: seq<Label>, gap: int, from: seq<Label>, lists: map<Label, seq<T>>)
    requires Pending(s, order) && KeysOf(from, s.compute)
    requires forall z :: z in lists && z !in s.compute ==> lists[z] == []
    ensures var moves, r := Moves(s, order, gap), RemapUpTo(lists, Moves(s, order, gap), |order|);
            && (forall x :: x in lists && lists[x] != [] ==> Dest(moves, x) in r && r[Dest(moves, x)] == lists[x])
            && (forall z :: z in r && r[z] != [] ==> exists x :: x in lists && Dest(moves, x) == z && lists[x] == r[z])
  {
    RearrangedListsFollow(s, order, gap, from, lists);
    var moves, r := Moves(s, order, gap), RemapUpTo(lists, Moves(s, order, gap), |order|);
    forall z | z in r && r[z] != [] ensures exists x :: x in lists && Dest(moves, x) == z && lists[x] == r[z] {
      assert LandsOn(lists, s.compute.Keys, moves, z);
      var x :| x in lists && x in s.compute.Keys && Dest(moves, x) == z;
    }
  }

  lemma TransferListsFollow<V>(s: Schedule, order: seq<Label>, gap: int, from: seq<Label>, lists: map<Label, V>)
    requires Pending(s, order) && KeysOf(from, s.compute) && lists.Keys <= s.compute.Keys
    ensures IsDict(Moves(s, order, gap))
    ensures Lossless(lists, Moves(s, order, gap), RemapUpTo(lists, Moves(s, order, gap), |order|))
  {
    RunRelabels(s, order, gap, from);
    RunReusesAfterMove(s, order, gap);
    var moves := Moves(s, order, gap);
    assert forall i :: 0 <= i < |moves| ==> moves[i].0 == order[i] && order[i] in order;
    TargetsUsedOnce(moves, from);
    LosslessWhenReusedAfterMove(lists, moves);
  }

  lemma TargetsUsedOnce(moves: seq<(Label, Label)>, from: seq<Label>)
    requires IsDict(moves) && Distinct(Dests(moves, from)) && forall i :: 0 <= i < |moves| ==> moves[i].0 in from
    ensures forall i, j :: 0 <= i < j < |moves| ==> moves[i].1 != moves[j].1
  {
    forall i, j | 0 <= i < j < |moves| ensures moves[i].1 != moves[j].1 {
      DestOfSource(moves, i);
      DestOfSource(moves, j);
      var a :| 0 <= a < |from| && from[a] == moves[i].0;
      var b :| 0 <= b < |from| && from[b] == moves[j].0;
      assert Dests(moves, from)[a] == moves[i].1 && Dests(moves, from)[b] == moves[j].1;
    }
  }

  /** The size of the largest listed label of block b, or -1 for a block without labels. */
  function LargestIn(labels: seq<Label>, block: map<Label, int>, sizes: map<Label, nat>, b: int): (v: int)
    ensures forall i :: 0 <= i < |labels| && labels[i] in block && block[labels[i]] == b && labels[i] in sizes ==> sizes[labels[i]] <= v
    ensures v == -1 || exists i :: 0 <= i < |labels| && labels[i] in block && block[labels[i]] == b && labels[i] in sizes && sizes[labels[i]] == v
  {
    if labels == [] then -1
    else
      var last := |labels| - 1;
      var v, l := LargestIn(labels[..last], block, sizes, b), labels[last];
      if l in block && block[l] == b && l in sizes && sizes[l] > v then sizes[l] else v
  }

  /** After rearranging and remapping, the labels still are those with a block and a list,
      and no block's largest label changes size: the untouched block_sizes stay exact. */
  lemma BlockSizesStayExact(s: Schedule, order: seq<Label>, gap: int, from: seq<Label>, sizes: map<Label, nat>, b: int)
    requires Pending(s, order) && KeysOf(from, s.compute) && s.compute.Keys == s.block.Keys == sizes.Keys
    ensures var t, after := Run(s, order, gap), RemapUpTo(sizes, Moves(s, order, gap), |order|);
            var to := Dests(Moves(s, order, gap), from);
            && KeysOf(to, t.compute) && t.compute.Keys == t.block.Keys
            && LargestIn(to, t.block, after, b) == LargestIn(from, s.block, sizes, b)
  {
    var t, moves, after := Run(s, order, gap), Moves(s, order, gap), RemapUpTo(sizes, Moves(s, order, gap), |order|);
    RunRelabels(s, order, gap, from);
    TransferListsFollow(s, order, gap, from, sizes);
    RelabelsKeepSizes(s, t, moves, from, sizes, after, b);
  }

  lemma RelabelsKeepSizes(s: Schedule, t: Schedule, moves: seq<(Label, Label)>, from: seq<Label>,
                          sizes: map<Label, nat>, after: map<Label, nat>, b: int)
    requires Relabels(s, t, from, Dests(moves, from)) && Lossless(sizes, moves, after)
    requires s.compute.Keys == s.block.Keys == sizes.Keys
    ensures KeysOf(Dests(moves, from), t.compute) && t.compute.Keys == t.block.Keys
    ensures LargestIn(Dests(moves, from), t.block, after, b) == LargestIn(from, s.block, sizes, b)
  {
    KeysStayAligned(s, t, from, Dests(moves, from));
    SizesCarried(s, t, moves, from, sizes, after);
    SameLargest(s, t, from, Dests(moves, from), sizes, after, b);
  }

  lemma SizesCarried(s: Schedule, t: Schedule, moves: seq<(Label, Label)>, from: seq<Label>,
                     sizes: map<Label, nat>, after: map<Label, nat>)
    requires Relabels(s, t, from, Dests(moves, from)) && Lossless(sizes, moves, after)
    requires s.compute.Keys == s.block.Keys == sizes.Keys
    ensures forall i :: 0 <= i < |from| ==> SameSize(s, t, sizes, after, from[i], Dests(moves, from)[i])
  {
    hide Relabels, Lossless, SameSize;
    forall i | 0 <= i < |from| ensures SameSize(s, t, sizes, after, from[i], Dests(moves, from)[i]) {
      SizeCarried(s, t, moves, from, sizes, after, from[i], i);
    }
  }

  lemma SizeCarried(s: Schedule, t: Schedule, moves: seq<(Label, Label)>, from: seq<Label>,
                    sizes: map<Label, nat>, after: map<Label, nat>, x: Label, i: nat)
    requires Relabels(s, t, from, Dests(moves, from)) && Lossless(sizes, moves, after)
    requires s.compute.Keys == s.block.Keys == sizes.Keys && i < |from| && from[i] == x
    ensures SameSize(s, t, sizes, after, x, Dest(moves, x))
  {
    assert Carried(s, t, from[i], Dests(moves, from)[i]);
    hide Relabels, Dests;
    assert x in s.compute.Keys && x in sizes.Keys;
  }

  lemma KeysStayAligned(s: Schedule, t: Schedule, from: seq<Label>, to: seq<Label>)
    requires Relabels(s, t, from, to) && s.compute.Keys == s.block.Keys
    ensures t.compute.Keys == t.block.Keys
  {
    forall z | z in t.compute ensures z in t.block {
      var i :| 0 <= i < |to| && to[i] == z;
      assert from[i] in from && Carried(s, t, from[i], to[i]);
    }
    forall z | z in t.block ensures z in t.compute {
      assert z in s.block.Keys ==> z in s.compute.Keys;
    }
  }

  ghost predicate SameSize(s: Schedule, t: Schedule, sizes: map<Label, nat>, after: map<Label, nat>, x: Label,
                           z: Label) {
    s.Slot(x) && t.Slot(z) && t.block[z] == s.block[x] && x in sizes && z in after && after[z] == sizes[x]
  }

  lemma {:induction false} SameLargest(s: Schedule, t: Schedule, from: seq<Label>, to: seq<Label>,
                                       sizes: map<Label, nat>, after: map<Label, nat>, b: int)
    requires |from| == |to| && forall i :: 0 <= i < |from| ==> SameSize(s, t, sizes, after, from[i], to[i])
    ensures LargestIn(to, t.block, after, b) == LargestIn(from, s.block, sizes, b)
  {
    if from != [] {
      SameLargest(s, t, from[..|from| - 1], to[..|to| - 1], sizes, after, b);
      assert SameSize(s, t, sizes, after, from[|from| - 1], to[|to| - 1]);
    }
  }

  /** At most one transfer of a block wraps around, so preloading never copies over itself. */
  lemma OnePreloadPerBlock(s: Schedule, x: Label, y: Label)
    requires s.WellPlaced() && s.OverlapFree()
    requires s.Slot(x) && s.Slot(y) && s.block[x] == s.block[y] && s.To(x) < s.Pos(x) && s.To(y) < s.Pos(y)
    ensures x == y
  {
    OverlapFreeIsClear(s);
    assert InArc(0, s.Pos(x), s.To(x)) && InArc(0, s.Pos(y), s.To(y));
  }
}
