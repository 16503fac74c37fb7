/** What each turn of the rearranging loop achieves: of the slots it may use, it takes the one that
  gives the copy the longest lead. */
module LongestLead {
  import opened Timeline
  import opened Rearrange

  /** No transfer is issued at position i. */
  ghost predicate IsFree(s: Schedule, i: int) {
    0 <= i < |s.stats| && forall y :: y in s.compute && y in s.stats ==> s.Pos(y) != i
  }

  /** A layer at position q reads x's block before x is copied in. */
  ghost predicate ReadBefore(s: Schedule, x: Label, q: int)
    requires s.Known(x)
  {
    q < s.Pos(x) && exists y :: s.Known(y) && s.block[y] == s.block[x] && s.To(y) == q
  }

  ghost predicate IsLastRead(s: Schedule, x: Label, prev: int)
    requires s.Known(x)
  {
    ReadBefore(s, x, prev) && forall q :: ReadBefore(s, x, q) ==> q <= prev
  }

  ghost predicate NeverReadBefore(s: Schedule, x: Label)
    requires s.Known(x)
  {
    forall q :: !ReadBefore(s, x, q)
  }

  /** The positions open to x's copy: before its compute if the block was not read before, and
      otherwise at least `gap` after the last read and before the compute, on the cycle if the
      compute comes first. */
  ghost predicate IsOpen(s: Schedule, x: Label, gap: int, i: int)
    requires s.Known(x)
  {
    && (NeverReadBefore(s, x) ==> i < s.To(x))
    && forall prev :: IsLastRead(s, x, prev) ==>
         if prev + gap <= s.To(x) then prev + gap <= i < s.To(x) else i < s.To(x) || prev + gap <= i
  }

  ghost predicate Lead(s: Schedule, x: Label, i: int, j: int)
    requires s.Known(x)
  {
    Gap(i, s.To(x), |s.stats|) <= Gap(j, s.To(x), |s.stats|)
  }

  /** z is the label of x's own slot or of an open free one, and no open free slot has a longer lead. */
  ghost predicate TakesLongestLead(s: Schedule, x: Label, gap: int, z: Label)
    requires s.Known(x)
  {
    && z in s.stats && (z == x || (IsFree(s, s.Pos(z)) && IsOpen(s, x, gap, s.Pos(z))))
    && Lead(s, x, s.Pos(x), s.Pos(z))
    && forall i :: IsFree(s, i) && IsOpen(s, x, gap, i) ==> Lead(s, x, i, s.Pos(z))
  }

  // ---------------------------------------------------------------------------
  // One turn
  // ---------------------------------------------------------------------------

  lemma {:induction false} ReadsAreComputes(s: Schedule, x: Label, q: int)
    requires s.WellPlaced() && s.Slot(x)
    ensures ReadBefore(s, x, q) <==> q in BlockComputes(s, s.block[x]) && q < s.Pos(x)
  {
  }

  lemma {:induction false} PreviousIsLastRead(s: Schedule, x: Label)
    requires s.WellPlaced() && s.Slot(x)
    ensures if Previous(s, x) == -1 then NeverReadBefore(s, x) else IsLastRead(s, x, Previous(s, x))
  {
    var prev := Previous(s, x);
    forall q ensures ReadBefore(s, x, q) <==> q in BlockComputes(s, s.block[x]) && q < s.Pos(x) { ReadsAreComputes(s, x, q); }
    forall q | ReadBefore(s, x, q) ensures 0 <= q <= prev {
      var y :| s.Known(y) && s.block[y] == s.block[x] && s.To(y) == q;
    }
  }

  lemma {:induction false} OpenIsInWindow(s: Schedule, x: Label, gap: int, i: int)
    requires s.WellPlaced() && s.Slot(x) && 0 <= i < |s.stats|
    ensures IsOpen(s, x, gap, i) <==> i in Window(Previous(s, x), s.To(x), |s.stats|, gap)
  {
    var prev := Previous(s, x);
    PreviousIsLastRead(s, x);
    if prev != -1 {
      assert forall p :: IsLastRead(s, x, p) ==> p == prev;
    }
  }

  lemma {:induction false} FreeIsFree(s: Schedule, i: int)
    ensures IsFree(s, i) <==> i in FreeSlots(s)
  {
  }

  lemma {:induction false} TurnTakesLongestLead(s: Schedule, x: Label, gap: int)
    requires s.WellPlaced() && s.Slot(x)
    ensures TakesLongestLead(s, x, gap, NewLabel(s, x, gap))
  {
    var z, at := NewLabel(s, x, gap), Best(s, x, gap);
    StepMoves(s, x, gap);
    FreeIsFree(s, at);
    OpenIsInWindow(s, x, gap, at);
    forall i | IsFree(s, i) && IsOpen(s, x, gap, i) ensures Lead(s, x, i, s.Pos(z)) {
      FreeIsFree(s, i);
      OpenIsInWindow(s, x, gap, i);
      assert i in Candidates(s, x, gap);
    }
  }

  // ---------------------------------------------------------------------------
  // Every turn of a run
  // ---------------------------------------------------------------------------

  lemma {:induction false} PrefixPending(s: Schedule, order: seq<Label>, k: nat)
    requires Pending(s, order) && k <= |order|
    ensures Pending(s, order[..k])
  {
    assert forall x :: x in order[..k] ==> x in order;
  }

  lemma {:induction false} RunHead(s: Schedule, order: seq<Label>, gap: int, t: Schedule)
    requires Pending(s, order) && order != [] && t == Step(s, order[0], gap)
    ensures Pending(t, order[1..]) && Run(s, order, gap) == Run(t, order[1..], gap)
    ensures Moves(s, order, gap)[1..] == Moves(t, order[1..], gap)
    ensures Moves(s, order, gap)[0] == (order[0], NewLabel(s, order[0], gap))
  {
    StepKeepsPending(s, order, gap);
  }

  lemma {:induction false} Slices<T>(a: seq<T>, k: nat)
    requires 0 < k <= |a|
    ensures a[..k][0] == a[0] && a[..k][1..] == a[1..][..k - 1] && a[1..][k - 1..] == a[k..]
  {
  }

  /** Running in two parts. */
  lemma {:induction false} RunSplits(s: Schedule, order: seq<Label>, gap: int, k: nat)
    requires Pending(s, order) && k <= |order|
    ensures Pending(s, order[..k]) && Pending(Run(s, order[..k], gap), order[k..])
    ensures Run(s, order, gap) == Run(Run(s, order[..k], gap), order[k..], gap)
    ensures Moves(s, order, gap)[k..] == Moves(Run(s, order[..k], gap), order[k..], gap)
    decreases |order|
  {
    PrefixPending(s, order, k);
    if k == 0 {
      assert order[..0] == [] && order[0..] == order;
      assert Moves(s, order, gap)[0..] == Moves(s, order, gap);
    } else {
      var t := Step(s, order[0], gap);
      hide Run, Moves, Step, Pending;
      Slices(order, k);
      Slices(Moves(s, order, gap), k);
      RunHead(s, order, gap, t);
      RunHead(s, order[..k], gap, t);
      RunSplits(t, order[1..], gap, k - 1);
    }
  }

  /** The k-th turn: only the copy of order[k] moves, and it takes the longest lead it can get. */
  lemma {:induction false} EveryTurnTakesLongestLead(s: Schedule, order: seq<Label>, gap: int, k: nat)
    requires Pending(s, order) && k < |order|
    ensures Pending(s, order[..k]) && Pending(s, order[..k + 1])
    ensures var now, next := Run(s, order[..k], gap), Run(s, order[..k + 1], gap);
            && now.Known(order[k]) && MovedTo(now, next, order[k], Moves(s, order, gap)[k].1)
            && TakesLongestLead(now, order[k], gap, Moves(s, order, gap)[k].1)
  {
    hide Run, Moves, MovedTo, TakesLongestLead, Pending, Step, NewLabel;
    PrefixPending(s, order, k);
    PrefixPending(s, order, k + 1);
    var now, x, rest := Run(s, order[..k], gap), order[k], order[k..];
    RunSplits(s, order, gap, k);
    RunSplits(s, order[..k + 1], gap, k);
    assert rest[0] == x && rest != [] && order[..k + 1][..k] == order[..k] && order[..k + 1][k..] == [x];
    TurnOf(now, rest, gap);
    OneTurn(now, x, gap);
    assert Moves(s, order, gap)[k] == Moves(s, order, gap)[k..][0];
  }

  lemma {:induction false} TurnOf(s: Schedule, order: seq<Label>, gap: int)
    requires Pending(s, order) && order != []
    ensures s.Known(order[0]) && Moves(s, order, gap)[0].1 == NewLabel(s, order[0], gap)
    ensures MovedTo(s, Step(s, order[0], gap), order[0], NewLabel(s, order[0], gap))
    ensures TakesLongestLead(s, order[0], gap, NewLabel(s, order[0], gap))
  {
    StepMoves(s, order[0], gap);
    RunHead(s, order, gap, Step(s, order[0], gap));
    TurnTakesLongestLead(s, order[0], gap);
  }

  lemma {:induction false} OneTurn(s: Schedule, x: Label, gap: int)
    requires Pending(s, [x])
    ensures Run(s, [x], gap) == Step(s, x, gap)
  {
    StepKeepsPending(s, [x], gap);
    assert [x][1..] == [];
  }

  // ---------------------------------------------------------------------------
  // With the default gap nothing better is overlap-free
  // ---------------------------------------------------------------------------

  /** A move that keeps an overlap-free schedule so, when the block was read before, goes to a
      slot that is open with a gap of one layer. */
  lemma {:induction false} OverlapFreeMovesAreOpen(s: Schedule, t: Schedule, x: Label, z: Label)
    requires s.WellPlaced() && s.OverlapFree() && s.Slot(x) && MovedTo(s, t, x, z) && t.OverlapFree()
    requires !NeverReadBefore(s, x) || s.Pos(z) < s.To(x)
    ensures IsOpen(s, x, 1, s.Pos(z))
  {
    forall prev | IsLastRead(s, x, prev)
      ensures if prev + 1 <= s.To(x) then prev + 1 <= s.Pos(z) < s.To(x) else s.Pos(z) < s.To(x) || prev + 1 <= s.Pos(z)
    {
      LastReadIsAvoided(s, t, x, z, prev);
    }
  }

  lemma {:induction false} LastReadIsAvoided(s: Schedule, t: Schedule, x: Label, z: Label, prev: int)
    requires s.WellPlaced() && s.OverlapFree() && s.Slot(x) && MovedTo(s, t, x, z) && t.OverlapFree()
    requires IsLastRead(s, x, prev)
    ensures if prev + 1 <= s.To(x) then prev + 1 <= s.Pos(z) < s.To(x) else s.Pos(z) < s.To(x) || prev + 1 <= s.Pos(z)
  {
    var y :| s.Known(y) && s.block[y] == s.block[x] && s.To(y) == prev;
    assert t.Known(z) && t.To(z) == s.To(x) && t.Pos(z) == s.Pos(z);
    assert !t.Clash(z, z);
    if y != x {
      assert y != z && t.Known(y) && t.To(y) == prev && t.block[y] == t.block[z];
      assert !t.Clash(z, y);
      assert InArc(prev, t.Pos(y), t.To(y));
      assert !InArc(prev, t.Pos(z), t.To(z));
    }
  }

  /** With the default gap, at every turn from an overlap-free schedule: whatever free slot keeps
      the schedule overlap-free has no longer lead than the one taken, except slots after the
      compute for a transfer whose block was not read before it. */
  lemma {:induction false} NothingBetterIsOverlapFree(s: Schedule, order: seq<Label>, k: nat, t: Schedule, z: Label)
    requires Pending(s, order) && s.OverlapFree() && k < |order| && Pending(s, order[..k])
    requires var now := Run(s, order[..k], 1);
             now.Known(order[k]) && MovedTo(now, t, order[k], z) && t.OverlapFree() &&
             (!NeverReadBefore(now, order[k]) || now.Pos(z) < now.To(order[k]))
    ensures var now, taken := Run(s, order[..k], 1), Moves(s, order, 1)[k].1;
            taken in now.stats && Lead(now, order[k], now.Pos(z), now.Pos(taken))
  {
    var now, x := Run(s, order[..k], 1), order[k];
    OverlapFreeIsClear(s);
    SmallGapAlwaysSafe(s, order[..k], 1);
    RunOverlapFreeIff(s, order[..k], 1);
    EveryTurnTakesLongestLead(s, order, 1, k);
    RunSplits(s, order, 1, k);
    OverlapFreeMovesAreOpen(now, t, x, z);
    if z != x { assert IsFree(now, now.Pos(z)) by { OnlyLabelAt(now, z); } }
  }

  lemma {:induction false} OnlyLabelAt(s: Schedule, z: Label)
    requires z in s.stats && z !in s.compute
    ensures IsFree(s, s.Pos(z))
  {
    forall y | y in s.compute && y in s.stats ensures s.Pos(y) != s.Pos(z) {
      assert s.stats[s.Pos(y)] == y && s.stats[s.Pos(z)] == z;
    }
  }
}
