/** The cyclic timeline of layers on which host-to-device copies are scheduled.

  A schedule copies a transfer label's tensors into a GPU block while the layer of
  that label runs, for use by a later layer (possibly of the next forward). */
module Timeline {

  type Label = string

  ghost predicate Distinct<T>(s: seq<T>) {
    forall i, j :: 0 <= i < j < |s| ==> s[i] != s[j]
  }

  /** The last position before k that carries label l. */
  function LastAt(stats: seq<Label>, l: Label, k: nat): (p: nat)
    requires k <= |stats| && l in stats[..k]
    ensures p < k && stats[p] == l
  {
    if stats[k - 1] == l then k - 1 else LastAt(stats, l, k - 1)
  }

  /** `compute` is transfer_to_compute_map and `block` is label_to_block_id. */
  datatype Schedule = Schedule(stats: seq<Label>, compute: map<Label, Label>, block: map<Label, int>) {

    /** get_layer_name_to_position: a repeated label keeps its last position. */
    function Pos(l: Label): (p: int)
      requires l in stats
      ensures 0 <= p < |stats| && stats[p] == l
    {
      assert stats[..|stats|] == stats;
      LastAt(stats, l, |stats|)
    }

    /** A transfer that owns a GPU block. */
    predicate Slot(x: Label) { x in compute && x in block }

    /** Layer labels are unique, and every transfer with a block names known layers. */
    ghost predicate WellPlaced() {
      && Distinct(stats)
      && forall x :: Slot(x) ==> x in stats && compute[x] in stats
    }

    function To(x: Label): int
      requires x in compute && compute[x] in stats
    {
      Pos(compute[x])
    }

    predicate Known(x: Label) { Slot(x) && x in stats && compute[x] in stats }

    /** x is copied in at its own compute layer, or x and y hold one block at one time. */
    ghost predicate Clash(x: Label, y: Label)
      requires Known(x) && Known(y)
    {
      if x == y then Pos(x) == To(x)
      else block[x] == block[y] && exists q :: 0 <= q < |stats| && InArc(q, Pos(x), To(x)) && InArc(q, Pos(y), To(y))
    }

    ghost predicate OverlapFree() {
      forall x, y :: Known(x) && Known(y) ==> !Clash(x, y)
    }
  }

  /** q lies in the span of positions from transfer position t to compute position c, which
      wraps around the end of the timeline when the compute comes first. */
  predicate InArc(q: int, t: int, c: int) {
    if c < t then t <= q || q <= c else t <= q <= c
  }

  /** set(range(lo, hi)) */
  function IntRange(lo: int, hi: int): (r: set<int>)
    ensures forall i :: i in r <==> lo <= i < hi
    decreases hi - lo
  {
    if hi <= lo then {} else {lo} + IntRange(lo + 1, hi)
  }

  /** How many layers a copy issued at `slot` has before compute position c. */
  function Gap(slot: int, c: int, n: int): int {
    if slot < c then c - slot else n - slot + c
  }

  /** Two spans meet exactly when one starts inside the other. */
  lemma ArcsMeet(t1: int, c1: int, t2: int, c2: int, n: int)
    requires 0 <= t1 < n && 0 <= c1 < n && 0 <= t2 < n && 0 <= c2 < n
    ensures (exists q :: 0 <= q < n && InArc(q, t1, c1) && InArc(q, t2, c2)) <==> InArc(t1, t2, c2) || InArc(t2, t1, c1)
  {
    assert InArc(t1, t1, c1) && InArc(t2, t2, c2);
  }

  /** A span is the set of positions no further from the compute than its start. */
  lemma ArcByGap(q: int, t: int, c: int, n: int)
    requires 0 <= q < n && 0 <= t < n && 0 <= c < n && t != c
    ensures InArc(q, t, c) <==> q == c || Gap(q, c, n) <= Gap(t, c, n)
  {
  }
}
