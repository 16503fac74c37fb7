/** Which block each layer goes to: what makes an assignment valid, without reference to how
  one is found. */
module BlockAssignment {
  import opened Arithmetic

  datatype Limit = NoLimit | AtMost(bytes: int)

  predicate WithinLimit(bytes: int, capacity: Limit) {
    capacity.NoLimit? || bytes <= capacity.bytes
  }

  /** Bytes that the assigned layers put into block b. */
  function Load(sizes: seq<nat>, a: seq<nat>, b: nat): nat
    requires |a| <= |sizes|
  {
    if a == [] then 0
    else
      var last := |a| - 1;
      Load(sizes, a[..last], b) + if a[last] == b then sizes[last] else 0
  }

  /** The layers in block b, in order. */
  function Group(layers: seq<string>, a: seq<nat>, b: nat): (r: seq<string>)
    requires |a| <= |layers|
    ensures forall l :: l in r ==> exists i :: 0 <= i < |a| && a[i] == b && layers[i] == l
  {
    if a == [] then []
    else
      var last := |a| - 1;
      Group(layers, a[..last], b) + if a[last] == b then [layers[last]] else []
  }

  /** The first |a| layers go to existing blocks, neighbours to different ones, and no block
      that is used overflows. */
  ghost predicate Allocates(sizes: seq<nat>, a: seq<nat>, k: int, capacity: Limit) {
    && |a| <= |sizes|
    && (forall i :: 0 <= i < |a| ==> a[i] < k)
    && (forall i :: 0 < i < |a| ==> a[i] != a[i - 1])
    && forall i :: 0 <= i < |a| ==> WithinLimit(Load(sizes, a, a[i]), capacity)
  }

  /** An assignment of every layer. */
  ghost predicate AllocatesAll(sizes: seq<nat>, a: seq<nat>, k: int, capacity: Limit) {
    |a| == |sizes| && Allocates(sizes, a, k, capacity)
  }

  ghost predicate Feasible(sizes: seq<nat>, k: int, capacity: Limit) {
    exists a :: AllocatesAll(sizes, a, k, capacity)
  }

  /** Bytes of the first n layers. */
  function TotalOf(sizes: seq<nat>, n: nat): nat
    requires n <= |sizes|
  {
    if n == 0 then 0 else TotalOf(sizes, n - 1) + sizes[n - 1]
  }

  /** Bytes in the first k blocks. */
  function LoadsOf(sizes: seq<nat>, a: seq<nat>, k: nat): nat
    requires |a| <= |sizes|
  {
    if k == 0 then 0 else LoadsOf(sizes, a, k - 1) + Load(sizes, a, k - 1)
  }

  /** What the blocks hold is what the layers need, and a block without layers holds nothing. */
  lemma {:induction false} LoadsAddUp(sizes: seq<nat>, a: seq<nat>, k: nat)
    requires |a| <= |sizes| && forall i :: 0 <= i < |a| ==> a[i] < k
    ensures LoadsOf(sizes, a, k) == TotalOf(sizes, |a|)
    ensures forall b: nat :: b !in a ==> Load(sizes, a, b) == 0
  {
    if a == [] {
      NothingLoaded(sizes, k);
    } else {
      var last := |a| - 1;
      LoadsAddUp(sizes, a[..last], k);
      LoadAdds(sizes, a, k);
      assert a == a[..last] + [a[last]];
    }
  }

  lemma {:induction false} NothingLoaded(sizes: seq<nat>, k: nat)
    ensures LoadsOf(sizes, [], k) == 0
  {
    if k > 0 { NothingLoaded(sizes, k - 1); }
  }

  lemma {:induction false} LoadAdds(sizes: seq<nat>, a: seq<nat>, k: nat)
    requires 0 < |a| <= |sizes|
    ensures LoadsOf(sizes, a, k) == LoadsOf(sizes, a[..|a| - 1], k) + if a[|a| - 1] < k then sizes[|a| - 1] else 0
  {
    if k > 0 { LoadAdds(sizes, a, k - 1); }
  }

  lemma LoadNext(sizes: seq<nat>, a: seq<nat>, b: nat, c: nat)
    requires |a| < |sizes|
    ensures Load(sizes, a + [b], c) == Load(sizes, a, c) + if b == c then sizes[|a|] else 0
  {
    assert (a + [b])[..|a|] == a;
  }

  lemma {:induction false} LoadGrows(sizes: seq<nat>, a: seq<nat>, j: nat, b: nat)
    requires j <= |a| <= |sizes|
    ensures Load(sizes, a[..j], b) <= Load(sizes, a, b)
  {
    if j == |a| {
      assert a[..j] == a;
    } else {
      assert a[..|a| - 1][..j] == a[..j];
      LoadGrows(sizes, a[..|a| - 1], j, b);
    }
  }

  lemma {:induction false} UnusedIsEmpty(sizes: seq<nat>, a: seq<nat>, b: nat)
    requires |a| <= |sizes| && forall i :: 0 <= i < |a| ==> a[i] != b
    ensures Load(sizes, a, b) == 0
  {
    if a != [] { UnusedIsEmpty(sizes, a[..|a| - 1], b); }
  }

  /** What the search tests before it places the next layer in block b. */
  predicate Places(sizes: seq<nat>, a: seq<nat>, capacity: Limit, b: nat)
    requires |a| < |sizes|
  {
    (a != [] ==> a[|a| - 1] != b) && WithinLimit(Load(sizes, a, b) + sizes[|a|], capacity)
  }

  lemma PlacingKeeps(sizes: seq<nat>, a: seq<nat>, k: int, capacity: Limit, b: nat)
    requires Allocates(sizes, a, k, capacity) && |a| < |sizes| && b < k && Places(sizes, a, capacity, b)
    ensures Allocates(sizes, a + [b], k, capacity)
  {
    var next := a + [b];
    forall i | 0 <= i < |next| ensures WithinLimit(Load(sizes, next, next[i]), capacity) {
      LoadNext(sizes, a, b, next[i]);
      if i < |a| { assert next[i] == a[i]; }
    }
    forall i | 0 < i < |next| ensures next[i] != next[i - 1] {
      if i < |a| { assert next[i] == a[i] && next[i - 1] == a[i - 1]; }
    }
  }

  lemma PlacedWasTested(sizes: seq<nat>, a: seq<nat>, k: int, capacity: Limit, b: nat)
    requires |a| < |sizes| && Allocates(sizes, a + [b], k, capacity)
    ensures b < k && Places(sizes, a, capacity, b)
  {
    var next, last := a + [b], |a|;
    assert next[last] == b;
    LoadNext(sizes, a, b, b);
    if a != [] { assert next[last] != next[last - 1]; }
  }

  /** A prefix of a valid assignment is valid: no pruned branch holds one. */
  lemma PrefixAllocates(sizes: seq<nat>, a: seq<nat>, k: int, capacity: Limit, j: nat)
    requires Allocates(sizes, a, k, capacity) && j <= |a|
    ensures Allocates(sizes, a[..j], k, capacity)
  {
    forall i | 0 <= i < j ensures WithinLimit(Load(sizes, a[..j], a[..j][i]), capacity) {
      LoadGrows(sizes, a, j, a[i]);
    }
  }

  /** Feasibility only grows with the number of blocks, which binary search relies on. */
  lemma MoreBlocks(sizes: seq<nat>, k: int, k': int, capacity: Limit)
    requires k <= k' && Feasible(sizes, k, capacity)
    ensures Feasible(sizes, k', capacity)
  {
    var a :| AllocatesAll(sizes, a, k, capacity);
    assert AllocatesAll(sizes, a, k', capacity);
  }

  lemma NeedsABlock(sizes: seq<nat>, k: int, capacity: Limit)
    requires sizes != [] && Feasible(sizes, k, capacity)
    ensures k >= 1
  {
    var a :| AllocatesAll(sizes, a, k, capacity);
    assert a[0] < k;
  }

  /** A layer larger than a block fits in no number of blocks, and otherwise one block a layer is
      enough; a layer may fill its block. */
  lemma FeasibleIffEachFits(sizes: seq<nat>, capacity: Limit)
    ensures Feasible(sizes, |sizes|, capacity) <==>
            forall i :: 0 <= i < |sizes| && capacity.AtMost? ==> sizes[i] <= capacity.bytes
  {
    if Feasible(sizes, |sizes|, capacity) {
      forall i | 0 <= i < |sizes| ensures WithinLimit(sizes[i], capacity) { LayerFits(sizes, |sizes|, capacity, i); }
    }
    if forall i :: 0 <= i < |sizes| ==> WithinLimit(sizes[i], capacity) {
      OwnBlocks(sizes, |sizes|, capacity);
      var own: seq<nat> := seq(|sizes|, i => i);
      assert AllocatesAll(sizes, own, |sizes|, capacity);
    }
  }

  lemma LayerFits(sizes: seq<nat>, k: int, capacity: Limit, i: nat)
    requires Feasible(sizes, k, capacity) && i < |sizes|
    ensures WithinLimit(sizes[i], capacity)
  {
    var a :| AllocatesAll(sizes, a, k, capacity);
    LoadGrows(sizes, a, i + 1, a[i]);
    assert a[..i + 1][..i] == a[..i];
  }

  lemma {:induction false} OwnBlocks(sizes: seq<nat>, n: nat, capacity: Limit)
    requires n <= |sizes| && forall i :: 0 <= i < n ==> WithinLimit(sizes[i], capacity)
    ensures var own: seq<nat> := seq(n, i => i); Allocates(sizes, own, |sizes|, capacity)
  {
    if n > 0 {
      OwnBlocks(sizes, n - 1, capacity);
      var own: seq<nat> := seq(n - 1, i => i);
      UnusedIsEmpty(sizes, own, n - 1);
      PlacingKeeps(sizes, own, |sizes|, capacity, n - 1);
      var next: seq<nat> := seq(n, i => i);
      assert next == own + [n - 1];
    }
  }

  // ---------------------------------------------------------------------------
  // Without sizes: two blocks are enough, and turns keep blocks even
  // ---------------------------------------------------------------------------

  /** Layer i goes to block i mod k. */
  function Turns(n: nat, k: nat): (a: seq<nat>)
    ensures |a| == n && forall i :: 0 <= i < n ==> k > 0 ==> a[i] == i % k
  {
    seq(n, i => if k > 0 && i >= 0 then i % k else 0)
  }

  lemma NextTurn(i: nat, k: nat)
    requires k > 0
    ensures (i + 1) % k == if i % k + 1 == k then 0 else i % k + 1
    ensures (i + 1) / k == if i % k + 1 == k then i / k + 1 else i / k
  {
    var q, r := i / k, i % k;
    assert i == q * k + r;
    if r + 1 == k {
      DivModUnique(i + 1, k, q + 1, 0);
    } else {
      DivModUnique(i + 1, k, q, r + 1);
    }
  }

  lemma TurnsAllocate(sizes: seq<nat>, k: nat)
    requires k >= 2 || (k >= |sizes| && k >= 1)
    ensures AllocatesAll(sizes, Turns(|sizes|, k), k, NoLimit)
  {
    var a := Turns(|sizes|, k);
    forall i | 0 < i < |a| ensures a[i] != a[i - 1] { NextTurn(i - 1, k); }
  }

  /** Blocks filled by turns differ by at most one layer. */
  lemma {:induction false} TurnsAreEven(layers: seq<string>, n: nat, k: nat, b: nat)
    requires n <= |layers| && b < k
    ensures |Group(layers, Turns(n, k), b)| == n / k + if b < n % k then 1 else 0
  {
    if n == 0 {
      assert Turns(0, k) == [];
      DivModUnique(0, k, 0, 0);
    } else {
      TurnsAreEven(layers, n - 1, k, b);
      assert Turns(n, k)[..n - 1] == Turns(n - 1, k);
      NextTurn(n - 1, k);
    }
  }

  /** The chain of n layers needs min(n, 2) colours. */
  lemma ColoursNeeded(sizes: seq<nat>, k: nat)
    ensures Feasible(sizes, k, NoLimit) <==> k >= if |sizes| < 2 then |sizes| else 2
  {
    if k >= if |sizes| < 2 then |sizes| else 2 {
      if sizes == [] {
        assert AllocatesAll(sizes, [], k, NoLimit);
      } else {
        TurnsAllocate(sizes, k);
      }
    }
    if Feasible(sizes, k, NoLimit) {
      var a :| AllocatesAll(sizes, a, k, NoLimit);
      if |sizes| >= 1 { assert a[0] < k; }
      if |sizes| >= 2 { assert a[1] != a[0] && a[1] < k; }
    }
  }
}
