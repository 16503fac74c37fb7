/** Planning memory blocks: colouring a chain of layers under a block capacity. */
module BlockPlanner {
  import opened Timeline
  import opened BlockAssignment

  datatype AllocationResult = Allocated(blocks: seq<seq<string>>) | CannotAllocate

  datatype DistributionResult = Distributed(blocks: map<nat, seq<string>>) | TooFewBlocks | CannotPlace

  datatype MinimumResult = Minimum(count: nat, blocks: seq<seq<string>>) | NoMinimum

  function Remove(s: seq<string>, l: string): seq<string> {
    if s == [] then [] else if s[0] == l then s[1..] else [s[0]] + Remove(s[1..], l)
  }

  lemma {:induction false} RemoveAppended(s: seq<string>, l: string)
    requires l !in s
    ensures Remove(s + [l], l) == s
  {
    if s != [] {
      assert (s + [l])[1..] == s[1..] + [l];
      RemoveAppended(s[1..], l);
    }
  }

  function WithEdge(graph: map<string, set<string>>, l: string, m: string): map<string, set<string>> {
    graph[l := (if l in graph then graph[l] else {}) + {m}]
  }

  function Neighbours(graph: map<string, set<string>>, l: string): set<string> {
    if l in graph then graph[l] else {}
  }

  ghost predicate ChainUpTo(graph: map<string, set<string>>, layers: seq<string>, n: int) {
    forall p, q :: 0 <= p < |layers| && 0 <= q < |layers| ==>
      (layers[q] in Neighbours(graph, layers[p]) <==> (q == p + 1 < n || p == q + 1 < n))
  }

  lemma ChainNext(graph: map<string, set<string>>, layers: seq<string>, n: nat)
    requires Distinct(layers) && 0 < n < |layers| && ChainUpTo(graph, layers, n)
    ensures ChainUpTo(WithEdge(WithEdge(graph, layers[n], layers[n - 1]), layers[n - 1], layers[n]), layers, n + 1)
  {
  }

  method BuildAdjacencyGraph(layers: seq<string>) returns (graph: map<string, set<string>>)
    requires Distinct(layers)
    ensures ChainUpTo(graph, layers, |layers|)
  {
    graph := map[];
    for i := 0 to |layers|
      invariant ChainUpTo(graph, layers, i)
    {
      if i > 0 {
        ChainNext(graph, layers, i);
        graph := WithEdge(WithEdge(graph, layers[i], layers[i - 1]), layers[i - 1], layers[i]);
      }
    }
  }

  /** blocks and blockSizes hold the assignment a of the first |a| layers. */
  ghost predicate Holds(layers: seq<string>, sizes: seq<nat>, a: seq<nat>, blocks: seq<seq<string>>,
                        blockSizes: seq<int>) {
    |a| <= |layers| == |sizes| && |blocks| == |blockSizes| &&
    forall b :: 0 <= b < |blocks| ==> blocks[b] == Group(layers, a, b) && blockSizes[b] == Load(sizes, a, b)
  }

  lemma HoldsNext(layers: seq<string>, sizes: seq<nat>, a: seq<nat>, blocks: seq<seq<string>>, blockSizes: seq<int>,
                  b: nat)
    requires Holds(layers, sizes, a, blocks, blockSizes) && |a| < |layers| && b < |blocks|
    ensures Holds(layers, sizes, a + [b], blocks[b := blocks[b] + [layers[|a|]]], blockSizes[b := blockSizes[b] + sizes[|a|]])
  {
    assert (a + [b])[..|a|] == a;
  }

  /** c completes a. */
  ghost predicate Completes(sizes: seq<nat>, a: seq<nat>, c: seq<nat>, k: int, capacity: Limit) {
    a <= c && AllocatesAll(sizes, c, k, capacity)
  }

  lemma CompletionPlaces(sizes: seq<nat>, a: seq<nat>, c: seq<nat>, k: int, capacity: Limit)
    requires Completes(sizes, a, c, k, capacity) && |a| < |sizes|
    ensures c[|a|] < k && Places(sizes, a, capacity, c[|a|]) && Completes(sizes, a + [c[|a|]], c, k, capacity)
  {
    assert c[..|a| + 1] == a + [c[|a|]];
    PrefixAllocates(sizes, c, k, capacity, |a| + 1);
    PlacedWasTested(sizes, a, k, capacity, c[|a|]);
  }

  lemma CompletesShorter(sizes: seq<nat>, a: seq<nat>, b: nat, c: seq<nat>, k: int, capacity: Limit)
    requires Completes(sizes, a + [b], c, k, capacity)
    ensures Completes(sizes, a, c, k, capacity)
  {
    assert a <= a + [b];
  }

  class MemoryBlockPlanner {
    const layers: seq<string>
    const layerSizes: map<string, nat>
    const adjacency: map<string, set<string>>

    ghost predicate Valid() {
      && Distinct(layers) && (forall l :: l in layers ==> l in layerSizes)
      && ChainUpTo(adjacency, layers, |layers|)
    }

    /** The layers' sizes, by position. */
    ghost function Sizes(): (r: seq<nat>)
      requires Valid()
      ensures |r| == |layers| && forall i :: 0 <= i < |r| ==> layers[i] in layerSizes && r[i] == layerSizes[layers[i]]
    {
      seq(|layers|, i requires 0 <= i < |layers| => layerSizes[layers[i]])
    }

    constructor (layers: seq<string>, layerSizes: map<string, nat>)
      requires Distinct(layers) && forall l :: l in layers <==> l in layerSizes
      ensures Valid() && this.layers == layers && this.layerSizes == layerSizes
    {
      var graph := BuildAdjacencyGraph(layers);
      this.layers := layers;
      this.layerSizes := layerSizes;
      this.adjacency := graph;
    }

    method CanPlaceInBlock(layer: string, size: nat, blockNum: nat, blocks: array<seq<string>>, blockSizes: array<int>,
                           capacity: Limit, ghost a: seq<nat>)
      returns (ok: bool)
      requires Valid() && Holds(layers, Sizes(), a, blocks[..], blockSizes[..]) && |a| < |layers|
      requires blockNum < blocks.Length && layer == layers[|a|] && size == Sizes()[|a|]
      ensures ok <==> Places(Sizes(), a, capacity, blockNum)
    {
      assert blocks[..][blockNum] == Group(layers, a, blockNum) && blockSizes[..][blockNum] == Load(Sizes(), a, blockNum);
      if capacity.AtMost? && blockSizes[blockNum] + size > capacity.bytes { return false; }
      var existing := blocks[blockNum];
      if a != [] && a[|a| - 1] == blockNum { LastIsNeighbour(a, blockNum); }
      for i := 0 to |existing|
        invariant forall k :: 0 <= k < i ==> existing[k] !in Neighbours(adjacency, layer)
      {
        if existing[i] in Neighbours(adjacency, layer) {
          NeighbourIsLast(a, blockNum, existing[i]);
          return false;
        }
      }
      ok := true;
    }

    /** The only neighbour placed so far is the layer before. */
    lemma NeighbourIsLast(a: seq<nat>, b: nat, l: string)
      requires Valid() && |a| < |layers| && l in Group(layers, a, b) && l in Neighbours(adjacency, layers[|a|])
      ensures a != [] && a[|a| - 1] == b
    {
      var i :| 0 <= i < |a| && a[i] == b && layers[i] == l;
    }

    lemma LastIsNeighbour(a: seq<nat>, b: nat)
      requires Valid() && 0 < |a| < |layers| && a[|a| - 1] == b
      ensures var group := Group(layers, a, b); group != [] && group[|group| - 1] in Neighbours(adjacency, layers[|a|])
    {
      var group := Group(layers, a, b);
      assert group[|group| - 1] == layers[|a| - 1];
    }

    /** Places the layers from layerIdx on, or leaves the blocks as they were when no completion exists. */
    method AllocateRecursive(blocks: array<seq<string>>, blockSizes: array<int>, capacity: Limit, layerIdx: nat,
                             ghost sizes: seq<nat>, ghost a: seq<nat>)
      returns (ok: bool, ghost c: seq<nat>)
      requires Valid() && sizes == Sizes() && layerIdx == |a| <= |layers|
      requires Holds(layers, sizes, a, blocks[..], blockSizes[..]) && Allocates(sizes, a, blocks.Length, capacity)
      modifies blocks, blockSizes
      ensures ok ==> Completes(sizes, a, c, blocks.Length, capacity) && Holds(layers, sizes, c, blocks[..], blockSizes[..])
      ensures !ok ==> blocks[..] == old(blocks[..]) && blockSizes[..] == old(blockSizes[..])
      ensures !ok ==> forall d :: !Completes(sizes, a, d, blocks.Length, capacity)
      decreases |layers| - layerIdx
    {
      if layerIdx >= |layers| { return true, a; }
      var layer := layers[layerIdx];
      var size := layerSizes[layer];
      ghost var k := blocks.Length;
      for blockNum := 0 to blocks.Length
        invariant blocks[..] == old(blocks[..]) && blockSizes[..] == old(blockSizes[..])
        invariant forall d :: Completes(sizes, a, d, k, capacity) ==> d[layerIdx] >= blockNum
      {
        var can := CanPlaceInBlock(layer, size, blockNum, blocks, blockSizes, capacity, a);
        if can {
          ok, c := TryBlock(blocks, blockSizes, capacity, layerIdx, blockNum, sizes, a);
          if ok { return; }
        }
        forall d | Completes(sizes, a, d, k, capacity) ensures d[layerIdx] != blockNum {
          CompletionPlaces(sizes, a, d, k, capacity);
        }
      }
      forall d ensures !Completes(sizes, a, d, k, capacity) {
        if Completes(sizes, a, d, k, capacity) { CompletionPlaces(sizes, a, d, k, capacity); }
      }
      ok, c := false, [];
    }

    /** Places one layer, tries the rest, and takes the layer out again when that fails. */
    method TryBlock(blocks: array<seq<string>>, blockSizes: array<int>, capacity: Limit, layerIdx: nat, blockNum: nat,
                    ghost sizes: seq<nat>, ghost a: seq<nat>)
      returns (ok: bool, ghost c: seq<nat>)
      requires Valid() && sizes == Sizes() && layerIdx == |a| < |layers| && blockNum < blocks.Length
      requires Holds(layers, sizes, a, blocks[..], blockSizes[..]) && Allocates(sizes, a, blocks.Length, capacity)
      requires Places(sizes, a, capacity, blockNum)
      modifies blocks, blockSizes
      ensures ok ==> Completes(sizes, a, c, blocks.Length, capacity) && Holds(layers, sizes, c, blocks[..], blockSizes[..])
      ensures !ok ==> blocks[..] == old(blocks[..]) && blockSizes[..] == old(blockSizes[..])
      ensures !ok ==> forall d :: !Completes(sizes, a + [blockNum], d, blocks.Length, capacity)
      decreases |layers| - layerIdx, 0
    {
      var layer := layers[layerIdx];
      var size := layerSizes[layer];
      ghost var placed, loads := blocks[..], blockSizes[..];
      HoldsNext(layers, sizes, a, placed, loads, blockNum);
      PlacingKeeps(sizes, a, blocks.Length, capacity, blockNum);
      LayerNotYetPlaced(a, blockNum, placed, loads);
      Place(blocks, blockSizes, blockNum, layer, size);
      ok, c := AllocateRecursive(blocks, blockSizes, capacity, layerIdx + 1, sizes, a + [blockNum]);
      if ok {
        CompletesShorter(sizes, a, blockNum, c, blocks.Length, capacity);
      } else {
        Unplace(blocks, blockSizes, blockNum, layer, size, placed, loads);
      }
    }

    method Place(blocks: array<seq<string>>, blockSizes: array<int>, blockNum: nat, layer: string, size: nat)
      requires blockNum < blocks.Length == blockSizes.Length
      modifies blocks, blockSizes
      ensures blocks[..] == old(blocks[..])[blockNum := old(blocks[..])[blockNum] + [layer]]
      ensures blockSizes[..] == old(blockSizes[..])[blockNum := old(blockSizes[..])[blockNum] + size]
    {
      blocks[blockNum] := blocks[blockNum] + [layer];
      blockSizes[blockNum] := blockSizes[blockNum] + size;
    }

    /** Undoes Place. */
    method Unplace(blocks: array<seq<string>>, blockSizes: array<int>, blockNum: nat, layer: string, size: nat,
                   ghost placed: seq<seq<string>>, ghost loads: seq<int>)
      requires blockNum < blocks.Length == blockSizes.Length && |placed| == |loads| == blocks.Length
      requires blocks[..] == placed[blockNum := placed[blockNum] + [layer]] && layer !in placed[blockNum]
      requires blockSizes[..] == loads[blockNum := loads[blockNum] + size]
      modifies blocks, blockSizes
      ensures blocks[..] == placed && blockSizes[..] == loads
    {
      RemoveAppended(placed[blockNum], layer);
      assert blocks[..][blockNum] == placed[blockNum] + [layer] && blockSizes[..][blockNum] == loads[blockNum] + size;
      blocks[blockNum] := Remove(blocks[blockNum], layer);
      blockSizes[blockNum] := blockSizes[blockNum] - size;
      assert forall b :: 0 <= b < blocks.Length && b != blockNum ==> blocks[b] == old(blocks[..])[b] && blockSizes[b] == old(blockSizes[..])[b];
    }

    lemma LayerNotYetPlaced(a: seq<nat>, b: nat, blocks: seq<seq<string>>, loads: seq<int>)
      requires Valid() && |a| < |layers| && Holds(layers, Sizes(), a, blocks, loads) && b < |blocks|
      ensures layers[|a|] !in blocks[b]
    {
    }

    /** Every layer is in the block of an assignment that is valid, or there is no such assignment. */
    method AllocateBlocks(numBlocks: int, capacity: Limit) returns (r: AllocationResult, ghost c: seq<nat>)
      requires Valid()
      ensures r.CannotAllocate? <==> numBlocks <= 0 || !Feasible(Sizes(), numBlocks, capacity)
      ensures r.Allocated? ==> IsAllocation(r.blocks, c, numBlocks, capacity)
    {
      if numBlocks <= 0 { return CannotAllocate, []; }
      var blocks := new seq<string>[numBlocks](i => []);
      var blockSizes := new int[numBlocks](i => 0);
      var ok;
      ok, c := AllocateRecursive(blocks, blockSizes, capacity, 0, Sizes(), []);
      if ok {
        assert AllocatesAll(Sizes(), c, numBlocks, capacity);
        r := Allocated(blocks[..]);
      } else {
        forall d ensures !AllocatesAll(Sizes(), d, numBlocks, capacity) {
          assert !Completes(Sizes(), [], d, numBlocks, capacity);
        }
        r := CannotAllocate;
      }
    }

    ghost predicate IsAllocation(blocks: seq<seq<string>>, c: seq<nat>, k: int, capacity: Limit)
      requires Valid()
    {
      && |blocks| == k && AllocatesAll(Sizes(), c, k, capacity)
      && forall b :: 0 <= b < |blocks| ==> blocks[b] == Group(layers, c, b)
    }

    /** The least number of blocks with a valid assignment; none exactly when some layer is
        larger than a block. */
    method FindMinimumBlocks(capacity: Limit) returns (r: MinimumResult, ghost c: seq<nat>)
      requires Valid()
      ensures r.NoMinimum? <==> exists i :: 0 <= i < |layers| && !WithinLimit(Sizes()[i], capacity)
      ensures r.Minimum? ==> IsAllocation(r.blocks, c, r.count, capacity)
      ensures r.Minimum? ==> forall k: nat :: Feasible(Sizes(), k, capacity) ==> r.count <= k
    {
      if layers == [] { return Minimum(0, []), []; }
      FeasibleIffEachFits(Sizes(), capacity);
      forall k: nat | Feasible(Sizes(), k, capacity) ensures 1 <= k { NeedsABlock(Sizes(), k, capacity); }
      var left, right := 1, |layers|;
      while left < right
        invariant 1 <= left <= right <= |layers|
        invariant forall k: nat :: Feasible(Sizes(), k, capacity) ==> left <= k
        invariant right == |layers| || Feasible(Sizes(), right, capacity)
      {
        var mid := (left + right) / 2;
        var allocation, _ := AllocateBlocks(mid, capacity);
        if allocation.Allocated? {
          assert Feasible(Sizes(), mid, capacity);
          right := mid;
        } else {
          forall k: nat | Feasible(Sizes(), k, capacity) ensures mid + 1 <= k {
            if k <= mid { MoreBlocks(Sizes(), k, mid, capacity); }
          }
          left := mid + 1;
        }
      }
      var allocation;
      allocation, c := AllocateBlocks(left, capacity);
      if allocation.Allocated? {
        MoreBlocks(Sizes(), left, |layers|, capacity);
        r := Minimum(left, allocation.blocks);
      } else {
        r := NoMinimum;
      }
    }

    /** The chromatic number of the chain, found by greedy colouring. */
    method FindMinimumBlocksSequential() returns (count: nat)
      requires Valid()
      ensures Feasible(Sizes(), count, NoLimit) && forall k: nat :: Feasible(Sizes(), k, NoLimit) ==> count <= k
      ensures count == if |layers| < 2 then |layers| else 2
    {
      forall k: nat ensures Feasible(Sizes(), k, NoLimit) <==> k >= if |layers| < 2 then |layers| else 2 {
        ColoursNeeded(Sizes(), k);
      }
      if layers == [] { return 0; }
      var colors := ColorLayers();
      count := 0;
      for i := 0 to |layers|
        invariant count == if i < 2 then i else 2
      {
        if colors[layers[i]] + 1 > count { count := colors[layers[i]] + 1; }
      }
    }

    function UsedColors(colors: map<string, nat>, layer: string): set<nat> {
      set m | m in Neighbours(adjacency, layer) && m in colors :: colors[m]
    }

    /** Gives each layer the smallest colour that no neighbour has. */
    method ColorLayers() returns (colors: map<string, nat>)
      requires Valid()
      ensures Alternating(colors, |layers|)
    {
      colors := map[];
      for i := 0 to |layers|
        invariant Alternating(colors, i)
      {
        UsedByNeighbours(colors, i);
        var color := SmallestUnused(UsedColors(colors, layers[i]), 2);
        LeastOfTwo(UsedColors(colors, layers[i]), i, color);
        AlternatingNext(colors, i);
        colors := colors[layers[i] := color];
      }
    }

    method SmallestUnused(used: set<nat>, ghost bound: nat) returns (color: nat)
      requires forall c :: c in used ==> c < bound
      ensures color !in used && forall c: nat :: c < color ==> c in used
    {
      color := 0;
      while color in used
        invariant forall c: nat :: c < color ==> c in used
        decreases bound - color
      {
        color := color + 1;
      }
    }

    lemma LeastOfTwo(used: set<nat>, i: nat, color: nat)
      requires used == if i == 0 then {} else {(i - 1) % 2}
      requires color !in used && forall c: nat :: c < color ==> c in used
      ensures color == i % 2
    {
      assert 0 < color ==> 0 in used;
      assert 1 < color ==> 1 in used;
    }

    lemma AlternatingNext(colors: map<string, nat>, i: nat)
      requires Valid() && i < |layers| && Alternating(colors, i)
      ensures Alternating(colors[layers[i] := i % 2], i + 1)
    {
    }

    /** The first i layers are coloured 0, 1, 0, 1, ... */
    ghost predicate Alternating(colors: map<string, nat>, i: nat) {
      && i <= |layers| && (forall l :: l in colors ==> exists j :: 0 <= j < i && layers[j] == l)
      && forall j :: 0 <= j < i ==> layers[j] in colors && colors[layers[j]] == j % 2
    }

    lemma UsedByNeighbours(colors: map<string, nat>, i: nat)
      requires Valid() && i < |layers| && Alternating(colors, i)
      ensures UsedColors(colors, layers[i]) == if i == 0 then {} else {(i - 1) % 2}
    {
      var used := UsedColors(colors, layers[i]);
      forall c | c in used ensures i > 0 && c == (i - 1) % 2 {
        var m :| m in Neighbours(adjacency, layers[i]) && m in colors && colors[m] == c;
        var j :| 0 <= j < i && layers[j] == m;
      }
      if i > 0 { assert layers[i - 1] in Neighbours(adjacency, layers[i]) && layers[i - 1] in colors; }
    }

    /** Layers take turns over the blocks, so that no block has two neighbours or is more than
        one layer ahead; the refusal inside the loop is never reached. */
    method OptimizeBlockDistribution(numBlocks: int) returns (r: DistributionResult)
      requires Valid()
      ensures r.TooFewBlocks? <==> numBlocks < if |layers| < 2 then |layers| else 2
      ensures !r.CannotPlace?
      ensures r.Distributed? ==> forall b: nat :: b in r.blocks <==> b < numBlocks && Group(layers, Turns(|layers|, numBlocks), b) != []
      ensures r.Distributed? ==> forall b: nat :: b in r.blocks ==> r.blocks[b] == Group(layers, Turns(|layers|, numBlocks), b)
    {
      var least := FindMinimumBlocksSequential();
      if numBlocks < least { return TooFewBlocks; }
      var blocks := new seq<string>[numBlocks](i => []);
      assert Turns(0, numBlocks) == [];
      for i := 0 to |layers|
        invariant forall b :: 0 <= b < numBlocks ==> blocks[b] == Group(layers, Turns(i, numBlocks), b)
      {
        var available := AvailableBlocks(blocks, i);
        TurnIsFirstLeast(blocks[..], available, i);
        if available == [] { return CannotPlace; }
        var best := FewestLayers(blocks, available);
        assert Turns(i + 1, numBlocks)[..i] == Turns(i, numBlocks);
        blocks[best] := blocks[best] + [layers[i]];
      }
      r := Distributed(map b: nat | 0 <= b < numBlocks && blocks[b] != [] :: blocks[b]);
    }

    /** The blocks that hold no neighbour of layer i. */
    method AvailableBlocks(blocks: array<seq<string>>, i: nat) returns (available: seq<nat>)
      requires Valid() && i < |layers| && blocks.Length > 0
      requires forall b :: 0 <= b < blocks.Length ==> blocks[b] == Group(layers, Turns(i, blocks.Length), b)
      ensures forall p, q :: 0 <= p < q < |available| ==> available[p] < available[q]
      ensures forall b: nat :: b in available <==> b < blocks.Length && (i > 0 ==> b != (i - 1) % blocks.Length)
    {
      available := [];
      for b := 0 to blocks.Length
        invariant forall p, q :: 0 <= p < q < |available| ==> available[p] < available[q]
        invariant forall x: nat :: x in available <==> x < b && (i > 0 ==> x != (i - 1) % blocks.Length)
      {
        var canPlace := true;
        var existing := blocks[b];
        var a := Turns(i, blocks.Length);
        for j := 0 to |existing|
          invariant canPlace <==> forall k :: 0 <= k < j ==> existing[k] !in Neighbours(adjacency, layers[i])
        {
          if existing[j] in Neighbours(adjacency, layers[i]) { canPlace := false; }
        }
        NeighbourInBlock(a, b);
        assert existing == Group(layers, a, b);
        assert canPlace <==> (i > 0 ==> b != (i - 1) % blocks.Length);
        assert forall p :: 0 <= p < |available| ==> available[p] in available;
        if canPlace { available := available + [b]; }
      }
    }

    lemma NeighbourInBlock(a: seq<nat>, b: nat)
      requires Valid() && |a| < |layers|
      ensures var existing := Group(layers, a, b);
              (forall k :: 0 <= k < |existing| ==> existing[k] !in Neighbours(adjacency, layers[|a|])) <==> (a != [] ==> a[|a| - 1] != b)
    {
      var existing := Group(layers, a, b);
      if a != [] && a[|a| - 1] == b {
        LastIsNeighbour(a, b);
      } else {
        forall k | 0 <= k < |existing| ensures existing[k] !in Neighbours(adjacency, layers[|a|]) {
          if existing[k] in Neighbours(adjacency, layers[|a|]) { NeighbourIsLast(a, b, existing[k]); }
        }
      }
    }

    /** Of the blocks layer i may go to, the first with the fewest layers is the one whose turn it is. */
    lemma TurnIsFirstLeast(blocks: seq<seq<string>>, available: seq<nat>, i: nat)
      requires Valid() && i < |layers| && |blocks| >= if |layers| < 2 then |layers| else 2
      requires forall b :: 0 <= b < |blocks| ==> blocks[b] == Group(layers, Turns(i, |blocks|), b)
      requires forall b: nat :: b in available <==> b < |blocks| && (i > 0 ==> b != (i - 1) % |blocks|)
      ensures i % |blocks| in available
      ensures forall b :: b in available && b < i % |blocks| ==> |blocks[b]| > |blocks[i % |blocks|]|
      ensures forall b :: b in available ==> |blocks[b]| >= |blocks[i % |blocks|]|
    {
      var k := |blocks|;
      if i > 0 { NextTurn(i - 1, k); }
      forall b | 0 <= b < k ensures |blocks[b]| == i / k + if b < i % k then 1 else 0 { TurnsAreEven(layers, i, k, b); }
    }

    /** The first of the listed blocks with the fewest layers. */
    method FewestLayers(blocks: array<seq<string>>, available: seq<nat>) returns (best: nat)
      requires available != [] && forall b :: b in available ==> b < blocks.Length
      requires forall p, q :: 0 <= p < q < |available| ==> available[p] < available[q]
      ensures best in available && best < blocks.Length
      ensures forall b :: b in available ==> b < blocks.Length && |blocks[best]| <= |blocks[b]|
      ensures forall b :: b in available && b < best ==> |blocks[best]| < |blocks[b]|
    {
      best := available[0];
      assert best in available;
      for i := 1 to |available|
        invariant best in available[..i] && best < blocks.Length
        invariant forall b :: b in available[..i] ==> b < blocks.Length && |blocks[best]| <= |blocks[b]|
        invariant forall b :: b in available[..i] && b < best ==> |blocks[best]| < |blocks[b]|
      {
        assert available[i] in available && available[..i + 1] == available[..i] + [available[i]];
        if |blocks[available[i]]| < |blocks[best]| { best := available[i]; }
      }
      assert available[..|available|] == available;
    }
  }
}
