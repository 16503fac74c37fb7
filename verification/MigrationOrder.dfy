/** Ordering storage moves between host and GPU under two capacities: the greedy pass and the
  search over sets of remaining moves that it falls back to. */
module MigrationOrder {
  datatype Device = Cpu | Cuda(suffix: string) | UnknownDevice(text: string)

  datatype Migration = Migration(storageId: string, names: seq<string>, source: Device, destination: Device, nbytes: nat)

  const SEARCH_STATE_LIMIT: nat := 10_000

  /** Bytes a move adds on the host; it takes as many from the GPU, or the other way round. */
  function HostDelta(m: Migration): int {
    if m.destination.Cuda? then 0 - m.nbytes else m.nbytes
  }

  /** Host bytes above the current placement after the moves of `order`. */
  function Host(ms: seq<Migration>, order: seq<nat>): int {
    if order == [] then 0
    else
      var last := |order| - 1;
      Host(ms, order[..last]) + if order[last] < |ms| then HostDelta(ms[order[last]]) else 0
  }

  /** Every move, each once. */
  ghost predicate IsOrdering(ms: seq<Migration>, order: seq<nat>) {
    Moves(ms, order) && |order| == |ms|
  }

  ghost predicate Moves(ms: seq<Migration>, order: seq<nat>) {
    (forall i :: i in order ==> i < |ms|) && forall i, j :: 0 <= i < j < |order| ==> order[i] != order[j]
  }

  ghost predicate Within(host: int, hostCapacity: int, gpuCapacity: int) {
    host <= hostCapacity && -host <= gpuCapacity
  }

  /** After each move both deltas are within capacity. */
  ghost predicate Feasible(ms: seq<Migration>, order: seq<nat>, hostCapacity: int, gpuCapacity: int) {
    forall k :: 0 <= k <= |order| ==> Within(Host(ms, order[..k]), hostCapacity, gpuCapacity)
  }

  function Below(n: nat): (r: set<nat>)
    ensures forall i: nat :: i in r <==> i < n
  {
    if n == 0 then {} else Below(n - 1) + {n - 1}
  }

  function Elements(order: seq<nat>): (r: set<nat>)
    ensures forall i :: i in r <==> i in order
  {
    set i | i in order
  }

  /** Host bytes once every move but the remaining ones is done. */
  function MaskHost(ms: seq<Migration>, remaining: set<nat>, n: nat): int
    requires n <= |ms|
  {
    if n == 0 then 0
    else MaskHost(ms, remaining, n - 1) + if n - 1 in remaining then 0 else HostDelta(ms[n - 1])
  }

  lemma {:induction false} MaskHostWithout(ms: seq<Migration>, remaining: set<nat>, i: nat, n: nat)
    requires n <= |ms| && i in remaining
    ensures MaskHost(ms, remaining - {i}, n) == MaskHost(ms, remaining, n) + if i < n then HostDelta(ms[i]) else 0
  {
    if n > 0 { MaskHostWithout(ms, remaining, i, n - 1); }
  }

  lemma {:induction false} MaskHostNone(ms: seq<Migration>, n: nat)
    requires n <= |ms|
    ensures MaskHost(ms, Below(|ms|), n) == 0
  {
    if n > 0 { MaskHostNone(ms, n - 1); }
  }

  /** What remains determines the bytes, whatever the order of the moves done. */
  lemma {:induction false} MaskDeterminesHost(ms: seq<Migration>, order: seq<nat>)
    requires Moves(ms, order)
    ensures Host(ms, order) == MaskHost(ms, Below(|ms|) - Elements(order), |ms|)
  {
    if order == [] {
      assert Below(|ms|) - Elements([]) == Below(|ms|);
      MaskHostNone(ms, |ms|);
    } else {
      var last := |order| - 1;
      var before := order[..last];
      assert forall i :: i in before ==> i in order;
      MaskDeterminesHost(ms, before);
      var i := order[last];
      assert i in order && i !in before;
      MaskHostWithout(ms, Below(|ms|) - Elements(before), i, |ms|);
      assert order == before + [i];
      assert Below(|ms|) - Elements(order) == Below(|ms|) - Elements(before) - {i};
    }
  }

  lemma OrderingLeavesNone(ms: seq<Migration>, order: seq<nat>)
    requires Moves(ms, order)
    ensures |order| == |ms| <==> Elements(order) == Below(|ms|)
  {
    DistinctCount(order);
    BelowCount(|ms|);
    assert Elements(order) <= Below(|ms|);
    SubsetSameSize(Elements(order), Below(|ms|));
  }

  lemma {:induction false} DistinctCount(order: seq<nat>)
    requires forall i, j :: 0 <= i < j < |order| ==> order[i] != order[j]
    ensures |Elements(order)| == |order|
  {
    if order != [] {
      var last := |order| - 1;
      DistinctCount(order[..last]);
      assert order == order[..last] + [order[last]];
      assert Elements(order) == Elements(order[..last]) + {order[last]};
    }
  }

  lemma {:induction false} BelowCount(n: nat)
    ensures |Below(n)| == n
  {
    if n > 0 {
      BelowCount(n - 1);
      assert Below(n) == Below(n - 1) + {n - 1};
    }
  }

  lemma SubsetSameSize(a: set<nat>, b: set<nat>)
    requires a <= b
    ensures |a| <= |b| && (|a| == |b| ==> a == b)
  {
    assert b == a + (b - a);
  }

  // ---------------------------------------------------------------------------
  // The search
  // ---------------------------------------------------------------------------

  datatype SearchResult = Found(order: seq<nat>) | NotFound | LimitExceeded

  /** A state to expand: what remains, the two deltas, and the moves that led here. */
  datatype Node = Node(remaining: set<nat>, host: int, gpu: int, order: seq<nat>)

  ghost predicate NodeOk(ms: seq<Migration>, hostCapacity: int, gpuCapacity: int, node: Node) {
    && Moves(ms, node.order) && node.remaining == Below(|ms|) - Elements(node.order)
    && node.host == Host(ms, node.order) && node.gpu == -node.host
    && Feasible(ms, node.order, hostCapacity, gpuCapacity)
  }

  function MaskAfter(ms: seq<Migration>, remaining: set<nat>): int {
    MaskHost(ms, remaining, |ms|)
  }

  /** Every move that fits from `remaining` leads to a visited state, and what finishes does
      not leave room for the loader's own GPU bytes. */
  ghost predicate Expanded(ms: seq<Migration>, hostCapacity: int, gpuCapacity: int, extra: int,
                           visited: set<set<nat>>, remaining: set<nat>) {
    && (remaining == {} ==> -MaskAfter(ms, remaining) + extra > gpuCapacity)
    && forall i :: i in remaining && i < |ms| && Within(MaskAfter(ms, remaining - {i}), hostCapacity, gpuCapacity) ==>
         remaining - {i} in visited
  }

  /** If every visited state is expanded, no ordering is feasible and leaves room. */
  lemma ExhaustedMeansInfeasible(ms: seq<Migration>, hostCapacity: int, gpuCapacity: int, extra: int,
                                 visited: set<set<nat>>, order: seq<nat>)
    requires IsOrdering(ms, order) && Feasible(ms, order, hostCapacity, gpuCapacity)
    requires Below(|ms|) in visited
    requires forall r :: r in visited ==> Expanded(ms, hostCapacity, gpuCapacity, extra, visited, r)
    ensures -Host(ms, order) + extra > gpuCapacity
  {
    PrefixVisited(ms, hostCapacity, gpuCapacity, extra, visited, order, |order|);
    assert order[..|order|] == order;
    OrderingLeavesNone(ms, order);
    assert Below(|ms|) - Elements(order) == {};
    MaskDeterminesHost(ms, order);
    assert Expanded(ms, hostCapacity, gpuCapacity, extra, visited, {});
  }

  lemma {:induction false} PrefixVisited(ms: seq<Migration>, hostCapacity: int, gpuCapacity: int, extra: int,
                                         visited: set<set<nat>>, order: seq<nat>, k: nat)
    requires Moves(ms, order) && Feasible(ms, order, hostCapacity, gpuCapacity) && k <= |order|
    requires Below(|ms|) in visited
    requires forall r :: r in visited ==> Expanded(ms, hostCapacity, gpuCapacity, extra, visited, r)
    ensures Below(|ms|) - Elements(order[..k]) in visited
  {
    if k == 0 {
      assert Below(|ms|) - Elements(order[..0]) == Below(|ms|);
    } else {
      PrefixVisited(ms, hostCapacity, gpuCapacity, extra, visited, order, k - 1);
      var r, i := Below(|ms|) - Elements(order[..k - 1]), order[k - 1];
      PrefixStep(ms, order, k);
      assert Expanded(ms, hostCapacity, gpuCapacity, extra, visited, r);
      assert Within(Host(ms, order[..k]), hostCapacity, gpuCapacity);
    }
  }

  lemma PrefixStep(ms: seq<Migration>, order: seq<nat>, k: nat)
    requires Moves(ms, order) && 0 < k <= |order|
    ensures var r, i := Below(|ms|) - Elements(order[..k - 1]), order[k - 1];
            && i in r && i < |ms| && Below(|ms|) - Elements(order[..k]) == r - {i}
            && MaskAfter(ms, r - {i}) == Host(ms, order[..k])
  {
    var i := order[k - 1];
    assert order[..k] == order[..k - 1] + [i] && i in order;
    assert i !in order[..k - 1];
    assert Elements(order[..k]) == Elements(order[..k - 1]) + {i};
    assert Below(|ms|) - Elements(order[..k]) == Below(|ms|) - Elements(order[..k - 1]) - {i};
    assert forall j :: j in order[..k] ==> j in order;
    MaskDeterminesHost(ms, order[..k]);
  }

  function Subsets(n: nat): (r: set<set<nat>>)
    ensures forall s :: s in r <==> s <= Below(n)
  {
    set s: set<nat> | s <= Below(n)
  }

  function Pow2(n: nat): nat { if n == 0 then 1 else 2 * Pow2(n - 1) }

  function With(s: set<nat>, x: nat): set<nat> { s + {x} }

  ghost function AllWith(family: set<set<nat>>, x: nat): set<set<nat>> { set s | s in family :: With(s, x) }

  lemma {:induction false} AllWithSize(family: set<set<nat>>, x: nat)
    requires forall s :: s in family ==> x !in s
    ensures |AllWith(family, x)| == |family|
  {
    if family != {} {
      var t :| t in family;
      AllWithSize(family - {t}, x);
      assert With(t, x) !in AllWith(family - {t}, x) by {
        forall s | s in family - {t} ensures With(s, x) != With(t, x) { WithInjective(s, t, x); }
      }
      assert AllWith(family, x) == AllWith(family - {t}, x) + {With(t, x)};
    }
  }

  lemma WithInjective(s: set<nat>, t: set<nat>, x: nat)
    requires x !in s && x !in t && s != t
    ensures With(s, x) != With(t, x)
  {
    assert With(s, x) - {x} == s && With(t, x) - {x} == t;
  }

  lemma SubsetsSplit(m: nat)
    ensures Subsets(m + 1) == Subsets(m) + AllWith(Subsets(m), m) && Subsets(m) !! AllWith(Subsets(m), m)
  {
    var image := AllWith(Subsets(m), m);
    var n := m + 1;
    assert Below(n) == Below(m) + {m};
    forall s | s in Subsets(n) ensures s in Subsets(m) + image {
      if m in s {
        assert s - {m} <= Below(m) && s == With(s - {m}, m);
      }
    }
    forall s | s in Subsets(m) + image ensures s in Subsets(n) {}
    forall s | s in image ensures m in s {}
  }

  lemma SubsetsDouble(m: nat)
    ensures |Subsets(m + 1)| == 2 * |Subsets(m)|
  {
    SubsetsSplit(m);
    forall s | s in Subsets(m) ensures m !in s {}
    AllWithSize(Subsets(m), m);
  }

  /** There are 2^n sets of remaining moves. */
  lemma {:induction false} SubsetsSize(n: nat)
    ensures |Subsets(n)| == Pow2(n)
  {
    if n == 0 {
      OneSubsetOfNone();
    } else {
      SubsetsSize(n - 1);
      SubsetsDouble(n - 1);
    }
  }

  lemma OneSubsetOfNone()
    ensures |Subsets(0)| == 1
  {
    var empty: set<nat> := {};
    assert empty in Subsets(0);
    forall s | s in Subsets(0) ensures s == empty { assert s <= Below(0); }
    assert Subsets(0) == {empty};
  }

  lemma ExtendNode(ms: seq<Migration>, hostCapacity: int, gpuCapacity: int, node: Node, i: nat)
    requires NodeOk(ms, hostCapacity, gpuCapacity, node) && i in node.remaining
    requires var h := node.host + HostDelta(ms[i]); h <= hostCapacity && -h <= gpuCapacity
    ensures NodeOk(ms, hostCapacity, gpuCapacity,
                   Node(node.remaining - {i}, node.host + HostDelta(ms[i]), node.gpu - HostDelta(ms[i]), node.order + [i]))
  {
    hide Feasible, Moves;
    MovesExtend(ms, node.order, i);
    HostExtends(ms, node.order, i);
    FeasibleExtends(ms, node.order, i, hostCapacity, gpuCapacity);
  }

  lemma HostExtends(ms: seq<Migration>, order: seq<nat>, i: nat)
    requires i < |ms|
    ensures Host(ms, order + [i]) == Host(ms, order) + HostDelta(ms[i])
    ensures Below(|ms|) - Elements(order + [i]) == Below(|ms|) - Elements(order) - {i}
  {
    assert (order + [i])[..|order|] == order;
    assert Elements(order + [i]) == Elements(order) + {i};
  }

  lemma MovesExtend(ms: seq<Migration>, order: seq<nat>, i: nat)
    requires Moves(ms, order) && i < |ms| && i !in order
    ensures Moves(ms, order + [i])
  {
  }

  lemma FeasibleExtends(ms: seq<Migration>, order: seq<nat>, i: nat, hostCapacity: int, gpuCapacity: int)
    requires Feasible(ms, order, hostCapacity, gpuCapacity) && i < |ms|
    requires Within(Host(ms, order) + HostDelta(ms[i]), hostCapacity, gpuCapacity)
    ensures Feasible(ms, order + [i], hostCapacity, gpuCapacity)
  {
    var next := order + [i];
    forall k | 0 <= k <= |next| ensures Within(Host(ms, next[..k]), hostCapacity, gpuCapacity) {
      PrefixWithin(ms, order, i, k, hostCapacity, gpuCapacity);
    }
  }

  lemma PrefixWithin(ms: seq<Migration>, order: seq<nat>, i: nat, k: nat, hostCapacity: int, gpuCapacity: int)
    requires Feasible(ms, order, hostCapacity, gpuCapacity) && i < |ms| && k <= |order| + 1
    requires Within(Host(ms, order) + HostDelta(ms[i]), hostCapacity, gpuCapacity)
    ensures Within(Host(ms, (order + [i])[..k]), hostCapacity, gpuCapacity)
  {
    if k <= |order| {
      assert (order + [i])[..k] == order[..k];
    } else {
      assert (order + [i])[..k] == order + [i];
      HostExtends(ms, order, i);
    }
  }

  /** Some feasible order of some moves leaves exactly the moves `r` to do. */
  ghost predicate Reachable(ms: seq<Migration>, hostCapacity: int, gpuCapacity: int, r: set<nat>) {
    exists order :: Moves(ms, order) && Feasible(ms, order, hostCapacity, gpuCapacity) && r == Below(|ms|) - Elements(order)
  }

  ghost function ReachableSets(ms: seq<Migration>, hostCapacity: int, gpuCapacity: int): set<set<nat>> {
    set r | r in Subsets(|ms|) && Reachable(ms, hostCapacity, gpuCapacity, r)
  }

  lemma NodeIsReachable(ms: seq<Migration>, hostCapacity: int, gpuCapacity: int, node: Node)
    requires NodeOk(ms, hostCapacity, gpuCapacity, node)
    ensures node.remaining in ReachableSets(ms, hostCapacity, gpuCapacity)
  {
    assert node.remaining <= Below(|ms|);
  }

  /** There are at most 2^n of them. */
  lemma ReachableCount(ms: seq<Migration>, hostCapacity: int, gpuCapacity: int)
    ensures |ReachableSets(ms, hostCapacity, gpuCapacity)| <= Pow2(|ms|)
  {
    SubsetCount(ReachableSets(ms, hostCapacity, gpuCapacity), Subsets(|ms|));
    SubsetsSize(|ms|);
  }

  ghost predicate Waiting(frontier: seq<Node>, r: set<nat>) {
    exists k :: 0 <= k < |frontier| && frontier[k].remaining == r
  }

  /** What the search keeps: only reachable states wait, and every visited state that no
      longer waits was expanded. */
  ghost predicate Searching(ms: seq<Migration>, hostCapacity: int, gpuCapacity: int, extra: int,
                            frontier: seq<Node>, visited: set<set<nat>>) {
    && Below(|ms|) in visited && visited <= ReachableSets(ms, hostCapacity, gpuCapacity)
    && (forall k :: 0 <= k < |frontier| ==> NodeOk(ms, hostCapacity, gpuCapacity, frontier[k]))
    && forall r :: r in visited ==> Waiting(frontier, r) || Expanded(ms, hostCapacity, gpuCapacity, extra, visited, r)
  }

  /** The moves below i that fit from `remaining` have been visited. */
  ghost predicate Tried(ms: seq<Migration>, hostCapacity: int, gpuCapacity: int, visited: set<set<nat>>,
                        remaining: set<nat>, n: nat) {
    forall i: nat :: i in remaining && i < n && Within(MaskAfter(ms, remaining - {i}), hostCapacity, gpuCapacity) ==>
      remaining - {i} in visited
  }

  /** While a state is being expanded it counts neither as waiting nor as expanded. */
  ghost predicate SearchingBut(ms: seq<Migration>, hostCapacity: int, gpuCapacity: int, extra: int,
                               frontier: seq<Node>, visited: set<set<nat>>, busy: set<nat>) {
    && Below(|ms|) in visited && visited <= ReachableSets(ms, hostCapacity, gpuCapacity)
    && (forall k :: 0 <= k < |frontier| ==> NodeOk(ms, hostCapacity, gpuCapacity, frontier[k]))
    && forall r :: r in visited && r != busy ==>
         Waiting(frontier, r) || Expanded(ms, hostCapacity, gpuCapacity, extra, visited, r)
  }

  lemma PopState(ms: seq<Migration>, hostCapacity: int, gpuCapacity: int, extra: int,
                 frontier: seq<Node>, visited: set<set<nat>>)
    requires frontier != [] && Searching(ms, hostCapacity, gpuCapacity, extra, frontier, visited)
    ensures SearchingBut(ms, hostCapacity, gpuCapacity, extra, frontier[..|frontier| - 1], visited,
                         frontier[|frontier| - 1].remaining)
  {
    var rest, busy := frontier[..|frontier| - 1], frontier[|frontier| - 1].remaining;
    forall r | r in visited && r != busy && Waiting(frontier, r) ensures Waiting(rest, r) {
      var k :| 0 <= k < |frontier| && frontier[k].remaining == r;
      assert rest[k].remaining == r;
    }
  }

  lemma PushState(ms: seq<Migration>, hostCapacity: int, gpuCapacity: int, extra: int,
                  frontier: seq<Node>, visited: set<set<nat>>, busy: set<nat>, node: Node)
    requires SearchingBut(ms, hostCapacity, gpuCapacity, extra, frontier, visited, busy)
    requires NodeOk(ms, hostCapacity, gpuCapacity, node)
    ensures SearchingBut(ms, hostCapacity, gpuCapacity, extra, frontier + [node], visited + {node.remaining}, busy)
  {
    var frontier', visited' := frontier + [node], visited + {node.remaining};
    NodeIsReachable(ms, hostCapacity, gpuCapacity, node);
    assert frontier'[|frontier|].remaining == node.remaining;
    forall r | r in visited' && r != busy
      ensures Waiting(frontier', r) || Expanded(ms, hostCapacity, gpuCapacity, extra, visited', r)
    {
      if r in visited && Waiting(frontier, r) {
        var k :| 0 <= k < |frontier| && frontier[k].remaining == r;
        assert frontier'[k].remaining == r;
      }
    }
  }

  method FindMigrationOrder(ms: seq<Migration>, hostCapacity: nat, gpuCapacity: nat, extra: int, limit: nat)
    returns (r: SearchResult)
    ensures r.Found? ==> IsOrdering(ms, r.order) && Feasible(ms, r.order, hostCapacity, gpuCapacity) &&
                         -Host(ms, r.order) + extra <= gpuCapacity
    ensures r.NotFound? ==> NoOrderingFits(ms, hostCapacity, gpuCapacity, extra)
    ensures r.LimitExceeded? ==> |ReachableSets(ms, hostCapacity, gpuCapacity)| >= limit
  {
    var full := Below(|ms|);
    var frontier, visited := [Node(full, 0, 0, [])], {full};
    SearchStarts(ms, hostCapacity, gpuCapacity, extra);
    while frontier != []
      invariant Searching(ms, hostCapacity, gpuCapacity, extra, frontier, visited)
      decreases |Subsets(|ms|) - visited|, |frontier|
    {
      var node := frontier[|frontier| - 1];
      PopState(ms, hostCapacity, gpuCapacity, extra, frontier, visited);
      frontier := frontier[..|frontier| - 1];
      if node.remaining == {} {
        FinishedIsOrdering(ms, hostCapacity, gpuCapacity, node);
        if node.gpu + extra <= gpuCapacity { return Found(node.order); }
        FinishedIsExpanded(ms, hostCapacity, gpuCapacity, extra, frontier, visited);
      } else if |visited| >= limit {
        SubsetCount(visited, ReachableSets(ms, hostCapacity, gpuCapacity));
        return LimitExceeded;
      } else {
        ghost var before := visited;
        frontier, visited := Expand(ms, hostCapacity, gpuCapacity, extra, frontier, visited, node);
        VisitedGrows(before, visited, Subsets(|ms|));
      }
    }
    SearchedAll(ms, hostCapacity, gpuCapacity, extra, visited);
    r := NotFound;
  }

  /** What a search that ends without a result has shown. */
  ghost predicate NoOrderingFits(ms: seq<Migration>, hostCapacity: int, gpuCapacity: int, extra: int) {
    forall order :: IsOrdering(ms, order) && Feasible(ms, order, hostCapacity, gpuCapacity) ==>
      -Host(ms, order) + extra > gpuCapacity
  }

  lemma SearchedAll(ms: seq<Migration>, hostCapacity: int, gpuCapacity: int, extra: int, visited: set<set<nat>>)
    requires Searching(ms, hostCapacity, gpuCapacity, extra, [], visited)
    ensures NoOrderingFits(ms, hostCapacity, gpuCapacity, extra)
  {
    forall order | IsOrdering(ms, order) && Feasible(ms, order, hostCapacity, gpuCapacity)
      ensures -Host(ms, order) + extra > gpuCapacity
    {
      ExhaustedMeansInfeasible(ms, hostCapacity, gpuCapacity, extra, visited, order);
    }
  }

  lemma FinishedIsExpanded(ms: seq<Migration>, hostCapacity: int, gpuCapacity: int, extra: int,
                           frontier: seq<Node>, visited: set<set<nat>>)
    requires SearchingBut(ms, hostCapacity, gpuCapacity, extra, frontier, visited, {})
    requires -MaskAfter(ms, {}) + extra > gpuCapacity
    ensures Searching(ms, hostCapacity, gpuCapacity, extra, frontier, visited)
  {
    assert Expanded(ms, hostCapacity, gpuCapacity, extra, visited, {});
  }

  lemma VisitedGrows<T>(before: set<T>, after: set<T>, all: set<T>)
    requires before <= after <= all
    ensures before != after ==> |all - after| < |all - before|
  {
    if before != after {
      assert all - before == (all - after) + (after - before);
      assert after - before != {};
    }
  }

  lemma SearchStarts(ms: seq<Migration>, hostCapacity: nat, gpuCapacity: nat, extra: int)
    ensures var full := Below(|ms|);
            Searching(ms, hostCapacity, gpuCapacity, extra, [Node(full, 0, 0, [])], {full})
  {
    var full := Below(|ms|);
    var frontier := [Node(full, 0, 0, [])];
    assert full - Elements([]) == full;
    assert frontier[0].remaining == full;
    NothingMovedFits(ms, hostCapacity, gpuCapacity);
    NodeIsReachable(ms, hostCapacity, gpuCapacity, frontier[0]);
  }

  lemma NothingMovedFits(ms: seq<Migration>, hostCapacity: nat, gpuCapacity: nat)
    ensures Feasible(ms, [], hostCapacity, gpuCapacity)
  {
    var none: seq<nat> := [];
    assert none[..0] == none;
  }

  lemma FinishedIsOrdering(ms: seq<Migration>, hostCapacity: int, gpuCapacity: int, node: Node)
    requires NodeOk(ms, hostCapacity, gpuCapacity, node) && node.remaining == {}
    ensures IsOrdering(ms, node.order) && node.gpu == -MaskAfter(ms, {})
  {
    assert Elements(node.order) <= Below(|ms|);
    assert Elements(node.order) == Below(|ms|);
    OrderingLeavesNone(ms, node.order);
    MaskDeterminesHost(ms, node.order);
  }

  lemma SubsetCount<T>(a: set<T>, b: set<T>)
    requires a <= b
    ensures |a| <= |b|
  {
    assert b == a + (b - a);
  }

  /** The loop over the moves of one state. */
  method Expand(ms: seq<Migration>, hostCapacity: nat, gpuCapacity: nat, ghost extra: int,
                frontier: seq<Node>, visited: set<set<nat>>, node: Node)
    returns (frontier': seq<Node>, visited': set<set<nat>>)
    requires SearchingBut(ms, hostCapacity, gpuCapacity, extra, frontier, visited, node.remaining)
    requires NodeOk(ms, hostCapacity, gpuCapacity, node) && node.remaining != {}
    ensures Searching(ms, hostCapacity, gpuCapacity, extra, frontier', visited')
    ensures visited <= visited' && (visited' == visited ==> frontier' == frontier)
  {
    frontier', visited' := frontier, visited;
    for index := 0 to |ms|
      invariant SearchingBut(ms, hostCapacity, gpuCapacity, extra, frontier', visited', node.remaining)
      invariant Tried(ms, hostCapacity, gpuCapacity, visited', node.remaining, index)
      invariant visited <= visited' && (visited' == visited ==> frontier' == frontier)
    {
      ghost var before := visited';
      frontier', visited' := TryMove(ms, hostCapacity, gpuCapacity, extra, frontier', visited', node, index);
      TriedNext(ms, hostCapacity, gpuCapacity, before, visited', node.remaining, index);
    }
    AllTriedIsExpanded(ms, hostCapacity, gpuCapacity, extra, frontier', visited', node.remaining);
  }

  /** One move of a state: pushed when it fits and leads somewhere new. */
  method TryMove(ms: seq<Migration>, hostCapacity: nat, gpuCapacity: nat, ghost extra: int,
                 frontier: seq<Node>, visited: set<set<nat>>, node: Node, index: nat)
    returns (frontier': seq<Node>, visited': set<set<nat>>)
    requires SearchingBut(ms, hostCapacity, gpuCapacity, extra, frontier, visited, node.remaining)
    requires NodeOk(ms, hostCapacity, gpuCapacity, node) && index < |ms|
    ensures SearchingBut(ms, hostCapacity, gpuCapacity, extra, frontier', visited', node.remaining)
    ensures visited <= visited' && (visited' == visited ==> frontier' == frontier)
    ensures index in node.remaining && Within(MaskAfter(ms, node.remaining - {index}), hostCapacity, gpuCapacity) ==>
              node.remaining - {index} in visited'
  {
    assert node.gpu == -node.host;
    hide SearchingBut, NodeOk, MaskAfter;
    frontier', visited' := frontier, visited;
    if index !in node.remaining { return; }
    var m := ms[index];
    var nextHost, nextGpu;
    if m.destination.Cuda? {
      nextHost, nextGpu := node.host - m.nbytes, node.gpu + m.nbytes;
    } else {
      nextHost, nextGpu := node.host + m.nbytes, node.gpu - m.nbytes;
    }
    NextHost(ms, hostCapacity, gpuCapacity, node, index);
    if nextHost > hostCapacity || nextGpu > gpuCapacity { return; }
    var nextRemaining := node.remaining - {index};
    if nextRemaining in visited { return; }
    var next := Node(nextRemaining, nextHost, nextGpu, node.order + [index]);
    PushMove(ms, hostCapacity, gpuCapacity, extra, frontier, visited, node, index, next);
    frontier', visited' := frontier + [next], visited + {nextRemaining};
  }

  lemma PushMove(ms: seq<Migration>, hostCapacity: int, gpuCapacity: int, extra: int,
                 frontier: seq<Node>, visited: set<set<nat>>, node: Node, i: nat, next: Node)
    requires SearchingBut(ms, hostCapacity, gpuCapacity, extra, frontier, visited, node.remaining)
    requires NodeOk(ms, hostCapacity, gpuCapacity, node) && i in node.remaining && i < |ms|
    requires Within(node.host + HostDelta(ms[i]), hostCapacity, gpuCapacity)
    requires next == Node(node.remaining - {i}, node.host + HostDelta(ms[i]), node.gpu - HostDelta(ms[i]), node.order + [i])
    ensures SearchingBut(ms, hostCapacity, gpuCapacity, extra, frontier + [next], visited + {next.remaining}, node.remaining)
  {
    ExtendNode(ms, hostCapacity, gpuCapacity, node, i);
    hide NodeOk, SearchingBut;
    PushState(ms, hostCapacity, gpuCapacity, extra, frontier, visited, node.remaining, next);
  }

  lemma TriedNext(ms: seq<Migration>, hostCapacity: int, gpuCapacity: int, visited: set<set<nat>>,
                  visited': set<set<nat>>,
                  remaining: set<nat>, n: nat)
    requires Tried(ms, hostCapacity, gpuCapacity, visited, remaining, n) && visited <= visited'
    requires n in remaining && Within(MaskAfter(ms, remaining - {n}), hostCapacity, gpuCapacity) ==> remaining - {n} in visited'
    ensures Tried(ms, hostCapacity, gpuCapacity, visited', remaining, n + 1)
  {
  }

  lemma AllTriedIsExpanded(ms: seq<Migration>, hostCapacity: int, gpuCapacity: int, extra: int,
                           frontier: seq<Node>, visited: set<set<nat>>, busy: set<nat>)
    requires SearchingBut(ms, hostCapacity, gpuCapacity, extra, frontier, visited, busy)
    requires Tried(ms, hostCapacity, gpuCapacity, visited, busy, |ms|) && busy != {}
    ensures Searching(ms, hostCapacity, gpuCapacity, extra, frontier, visited)
  {
    assert Expanded(ms, hostCapacity, gpuCapacity, extra, visited, busy);
  }

  lemma NextHost(ms: seq<Migration>, hostCapacity: int, gpuCapacity: int, node: Node, i: nat)
    requires NodeOk(ms, hostCapacity, gpuCapacity, node) && i in node.remaining && i < |ms|
    ensures node.host + HostDelta(ms[i]) == MaskAfter(ms, node.remaining - {i})
  {
    MaskDeterminesHost(ms, node.order);
    MaskHostWithout(ms, node.remaining, i, |ms|);
  }
}
