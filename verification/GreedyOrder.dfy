/** The greedy pass over storage moves, and what ordering as a whole achieves. */
module GreedyOrder {
  import opened MigrationOrder

  // ---------------------------------------------------------------------------
  // The tie-break: Python compares (nbytes, names) lexicographically
  // ---------------------------------------------------------------------------

  predicate StringLess(a: string, b: string) {
    if b == "" then false else if a == "" then true else a[0] < b[0] || (a[0] == b[0] && StringLess(a[1..], b[1..]))
  }

  predicate NamesLess(a: seq<string>, b: seq<string>) {
    if b == [] then false else if a == [] then true
    else StringLess(a[0], b[0]) || (a[0] == b[0] && NamesLess(a[1..], b[1..]))
  }

  predicate KeyLess(a: Migration, b: Migration) {
    a.nbytes < b.nbytes || (a.nbytes == b.nbytes && NamesLess(a.names, b.names))
  }

  lemma {:induction false} StringOrder(a: string, b: string, c: string)
    ensures !StringLess(a, b) && !StringLess(b, a) ==> a == b
    ensures StringLess(a, b) ==> !StringLess(b, a)
    ensures StringLess(a, b) && StringLess(b, c) ==> StringLess(a, c)
  {
    if a != "" && b != "" {
      StringOrder(a[1..], b[1..], if c == "" then "" else c[1..]);
      assert a == [a[0]] + a[1..] && b == [b[0]] + b[1..];
    }
  }

  lemma {:induction false} NamesOrder(a: seq<string>, b: seq<string>, c: seq<string>)
    ensures !NamesLess(a, b) && !NamesLess(b, a) ==> a == b
    ensures NamesLess(a, b) ==> !NamesLess(b, a)
    ensures NamesLess(a, b) && NamesLess(b, c) ==> NamesLess(a, c)
  {
    if a != [] && b != [] {
      NamesOrder(a[1..], b[1..], if c == [] then [] else c[1..]);
      StringOrder(a[0], b[0], if c == [] then "" else c[0]);
      assert a == [a[0]] + a[1..] && b == [b[0]] + b[1..];
    }
  }

  /** What is not above the old maximum is not above a larger one. */
  lemma MaxStaysMax(old_: Migration, new_: Migration, m: Migration)
    requires KeyLess(old_, new_) && !KeyLess(old_, m)
    ensures !KeyLess(new_, m)
  {
    NamesOrder(old_.names, new_.names, m.names);
    NamesOrder(m.names, old_.names, new_.names);
    NamesOrder(new_.names, m.names, old_.names);
  }

  // ---------------------------------------------------------------------------
  // The greedy choice
  // ---------------------------------------------------------------------------

  predicate InRange(ms: seq<Migration>, indices: seq<nat>) {
    forall k :: 0 <= k < |indices| ==> indices[k] < |ms|
  }

  function Bytes(ms: seq<Migration>, pending: seq<nat>, promotions: bool): nat
    requires InRange(ms, pending)
  {
    if pending == [] then 0
    else
      var m := ms[pending[0]];
      (if m.destination.Cuda? == promotions then m.nbytes else 0) + Bytes(ms, pending[1..], promotions)
  }

  /** The pending moves of one direction that fit on top of `used`. */
  function Fitting(ms: seq<Migration>, pending: seq<nat>, promotions: bool, used: int, capacity: int): (r: seq<nat>)
    requires InRange(ms, pending)
    ensures forall i :: i in r <==> i in pending && ms[i].destination.Cuda? == promotions && used + ms[i].nbytes <= capacity
  {
    if pending == [] then []
    else
      var m := ms[pending[0]];
      (if m.destination.Cuda? == promotions && used + m.nbytes <= capacity then [pending[0]] else []) +
      Fitting(ms, pending[1..], promotions, used, capacity)
  }

  /** The moves among which the next one is chosen, at `host` bytes above the start. */
  function Candidates(ms: seq<Migration>, pending: seq<nat>, host: int, extra: int, hostCapacity: int,
                      gpuCapacity: int): seq<nat>
    requires InRange(ms, pending)
  {
    var demotions := Fitting(ms, pending, false, host, hostCapacity);
    var promotions := Fitting(ms, pending, true, -host, gpuCapacity);
    if -host + Bytes(ms, pending, true) + extra > gpuCapacity && demotions != [] then demotions
    else if host + Bytes(ms, pending, false) > hostCapacity && promotions != [] then promotions
    else if promotions != [] then promotions
    else demotions
  }

  ghost predicate IsLargest(ms: seq<Migration>, candidates: seq<nat>, i: nat)
    requires InRange(ms, candidates)
  {
    i in candidates && forall j :: j in candidates ==> !KeyLess(ms[i], ms[j])
  }

  method MaxByKey(ms: seq<Migration>, candidates: seq<nat>) returns (best: nat)
    requires candidates != [] && InRange(ms, candidates)
    ensures IsLargest(ms, candidates, best)
  {
    best := candidates[0];
    NamesOrder(ms[best].names, ms[best].names, ms[best].names);
    for k := 1 to |candidates|
      invariant best in candidates
      invariant forall j :: 0 <= j < k ==> !KeyLess(ms[best], ms[candidates[j]])
    {
      var i := candidates[k];
      assert i in candidates;
      if KeyLess(ms[best], ms[i]) {
        forall j | 0 <= j < k ensures !KeyLess(ms[i], ms[candidates[j]]) {
          MaxStaysMax(ms[best], ms[i], ms[candidates[j]]);
        }
        NamesOrder(ms[i].names, ms[i].names, ms[i].names);
        best := i;
      } else {
        NamesOrder(ms[best].names, ms[best].names, ms[best].names);
      }
    }
    assert forall j :: j in candidates ==> exists k :: 0 <= k < |candidates| && candidates[k] == j;
  }

  /** list.remove */
  function Without(pending: seq<nat>, i: nat): (r: seq<nat>)
    requires i in pending
    ensures |r| == |pending| - 1 && forall j :: j in r ==> j in pending
  {
    if pending[0] == i then pending[1..] else [pending[0]] + Without(pending[1..], i)
  }

  lemma {:induction false} WithoutOnce(pending: seq<nat>, i: nat)
    requires i in pending && forall a, b :: 0 <= a < b < |pending| ==> pending[a] != pending[b]
    ensures var r := Without(pending, i);
            Elements(r) == Elements(pending) - {i} && forall a, b :: 0 <= a < b < |r| ==> r[a] != r[b]
  {
    assert pending == [pending[0]] + pending[1..];
    assert Elements(pending) == Elements(pending[1..]) + {pending[0]};
    assert pending[0] !in pending[1..];
    if pending[0] != i {
      WithoutOnce(pending[1..], i);
      var r := Without(pending[1..], i);
      assert pending[0] !in Elements(r);
      assert Elements([pending[0]] + r) == {pending[0]} + Elements(r);
    }
  }

  // ---------------------------------------------------------------------------
  // The whole ordering
  // ---------------------------------------------------------------------------

  datatype OrderResult =
    | Ordered(order: seq<nat>, searched: bool)
    | OutOfCapacity(requiredHost: int, requiredGpu: int)
    | SearchLimit

  function FirstN(n: nat): (r: seq<nat>)
    ensures |r| == n && forall i :: 0 <= i < n ==> r[i] == i
  {
    seq(n, i => i)
  }

  /** What is pending after the moves of `order`, in the order given. */
  ghost function PendingAfter(ms: seq<Migration>, order: seq<nat>): seq<nat> {
    if order == [] then FirstN(|ms|)
    else
      var before := PendingAfter(ms, order[..|order| - 1]);
      if order[|order| - 1] in before then Without(before, order[|order| - 1]) else before
  }

  /** Each move is a largest of the candidates at its turn. */
  ghost predicate Greedy(ms: seq<Migration>, order: seq<nat>, extra: int, hostCapacity: int, gpuCapacity: int) {
    forall k :: 0 <= k < |order| ==> GreedyAt(ms, order, k, extra, hostCapacity, gpuCapacity)
  }

  ghost predicate GreedyAt(ms: seq<Migration>, order: seq<nat>, k: nat, extra: int, hostCapacity: int, gpuCapacity: int)
    requires k < |order|
  {
    var pending := PendingAfter(ms, order[..k]);
    InRange(ms, pending) &&
    var candidates := Candidates(ms, pending, Host(ms, order[..k]), extra, hostCapacity, gpuCapacity);
    InRange(ms, candidates) && IsLargest(ms, candidates, order[k])
  }

  /** A greedy beginning after which moves are left and none can be chosen. */
  ghost predicate DeadEnd(ms: seq<Migration>, order: seq<nat>, extra: int, hostCapacity: int, gpuCapacity: int) {
    var pending := PendingAfter(ms, order);
    && Moves(ms, order) && Greedy(ms, order, extra, hostCapacity, gpuCapacity) && pending != [] && InRange(ms, pending)
    && Candidates(ms, pending, Host(ms, order), extra, hostCapacity, gpuCapacity) == []
  }

  /** ordered and pending split the moves, and everything so far fits and was greedy. */
  ghost predicate Progress(ms: seq<Migration>, extra: int, hostCapacity: int, gpuCapacity: int,
                           pending: seq<nat>, ordered: seq<nat>) {
    && Moves(ms, pending) && Moves(ms, ordered)
    && Elements(pending) == Below(|ms|) - Elements(ordered)
    && pending == PendingAfter(ms, ordered)
    && Feasible(ms, ordered, hostCapacity, gpuCapacity) && Greedy(ms, ordered, extra, hostCapacity, gpuCapacity)
  }

  lemma TakeMove(ms: seq<Migration>, extra: int, hostCapacity: int, gpuCapacity: int,
                 pending: seq<nat>, ordered: seq<nat>, i: nat)
    requires Progress(ms, extra, hostCapacity, gpuCapacity, pending, ordered) && i in pending && InRange(ms, pending)
    requires var candidates := Candidates(ms, pending, Host(ms, ordered), extra, hostCapacity, gpuCapacity);
             InRange(ms, candidates) && IsLargest(ms, candidates, i)
    requires Within(Host(ms, ordered) + HostDelta(ms[i]), hostCapacity, gpuCapacity)
    ensures Progress(ms, extra, hostCapacity, gpuCapacity, Without(pending, i), ordered + [i])
  {
    hide Feasible, Moves, Greedy, GreedyAt, Candidates, InRange, IsLargest, PendingAfter;
    MoveSplits(ms, pending, ordered, i);
    MoveIsGreedy(ms, extra, hostCapacity, gpuCapacity, pending, ordered, i);
    FeasibleExtends(ms, ordered, i, hostCapacity, gpuCapacity);
    GreedyExtends(ms, ordered, i, extra, hostCapacity, gpuCapacity);
  }

  lemma MoveSplits(ms: seq<Migration>, pending: seq<nat>, ordered: seq<nat>, i: nat)
    requires Moves(ms, pending) && Moves(ms, ordered) && Elements(pending) == Below(|ms|) - Elements(ordered) && i in pending
    ensures i < |ms| && Moves(ms, Without(pending, i)) && Moves(ms, ordered + [i])
    ensures Elements(Without(pending, i)) == Below(|ms|) - Elements(ordered + [i])
  {
    WithoutOnce(pending, i);
    assert i in Elements(pending);
    MovesExtend(ms, ordered, i);
    HostExtends(ms, ordered, i);
  }

  lemma MoveIsGreedy(ms: seq<Migration>, extra: int, hostCapacity: int, gpuCapacity: int,
                     pending: seq<nat>, ordered: seq<nat>, i: nat)
    requires pending == PendingAfter(ms, ordered) && i in pending && InRange(ms, pending)
    requires var candidates := Candidates(ms, pending, Host(ms, ordered), extra, hostCapacity, gpuCapacity);
             InRange(ms, candidates) && IsLargest(ms, candidates, i)
    ensures GreedyAt(ms, ordered + [i], |ordered|, extra, hostCapacity, gpuCapacity)
    ensures PendingAfter(ms, ordered + [i]) == Without(pending, i)
  {
    assert (ordered + [i])[..|ordered|] == ordered;
  }

  lemma GreedyExtends(ms: seq<Migration>, ordered: seq<nat>, i: nat, extra: int, hostCapacity: int, gpuCapacity: int)
    requires Greedy(ms, ordered, extra, hostCapacity, gpuCapacity)
    requires GreedyAt(ms, ordered + [i], |ordered|, extra, hostCapacity, gpuCapacity)
    ensures Greedy(ms, ordered + [i], extra, hostCapacity, gpuCapacity)
  {
    var order := ordered + [i];
    forall k | 0 <= k < |order| ensures GreedyAt(ms, order, k, extra, hostCapacity, gpuCapacity) {
      if k < |ordered| {
        assert order[..k] == ordered[..k] && GreedyAt(ms, ordered, k, extra, hostCapacity, gpuCapacity);
      }
    }
  }

  lemma CandidateFits(ms: seq<Migration>, pending: seq<nat>, host: int, extra: int, hostCapacity: int,
                      gpuCapacity: int, i: nat)
    requires InRange(ms, pending) && Within(host, hostCapacity, gpuCapacity)
    requires i in Candidates(ms, pending, host, extra, hostCapacity, gpuCapacity)
    ensures i in pending && i < |ms| && Within(host + HostDelta(ms[i]), hostCapacity, gpuCapacity)
  {
  }

  lemma CandidatesInRange(ms: seq<Migration>, pending: seq<nat>, host: int, extra: int, hostCapacity: int,
                          gpuCapacity: int)
    requires InRange(ms, pending)
    ensures InRange(ms, Candidates(ms, pending, host, extra, hostCapacity, gpuCapacity))
  {
    var r := Candidates(ms, pending, host, extra, hostCapacity, gpuCapacity);
    forall k | 0 <= k < |r| ensures r[k] < |ms| {
      assert r[k] in pending;
    }
  }

  /** final_host: what the error reports. */
  function FinalHost(ms: seq<Migration>): int {
    if ms == [] then 0 else FinalHost(ms[..|ms| - 1]) + HostDelta(ms[|ms| - 1])
  }

  lemma {:induction false} FinalHostIsMask(ms: seq<Migration>, n: nat)
    requires n <= |ms|
    ensures FinalHost(ms[..n]) == MaskHost(ms, {}, n)
  {
    if n > 0 {
      assert ms[..n][..n - 1] == ms[..n - 1];
      FinalHostIsMask(ms, n - 1);
    }
  }

  /** The bytes after all the moves do not depend on their order. */
  lemma OrderingReachesFinalHost(ms: seq<Migration>, order: seq<nat>)
    requires IsOrdering(ms, order)
    ensures Host(ms, order) == FinalHost(ms)
  {
    OrderingLeavesNone(ms, order);
    MaskDeterminesHost(ms, order);
    assert Below(|ms|) - Elements(order) == {};
    FinalHostIsMask(ms, |ms|);
    assert ms[..|ms|] == ms;
  }

  /** An order fits after every move; the capacity error means that none does and leaves room. */
  ghost predicate OrderedRightly(ms: seq<Migration>, extra: int, hostCapacity: int, gpuCapacity: int, limit: nat,
                                 r: OrderResult) {
    match r
    case Ordered(order, searched) =>
      && IsOrdering(ms, order) && Feasible(ms, order, hostCapacity, gpuCapacity)
      && (searched ==> -Host(ms, order) + extra <= gpuCapacity)
    case OutOfCapacity(host, gpu) =>
      NoOrderingFits(ms, hostCapacity, gpuCapacity, extra) && host == FinalHost(ms) && gpu == -FinalHost(ms) + extra
    case SearchLimit => |ReachableSets(ms, hostCapacity, gpuCapacity)| >= limit
  }

  method OrderMigrations(ms: seq<Migration>, extra: nat, hostCapacity: nat, gpuCapacity: nat,
                         limit: nat) returns (r: OrderResult)
    ensures OrderedRightly(ms, extra, hostCapacity, gpuCapacity, limit, r)
    ensures r.Ordered? && !r.searched ==> Greedy(ms, r.order, extra, hostCapacity, gpuCapacity)
    ensures !r.Ordered? || r.searched ==> exists dead :: DeadEnd(ms, dead, extra, hostCapacity, gpuCapacity)
  {
    var pending, ordered: seq<nat> := FirstN(|ms|), [];
    var host, gpu := 0, 0;
    NothingMoved(ms, extra, hostCapacity, gpuCapacity);
    while pending != []
      invariant Progress(ms, extra, hostCapacity, gpuCapacity, pending, ordered)
      invariant host == Host(ms, ordered) && gpu == -host
      decreases |pending|
    {
      assert ordered[..|ordered|] == ordered;
      assert Within(host, hostCapacity, gpuCapacity);
      PendingInRange(ms, pending);
      CandidatesInRange(ms, pending, host, extra, hostCapacity, gpuCapacity);
      var candidates := Candidates(ms, pending, host, extra, hostCapacity, gpuCapacity);
      if candidates == [] {
        // Greedy choices can dead-end.
        assert DeadEnd(ms, ordered, extra, hostCapacity, gpuCapacity);
        r := SearchInstead(ms, extra, hostCapacity, gpuCapacity, limit);
        return;
      }
      var i := MaxByKey(ms, candidates);
      CandidateFits(ms, pending, host, extra, hostCapacity, gpuCapacity, i);
      TakeMove(ms, extra, hostCapacity, gpuCapacity, pending, ordered, i);
      host, gpu := host + HostDelta(ms[i]), gpu - HostDelta(ms[i]);
      HostExtends(ms, ordered, i);
      pending, ordered := Without(pending, i), ordered + [i];
    }
    NonePendingIsOrdering(ms, ordered);
    r := Ordered(ordered, false);
  }

  lemma NothingMoved(ms: seq<Migration>, extra: nat, hostCapacity: nat, gpuCapacity: nat)
    ensures Progress(ms, extra, hostCapacity, gpuCapacity, FirstN(|ms|), [])
  {
    var none: seq<nat> := [];
    assert Elements(FirstN(|ms|)) == Below(|ms|) - Elements(none) by {
      forall i: nat | i < |ms| ensures i in FirstN(|ms|) { assert FirstN(|ms|)[i] == i; }
    }
    NothingMovedFits(ms, hostCapacity, gpuCapacity);
  }

  lemma PendingInRange(ms: seq<Migration>, pending: seq<nat>)
    requires Moves(ms, pending)
    ensures InRange(ms, pending)
  {
    assert forall k :: 0 <= k < |pending| ==> pending[k] in pending;
  }

  lemma NonePendingIsOrdering(ms: seq<Migration>, ordered: seq<nat>)
    requires Moves(ms, ordered) && Elements([]) == Below(|ms|) - Elements(ordered)
    ensures IsOrdering(ms, ordered)
  {
    assert Elements([]) == {};
    assert Elements(ordered) <= Below(|ms|);
    OrderingLeavesNone(ms, ordered);
  }

  /** No move fits: search from the start before reporting a lack of capacity. */
  method SearchInstead(ms: seq<Migration>, extra: nat, hostCapacity: nat, gpuCapacity: nat,
                       limit: nat) returns (r: OrderResult)
    ensures OrderedRightly(ms, extra, hostCapacity, gpuCapacity, limit, r) && (r.Ordered? ==> r.searched)
  {
    var fallback := FindMigrationOrder(ms, hostCapacity, gpuCapacity, extra, limit);
    match fallback
    case Found(order) => r := Ordered(order, true);
    case LimitExceeded => r := SearchLimit;
    case NotFound => r := OutOfCapacity(FinalHost(ms), -FinalHost(ms) + extra);
  }
}
