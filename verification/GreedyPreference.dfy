/** Which move the greedy pass takes, told by the moves that are left and the room there is. */
module GreedyPreference {
  import opened MigrationOrder
  import opened GreedyOrder

  ghost predicate IsLeft(ms: seq<Migration>, order: seq<nat>, k: nat, i: nat)
    requires k <= |order|
  {
    i < |ms| && i !in order[..k]
  }

  /** The move fits with `host` bytes above the start on the host and as many less on the GPU. */
  predicate Fits(m: Migration, host: int, hostCapacity: int, gpuCapacity: int) {
    if m.destination.Cuda? then m.nbytes - host <= gpuCapacity else host + m.nbytes <= hostCapacity
  }

  /** Bytes still to move to the GPU, of the first n moves. */
  ghost function PromotionsLeft(ms: seq<Migration>, done: set<nat>, n: nat): nat
    requires n <= |ms|
  {
    if n == 0 then 0
    else PromotionsLeft(ms, done, n - 1) + if n - 1 !in done && ms[n - 1].destination.Cuda? then ms[n - 1].nbytes else 0
  }

  lemma {:induction false} LeftAfter(ms: seq<Migration>, done: set<nat>, i: nat, n: nat)
    requires n <= |ms| && i !in done
    ensures PromotionsLeft(ms, done + {i}, n) ==
            PromotionsLeft(ms, done, n) - if i < n && ms[i].destination.Cuda? then ms[i].nbytes else 0
  {
    if n > 0 { LeftAfter(ms, done, i, n - 1); }
  }

  lemma {:induction false} BytesWithout(ms: seq<Migration>, pending: seq<nat>, i: nat)
    requires InRange(ms, pending) && i in pending
    ensures InRange(ms, Without(pending, i)) && i < |ms|
    ensures Bytes(ms, Without(pending, i), true) == Bytes(ms, pending, true) - if ms[i].destination.Cuda? then ms[i].nbytes else 0
  {
    if pending[0] != i {
      BytesWithout(ms, pending[1..], i);
      var rest := Without(pending[1..], i);
      assert ([pending[0]] + rest)[1..] == rest;
    }
  }

  lemma {:induction false} BytesAppend(ms: seq<Migration>, a: seq<nat>, i: nat)
    requires InRange(ms, a) && i < |ms|
    ensures InRange(ms, a + [i])
    ensures Bytes(ms, a + [i], true) == Bytes(ms, a, true) + if ms[i].destination.Cuda? then ms[i].nbytes else 0
  {
    if a != [] {
      BytesAppend(ms, a[1..], i);
      assert (a + [i])[1..] == a[1..] + [i];
    }
  }

  lemma {:induction false} AllLeft(ms: seq<Migration>, n: nat)
    requires n <= |ms|
    ensures InRange(ms, FirstN(n)) && Bytes(ms, FirstN(n), true) == PromotionsLeft(ms, {}, n)
  {
    if n > 0 {
      AllLeft(ms, n - 1);
      BytesAppend(ms, FirstN(n - 1), n - 1);
      assert FirstN(n) == FirstN(n - 1) + [n - 1];
    }
  }

  ghost predicate AreLeft(ms: seq<Migration>, order: seq<nat>, pending: seq<nat>) {
    forall i: nat :: i in pending <==> i < |ms| && i !in order
  }

  /** What is pending is what is left. */
  lemma {:induction false} PendingIsLeft(ms: seq<Migration>, order: seq<nat>)
    requires Moves(ms, order)
    ensures var p := PendingAfter(ms, order);
            && Moves(ms, p) && InRange(ms, p) && AreLeft(ms, order, p)
            && Bytes(ms, p, true) == PromotionsLeft(ms, Elements(order), |ms|)
  {
    if order == [] {
      AllLeft(ms, |ms|);
      assert Elements(order) == {};
      forall i: nat ensures i in FirstN(|ms|) <==> i < |ms| {
        if i < |ms| { assert FirstN(|ms|)[i] == i; }
      }
    } else {
      var before, i := order[..|order| - 1], order[|order| - 1];
      assert order == before + [i];
      PrefixMoves(ms, order, |order| - 1);
      PendingIsLeft(ms, before);
      NextIsLeft(ms, before, PendingAfter(ms, before), i);
    }
  }

  lemma PrefixMoves(ms: seq<Migration>, order: seq<nat>, k: nat)
    requires Moves(ms, order) && k <= |order|
    ensures Moves(ms, order[..k]) && forall i :: k <= i < |order| ==> order[i] !in order[..k] && order[i] < |ms|
  {
    forall i | i in order[..k] ensures i < |ms| { assert i in order; }
    forall i | k <= i < |order| ensures order[i] < |ms| { assert order[i] in order; }
  }

  lemma NextIsLeft(ms: seq<Migration>, before: seq<nat>, p: seq<nat>, i: nat)
    requires Moves(ms, p) && InRange(ms, p) && AreLeft(ms, before, p) && i < |ms| && i !in before
    requires Bytes(ms, p, true) == PromotionsLeft(ms, Elements(before), |ms|)
    ensures i in p && var r := Without(p, i);
            && Moves(ms, r) && InRange(ms, r) && AreLeft(ms, before + [i], r)
            && Bytes(ms, r, true) == PromotionsLeft(ms, Elements(before + [i]), |ms|)
  {
    assert Elements(before + [i]) == Elements(before) + {i};
    BytesWithout(ms, p, i);
    LeftAfter(ms, Elements(before), i, |ms|);
    LeftWithout(ms, p, i);
  }

  lemma LeftWithout(ms: seq<Migration>, p: seq<nat>, i: nat)
    requires Moves(ms, p) && i in p
    ensures Moves(ms, Without(p, i)) && forall j: nat :: j in Without(p, i) <==> j in p && j != i
  {
    WithoutOnce(p, i);
    forall j: nat ensures j in Without(p, i) <==> j in p && j != i {
      assert j in Elements(Without(p, i)) <==> j in Elements(p) - {i};
    }
  }

  ghost predicate FitsNow(ms: seq<Migration>, order: seq<nat>, k: nat, promotions: bool, hostCapacity: int, gpuCapacity: int, i: nat)
    requires k <= |order|
  {
    IsLeft(ms, order, k, i) && ms[i].destination.Cuda? == promotions &&
    Fits(ms[i], Host(ms, order[..k]), hostCapacity, gpuCapacity)
  }

  ghost predicate SomeFits(ms: seq<Migration>, order: seq<nat>, k: nat, promotions: bool, hostCapacity: int, gpuCapacity: int)
    requires k <= |order|
  {
    exists i: nat :: FitsNow(ms, order, k, promotions, hostCapacity, gpuCapacity, i)
  }

  /** The direction that is due: to the host exactly when some move there fits and either all
      that is left to promote is more than the GPU has room for, or no promotion fits. */
  ghost predicate HostIsDue(ms: seq<Migration>, order: seq<nat>, k: nat, extra: nat, hostCapacity: int, gpuCapacity: int)
    requires k <= |order|
  {
    && SomeFits(ms, order, k, false, hostCapacity, gpuCapacity)
    && (PromotionsLeft(ms, Elements(order[..k]), |ms|) + extra > gpuCapacity + Host(ms, order[..k]) ||
        !SomeFits(ms, order, k, true, hostCapacity, gpuCapacity))
  }

  /** Each move of a greedy order goes the way that is due, and is the largest that can. */
  lemma GreedyPrefers(ms: seq<Migration>, order: seq<nat>, k: nat, extra: nat, hostCapacity: nat, gpuCapacity: nat)
    requires IsOrdering(ms, order) && Greedy(ms, order, extra, hostCapacity, gpuCapacity) && k < |order|
    ensures var promotions := !HostIsDue(ms, order, k, extra, hostCapacity, gpuCapacity);
            && FitsNow(ms, order, k, promotions, hostCapacity, gpuCapacity, order[k])
            && forall j: nat :: FitsNow(ms, order, k, promotions, hostCapacity, gpuCapacity, j) ==> !KeyLess(ms[order[k]], ms[j])
  {
    PrefixMoves(ms, order, k);
    PendingIsLeft(ms, order[..k]);
    assert GreedyAt(ms, order, k, extra, hostCapacity, gpuCapacity);
    CandidatesAreDue(ms, order, k, PendingAfter(ms, order[..k]), extra, hostCapacity, gpuCapacity);
  }

  /** Where the greedy pass gives up, moves are left and none of them fits. */
  lemma DeadEndFitsNothing(ms: seq<Migration>, order: seq<nat>, extra: nat, hostCapacity: nat, gpuCapacity: nat)
    requires DeadEnd(ms, order, extra, hostCapacity, gpuCapacity)
    ensures exists i: nat :: IsLeft(ms, order, |order|, i)
    ensures forall i: nat :: IsLeft(ms, order, |order|, i) ==> !Fits(ms[i], Host(ms, order), hostCapacity, gpuCapacity)
  {
    assert order[..|order|] == order;
    PendingIsLeft(ms, order);
    var pending := PendingAfter(ms, order);
    assert pending[0] in pending && IsLeft(ms, order, |order|, pending[0]);
    FittingNow(ms, order, |order|, pending, true, hostCapacity, gpuCapacity);
    FittingNow(ms, order, |order|, pending, false, hostCapacity, gpuCapacity);
    forall i: nat | IsLeft(ms, order, |order|, i) ensures !Fits(ms[i], Host(ms, order), hostCapacity, gpuCapacity) {
      assert !FitsNow(ms, order, |order|, ms[i].destination.Cuda?, hostCapacity, gpuCapacity, i);
    }
  }

  /** The moves listed are those that fit now. */
  ghost predicate AreFitting(ms: seq<Migration>, order: seq<nat>, k: nat, promotions: bool,
                             hostCapacity: int, gpuCapacity: int, fitting: seq<nat>)
    requires k <= |order|
  {
    forall i: nat :: i in fitting <==> FitsNow(ms, order, k, promotions, hostCapacity, gpuCapacity, i)
  }

  lemma CandidatesAreDue(ms: seq<Migration>, order: seq<nat>, k: nat, pending: seq<nat>, extra: nat,
                         hostCapacity: int, gpuCapacity: int)
    requires k < |order| && InRange(ms, pending) && AreLeft(ms, order[..k], pending)
    requires Bytes(ms, pending, true) == PromotionsLeft(ms, Elements(order[..k]), |ms|)
    requires Candidates(ms, pending, Host(ms, order[..k]), extra, hostCapacity, gpuCapacity) != []
    ensures AreFitting(ms, order, k, !HostIsDue(ms, order, k, extra, hostCapacity, gpuCapacity), hostCapacity, gpuCapacity,
                       Candidates(ms, pending, Host(ms, order[..k]), extra, hostCapacity, gpuCapacity))
  {
    FittingNow(ms, order, k, pending, true, hostCapacity, gpuCapacity);
    FittingNow(ms, order, k, pending, false, hostCapacity, gpuCapacity);
    hide SomeFits, AreFitting, Fitting, Host, Bytes, PromotionsLeft, Elements, AreLeft, InRange;
  }

  lemma FittingNow(ms: seq<Migration>, order: seq<nat>, k: nat, pending: seq<nat>, promotions: bool,
                   hostCapacity: int, gpuCapacity: int)
    requires k <= |order| && InRange(ms, pending) && AreLeft(ms, order[..k], pending)
    ensures var host := Host(ms, order[..k]);
            var fitting := if promotions then Fitting(ms, pending, true, -host, gpuCapacity)
                           else Fitting(ms, pending, false, host, hostCapacity);
            && AreFitting(ms, order, k, promotions, hostCapacity, gpuCapacity, fitting)
            && (fitting != [] <==> SomeFits(ms, order, k, promotions, hostCapacity, gpuCapacity))
  {
    var host := Host(ms, order[..k]);
    var fitting := if promotions then Fitting(ms, pending, true, -host, gpuCapacity)
                   else Fitting(ms, pending, false, host, hostCapacity);
    forall i: nat ensures i in fitting <==> FitsNow(ms, order, k, promotions, hostCapacity, gpuCapacity, i) {
      assert i in pending <==> IsLeft(ms, order, k, i);
    }
    if fitting != [] { assert fitting[0] in fitting; }
  }
}
