/** Read after write: whenever a layer computes, its block holds its own data. */
module LoaderReads {
  import opened Timeline
  import opened Streams
  import opened PrefetchPolicy
  import opened LoaderProtocol

  ghost predicate CopiesInto(op: Op, b: int) { op.Copy? && op.block == b }

  /** x's copy at i is the last one issued into block b before j. */
  ghost predicate LastCopy(tr: Trace, b: int, x: Label, i: nat, j: nat)
    requires j <= |tr|
  {
    i < j && tr[i] == Copy(x, b) && forall k :: i < k < j ==> !CopiesInto(tr[k], b)
  }

  /** The last copy into x's block before the compute at j is x's, and happens before it. */
  ghost predicate ReadsItsData(s: Schedule, tr: Trace, x: Label, j: nat)
    requires s.Slot(x) && j < |tr|
  {
    exists i: nat :: LastCopy(tr, s.block[x], x, i, j) && HappensBefore(tr, i, j)
  }

  /** Every compute issued so far read the data of every transfer mapped to it. */
  ghost predicate EveryReadIsRight(s: Schedule, tr: Trace) {
    forall j: nat, x {:trigger ReadsItsData(s, tr, x, j)} ::
      j < |tr| && tr[j].Compute? && s.Slot(x) && s.compute[x] == tr[j].layer ==> ReadsItsData(s, tr, x, j)
  }

  // ---------------------------------------------------------------------------
  // Traces only grow
  // ---------------------------------------------------------------------------

  lemma AwaitedGrows(tr: Trace, tr': Trace, i: nat, j: nat, j': nat, waiter: Stream)
    requires tr <= tr' && Awaited(tr, i, j, waiter) && j <= |tr| && j <= j'
    ensures Awaited(tr', i, j', waiter)
  {
    var w: nat :| i < w <= j && w < |tr| && IsWaitPast(tr, i, w, waiter);
    assert IsWaitPast(tr', i, w, waiter);
  }

  lemma {:induction false} HappensBeforeGrows(tr: Trace, tr': Trace, i: nat, j: nat)
    requires tr <= tr' && i < |tr| && j < |tr|
    ensures HappensBefore(tr, i, j) ==> HappensBefore(tr', i, j)
    decreases j
  {
    if HappensBefore(tr, i, j) && i != j {
      var k: nat :| i <= k < j && Edge(tr, k, j) && HappensBefore(tr, i, k);
      HappensBeforeGrows(tr, tr', i, k);
      assert Edge(tr', k, j);
    }
  }

  lemma ReadsStayRight(s: Schedule, tr: Trace, tr': Trace)
    requires tr <= tr' && EveryReadIsRight(s, tr) && forall j :: |tr| <= j < |tr'| ==> !tr'[j].Compute?
    ensures EveryReadIsRight(s, tr')
  {
    forall j: nat, x | j < |tr'| && tr'[j].Compute? && s.Slot(x) && s.compute[x] == tr'[j].layer
      ensures ReadsItsData(s, tr', x, j)
    {
      assert ReadsItsData(s, tr, x, j);
      ReadStaysRight(s, tr, tr', x, j);
    }
  }

  lemma ReadStaysRight(s: Schedule, tr: Trace, tr': Trace, x: Label, j: nat)
    requires tr <= tr' && s.Slot(x) && j < |tr| && ReadsItsData(s, tr, x, j)
    ensures ReadsItsData(s, tr', x, j)
  {
    var i: nat :| LastCopy(tr, s.block[x], x, i, j) && HappensBefore(tr, i, j);
    HappensBeforeGrows(tr, tr', i, j);
    assert LastCopy(tr', s.block[x], x, i, j);
  }

  // ---------------------------------------------------------------------------
  // The invariant between operations
  // ---------------------------------------------------------------------------

  /** The compute stream has waited for the copy at i. */
  ghost predicate Arrived(st: Loader, i: nat) { Awaited(st.issued, i, |st.issued|, ComputeStream) }

  ghost predicate AllArrived(st: Loader) {
    forall i: nat {:trigger Arrived(st, i)} :: i < |st.issued| && st.issued[i].Copy? ==> Arrived(st, i)
  }

  ghost predicate IsRecord(tr: Trace, e: nat, on: Stream) { e < |tr| && tr[e] == Record(on) }

  /** Handles point at records, and without pending work nothing is in flight. */
  ghost predicate Sound(s: Schedule, st: Loader) {
    && OccupantsKnown(s, st)
    && (forall l :: l in st.scheduled ==> IsRecord(st.issued, st.scheduled[l], TransferStream))
    && (forall l :: l in st.computeEvents ==> IsRecord(st.issued, st.computeEvents[l], ComputeStream))
    && (!st.pending ==> AllArrived(st))
  }

  ghost predicate WaitedOrScheduled(st: Loader, i: nat, key: Label) {
    Arrived(st, i) || (key in st.scheduled && i < st.scheduled[key])
  }

  /** x's block holds x's data: it has arrived, or the reordered loader will wait for it. */
  ghost predicate HasData(v: Variant, s: Schedule, st: Loader, x: Label)
    requires s.Slot(x)
  {
    exists i: nat :: LastCopy(st.issued, s.block[x], x, i, |st.issued|) &&
      (Arrived(st, i) || (v.Reordered? && WaitedOrScheduled(st, i, s.compute[x])))
  }

  ghost predicate HasArrived(s: Schedule, st: Loader, x: Label)
    requires s.Slot(x)
  {
    exists i: nat :: LastCopy(st.issued, s.block[x], x, i, |st.issued|) && Arrived(st, i)
  }

  /** x was copied in before layer p and is read by layer p or later. */
  ghost predicate Live(s: Schedule, x: Label, p: int)
    requires s.Known(x)
  {
    var t, c := s.Pos(x), s.To(x);
    if c < t then p <= c || t < p else t < p <= c
  }

  /** Between layers: p is the next to enter, |stats| stands for the end of the forward. */
  ghost predicate Between(v: Variant, s: Schedule, st: Loader, p: nat)
    requires s.WellPlaced()
  {
    && Sound(s, st) && EveryReadIsRight(s, st.issued)
    && (p == 0 || p == |s.stats| ==> !st.pending && st.computeEvents == map[])
    && forall x {:trigger HasData(v, s, st, x)} :: s.Slot(x) && Live(s, x, p) ==> HasData(v, s, st, x)
  }

  /** After growing a trace without copying into x's block, x's data is still there. */
  lemma DataStays(v: Variant, s: Schedule, st: Loader, st': Loader, x: Label)
    requires s.Slot(x) && HasData(v, s, st, x) && st.issued <= st'.issued
    requires forall k :: |st.issued| <= k < |st'.issued| ==> !CopiesInto(st'.issued[k], s.block[x])
    requires v.Reordered? && s.compute[x] in st.scheduled ==>
               s.compute[x] in st'.scheduled && st'.scheduled[s.compute[x]] >= st.scheduled[s.compute[x]]
    ensures HasData(v, s, st', x)
  {
    var i: nat :| LastCopy(st.issued, s.block[x], x, i, |st.issued|) &&
      (Arrived(st, i) || (v.Reordered? && WaitedOrScheduled(st, i, s.compute[x])));
    assert LastCopy(st'.issued, s.block[x], x, i, |st'.issued|);
    if Arrived(st, i) { AwaitedGrows(st.issued, st'.issued, i, |st.issued|, |st'.issued|, ComputeStream); }
  }

  lemma ArrivedStays(s: Schedule, st: Loader, st': Loader, x: Label)
    requires s.Slot(x) && HasArrived(s, st, x) && st.issued <= st'.issued
    requires forall k :: |st.issued| <= k < |st'.issued| ==> !CopiesInto(st'.issued[k], s.block[x])
    ensures HasArrived(s, st', x)
  {
    var i: nat :| LastCopy(st.issued, s.block[x], x, i, |st.issued|) && Arrived(st, i);
    assert LastCopy(st'.issued, s.block[x], x, i, |st'.issued|);
    AwaitedGrows(st.issued, st'.issued, i, |st.issued|, |st'.issued|, ComputeStream);
  }

  lemma SoundGrows(s: Schedule, st: Loader, st': Loader)
    requires Sound(s, st) && st.issued <= st'.issued && st'.pending == st.pending
    requires forall k :: |st.issued| <= k < |st'.issued| ==> !st'.issued[k].Copy?
    requires st'.scheduled == st.scheduled && st'.computeEvents == st.computeEvents && st'.occupant == st.occupant
    ensures Sound(s, st')
  {
    if !st'.pending {
      forall i: nat | i < |st'.issued| && st'.issued[i].Copy? ensures Arrived(st', i) {
        assert Arrived(st, i);
        AwaitedGrows(st.issued, st'.issued, i, |st.issued|, |st'.issued|, ComputeStream);
      }
    }
  }

  /** A join makes every copy issued before it arrive. */
  lemma JoinStreamsArrives(st: Loader)
    ensures AllArrived(JoinStreams(st))
  {
    var st' := JoinStreams(st);
    var w := |st.issued| + 1;
    forall i: nat | i < |st'.issued| && st'.issued[i].Copy? ensures Arrived(st', i) {
      assert IsWaitPast(st'.issued, i, w, ComputeStream);
    }
  }

  // ---------------------------------------------------------------------------
  // One layer keeps the invariant
  // ---------------------------------------------------------------------------

  /** Inside layer p, before its copy: what p reads has arrived. */
  ghost predicate Entered(v: Variant, s: Schedule, st: Loader, p: nat)
    requires s.WellPlaced()
  {
    && Sound(s, st) && EveryReadIsRight(s, st.issued) && st.pending
    && (forall x :: s.Slot(x) && Live(s, x, p) ==> HasData(v, s, st, x))
    && (forall x :: s.Slot(x) && Live(s, x, p) && s.To(x) == p ==> HasArrived(s, st, x))
  }

  /** The reordered loader's wait on entry, or the rolling loader's on exit. */
  lemma AwaitMakesArrive(s: Schedule, st: Loader, l: Label, b: int, x: Label, i: nat)
    requires Sound(s, st) && LastCopy(st.issued, b, x, i, |st.issued|) && WaitedOrScheduled(st, i, l)
    ensures var st' := AwaitTransfer(st, l); LastCopy(st'.issued, b, x, i, |st'.issued|) && Arrived(st', i)
  {
    var st' := AwaitTransfer(st, l);
    if Arrived(st, i) {
      AwaitedGrows(st.issued, st'.issued, i, |st.issued|, |st'.issued|, ComputeStream);
    } else {
      assert IsWaitPast(st'.issued, i, |st.issued|, ComputeStream);
    }
  }

  lemma AwaitKeeps(v: Variant, s: Schedule, st: Loader, l: Label, p: nat)
    requires s.WellPlaced() && Sound(s, st) && EveryReadIsRight(s, st.issued)
    ensures var st' := AwaitTransfer(st, l); Sound(s, st') && EveryReadIsRight(s, st'.issued)
    ensures forall x :: s.Slot(x) && HasData(v, s, st, x) ==> HasData(v, s, AwaitTransfer(st, l), x)
    ensures forall x :: s.Slot(x) && HasArrived(s, st, x) ==> HasArrived(s, AwaitTransfer(st, l), x)
  {
    var st' := AwaitTransfer(st, l);
    SoundGrows(s, st, st');
    ReadsStayRight(s, st.issued, st'.issued);
    forall x | s.Slot(x) && HasData(v, s, st, x) ensures HasData(v, s, st', x) { DataStays(v, s, st, st', x); }
    forall x | s.Slot(x) && HasArrived(s, st, x) ensures HasArrived(s, st', x) { ArrivedStays(s, st, st', x); }
  }

  lemma ForkKeeps(v: Variant, s: Schedule, st: Loader, p: nat)
    requires s.WellPlaced() && Sound(s, st) && EveryReadIsRight(s, st.issued)
    requires forall x :: s.Slot(x) && Live(s, x, p) ==> HasData(v, s, st, x)
    ensures var st' := Fork(st); Sound(s, st') && EveryReadIsRight(s, st'.issued) && st'.pending
    ensures forall x :: s.Slot(x) && Live(s, x, p) ==> HasData(v, s, Fork(st), x)
  {
    var st' := Fork(st);
    SoundGrows(s, st, st'.(pending := st.pending));
    ReadsStayRight(s, st.issued, st'.issued);
    forall x | s.Slot(x) && Live(s, x, p) ensures HasData(v, s, st', x) { DataStays(v, s, st, st', x); }
  }

  lemma StartKeeps(v: Variant, s: Schedule, st: Loader)
    requires Loadable(s) && Between(v, s, st, 0)
    ensures Sound(s, StartForward(st)) && StartForward(st).issued == st.issued
    ensures forall x :: s.Slot(x) && HasData(v, s, st, x) ==> HasData(v, s, StartForward(st), x)
  {
    var a := StartForward(st);
    forall x | s.Slot(x) && HasData(v, s, st, x) ensures HasData(v, s, a, x) { DataStays(v, s, st, a, x); }
    forall i: nat | i < |a.issued| && a.issued[i].Copy? ensures Arrived(a, i) { assert Arrived(st, i); }
  }

  lemma BeginEnters(v: Variant, s: Schedule, st: Loader, p: nat)
    requires Loadable(s) && p < |s.stats| && Between(v, s, st, p)
    ensures Entered(v, s, Begin(v, s, st, s.stats[p]), p)
  {
    var l := s.stats[p];
    var a := if l == FirstLayer(s) then StartForward(st) else st;
    if l == FirstLayer(s) {
      assert p == 0;
      StartKeeps(v, s, st);
    }
    ForkKeeps(v, s, a, p);
    if v.Reordered? {
      AwaitKeeps(v, s, Fork(a), l, p);
      AwaitedDataArrives(v, s, Fork(a), p);
    }
  }

  lemma AwaitedDataArrives(v: Variant, s: Schedule, st: Loader, p: nat)
    requires Loadable(s) && p < |s.stats| && Sound(s, st)
    requires forall x :: s.Slot(x) && Live(s, x, p) ==> HasData(v, s, st, x)
    ensures forall x :: s.Slot(x) && Live(s, x, p) && s.To(x) == p ==> HasArrived(s, AwaitTransfer(st, s.stats[p]), x)
  {
    var l := s.stats[p];
    forall x | s.Slot(x) && Live(s, x, p) && s.To(x) == p ensures HasArrived(s, AwaitTransfer(st, l), x) {
      assert HasData(v, s, st, x) && s.compute[x] == l;
      var i: nat :| LastCopy(st.issued, s.block[x], x, i, |st.issued|) &&
        (Arrived(st, i) || (v.Reordered? && WaitedOrScheduled(st, i, s.compute[x])));
      AwaitMakesArrive(s, st, l, s.block[x], x, i);
    }
  }

  /** After layer p's copy was issued. */
  ghost predicate Scheduled(v: Variant, s: Schedule, st: Loader, p: nat)
    requires s.WellPlaced() && p < |s.stats|
  {
    var l := s.stats[p];
    && Sound(s, st) && EveryReadIsRight(s, st.issued) && st.pending
    && (forall x :: s.Slot(x) && x != l && Live(s, x, p) ==> HasData(v, s, st, x))
    && (forall x :: s.Slot(x) && x != l && Live(s, x, p) && s.To(x) == p ==> HasArrived(s, st, x))
    && (s.Slot(l) ==> exists i: nat :: LastCopy(st.issued, s.block[l], l, i, |st.issued|) && WaitedOrScheduled(st, i, WaitKey(v, s, l)))
  }

  /** A live transfer's block is not the one that layer p's own copy goes to. */
  lemma LiveBlockDiffers(s: Schedule, x: Label, p: nat)
    requires s.WellPlaced() && s.OverlapFree() && p < |s.stats| && s.Slot(x) && s.Slot(s.stats[p]) && x != s.stats[p]
    requires Live(s, x, p)
    ensures s.block[x] != s.block[s.stats[p]]
  {
    var y := s.stats[p];
    assert !s.Clash(x, y);
    assert s.Pos(y) == p && InArc(p, s.Pos(x), s.To(x)) && InArc(p, s.Pos(y), s.To(y));
  }

  lemma CopyKeepsSound(v: Variant, s: Schedule, st: Loader, l: Label)
    requires s.WellPlaced() && s.Slot(l) && Sound(s, st) && EveryReadIsRight(s, st.issued) && st.pending
    ensures var st' := ScheduleCopy(v, s, st, l);
            && Sound(s, st') && EveryReadIsRight(s, st'.issued) && st'.pending
            && exists i: nat :: LastCopy(st'.issued, s.block[l], l, i, |st'.issued|) && WaitedOrScheduled(st', i, WaitKey(v, s, l))
  {
    var st' := ScheduleCopy(v, s, st, l);
    ReadsStayRight(s, st.issued, st'.issued);
    assert LastCopy(st'.issued, s.block[l], l, |st'.issued| - 2, |st'.issued|);
  }

  lemma OthersStay(v: Variant, s: Schedule, st: Loader, st': Loader, p: nat, x: Label)
    requires s.WellPlaced() && s.OverlapFree() && p < |s.stats| && Entered(v, s, st, p) && s.Slot(s.stats[p])
    requires st' == ScheduleCopy(v, s, st, s.stats[p])
    requires s.Slot(x) && x != s.stats[p] && Live(s, x, p)
    ensures HasData(v, s, st', x) && (s.To(x) == p ==> HasArrived(s, st', x))
  {
    LiveBlockDiffers(s, x, p);
    DataStays(v, s, st, st', x);
    if s.To(x) == p { ArrivedStays(s, st, st', x); }
  }

  lemma CopySchedules(v: Variant, s: Schedule, st: Loader, p: nat)
    requires Loadable(s) && s.OverlapFree() && p < |s.stats| && Entered(v, s, st, p) && s.Slot(s.stats[p])
    ensures Scheduled(v, s, ScheduleCopy(v, s, st, s.stats[p]), p)
  {
    var l := s.stats[p];
    var st' := ScheduleCopy(v, s, st, l);
    CopyKeepsSound(v, s, st, l);
    forall x | s.Slot(x) && x != l && Live(s, x, p)
      ensures HasData(v, s, st', x) && (s.To(x) == p ==> HasArrived(s, st', x))
    {
      OthersStay(v, s, st, st', p, x);
    }
  }

  lemma EnterSchedules(v: Variant, s: Schedule, st: Loader, p: nat)
    requires Loadable(s) && s.OverlapFree() && p < |s.stats| && Between(v, s, st, p)
    ensures Scheduled(v, s, Enter(v, s, st, s.stats[p]), p)
  {
    BeginEnters(v, s, st, p);
    if s.stats[p] in s.block { CopySchedules(v, s, Begin(v, s, st, s.stats[p]), p); }
  }

  /** A compute issued now reads what has arrived. */
  lemma ArrivedIsRead(s: Schedule, st: Loader, l: Label, x: Label)
    requires s.Slot(x) && HasArrived(s, st, x)
    ensures ReadsItsData(s, st.issued + [Compute(l)], x, |st.issued|)
  {
    var tr, j := st.issued + [Compute(l)], |st.issued|;
    var i: nat :| LastCopy(st.issued, s.block[x], x, i, j) && Arrived(st, i);
    AwaitedGrows(st.issued, tr, i, j, j, ComputeStream);
    HappensBeforeAcross(tr, i, j);
    assert LastCopy(tr, s.block[x], x, i, j);
  }

  lemma NextReadIsRight(s: Schedule, tr: Trace, l: Label)
    requires EveryReadIsRight(s, tr)
    requires forall x :: s.Slot(x) && s.compute[x] == l ==> ReadsItsData(s, tr + [Compute(l)], x, |tr|)
    ensures EveryReadIsRight(s, tr + [Compute(l)])
  {
    var tr' := tr + [Compute(l)];
    forall k: nat, x | k < |tr'| && tr'[k].Compute? && s.Slot(x) && s.compute[x] == tr'[k].layer
      ensures ReadsItsData(s, tr', x, k)
    {
      if k < |tr| {
        assert ReadsItsData(s, tr, x, k);
        ReadStaysRight(s, tr, tr', x, k);
      }
    }
  }

  lemma WhatComputesHasArrived(v: Variant, s: Schedule, st: Loader, p: nat, x: Label)
    requires Loadable(s) && s.OverlapFree() && p < |s.stats| && Scheduled(v, s, st, p)
    requires s.Slot(x) && s.compute[x] == s.stats[p]
    ensures HasArrived(s, st, x)
  {
    assert !s.Clash(x, x);
    assert s.To(x) == p && Live(s, x, p) && x != s.stats[p];
  }

  /** The compute of layer p reads what has arrived. */
  lemma ComputeReads(v: Variant, s: Schedule, st: Loader, p: nat)
    requires Loadable(s) && s.OverlapFree() && p < |s.stats| && Scheduled(v, s, st, p)
    ensures Scheduled(v, s, Issue(st, [Compute(s.stats[p])]), p)
  {
    var l := s.stats[p];
    var st' := Issue(st, [Compute(l)]);
    SoundGrows(s, st, st');
    forall x | s.Slot(x) && s.compute[x] == l ensures ReadsItsData(s, st'.issued, x, |st.issued|) {
      WhatComputesHasArrived(v, s, st, p, x);
      ArrivedIsRead(s, st, l, x);
    }
    NextReadIsRight(s, st.issued, l);
    ScheduledGrows(v, s, st, st', p);
  }

  /** Operations that are neither copies nor change the maps keep every copy's standing. */
  lemma ScheduledGrows(v: Variant, s: Schedule, st: Loader, st': Loader, p: nat)
    requires s.WellPlaced() && p < |s.stats| && Scheduled(v, s, st, p) && st.issued <= st'.issued
    requires forall k :: |st.issued| <= k < |st'.issued| ==> !st'.issued[k].Copy?
    requires Sound(s, st') && EveryReadIsRight(s, st'.issued) && st'.pending && st'.scheduled == st.scheduled
    ensures Scheduled(v, s, st', p)
  {
    var l := s.stats[p];
    forall x | s.Slot(x) && x != l && Live(s, x, p)
      ensures HasData(v, s, st', x) && (s.To(x) == p ==> HasArrived(s, st', x))
    {
      DataStays(v, s, st, st', x);
      if s.To(x) == p { ArrivedStays(s, st, st', x); }
    }
    if s.Slot(l) {
      var i: nat :| LastCopy(st.issued, s.block[l], l, i, |st.issued|) && WaitedOrScheduled(st, i, WaitKey(v, s, l));
      assert LastCopy(st'.issued, s.block[l], l, i, |st'.issued|);
      if Arrived(st, i) { AwaitedGrows(st.issued, st'.issued, i, |st.issued|, |st'.issued|, ComputeStream); }
    }
  }

  /** After layer p, before any join: what is live next has its data. */
  ghost predicate Left(v: Variant, s: Schedule, st: Loader, p: nat)
    requires s.WellPlaced()
  {
    && Sound(s, st) && EveryReadIsRight(s, st.issued) && st.pending
    && forall x :: s.Slot(x) && Live(s, x, p + 1) ==> HasData(v, s, st, x)
  }

  /** The copy issued at l has its data once the rolling loader's exit has waited. */
  lemma OwnCopyHasData(v: Variant, s: Schedule, st: Loader, l: Label)
    requires s.WellPlaced() && s.Slot(l) && Sound(s, st)
    requires exists i: nat :: LastCopy(st.issued, s.block[l], l, i, |st.issued|) && WaitedOrScheduled(st, i, WaitKey(v, s, l))
    ensures HasData(v, s, if v.Rolling? then AwaitTransfer(st, l) else st, l)
  {
    var i: nat :| LastCopy(st.issued, s.block[l], l, i, |st.issued|) && WaitedOrScheduled(st, i, WaitKey(v, s, l));
    if v.Rolling? { AwaitMakesArrive(s, st, l, s.block[l], l, i); }
  }

  lemma RecordKeeps(v: Variant, s: Schedule, st: Loader, l: Label)
    requires s.WellPlaced() && Sound(s, st) && EveryReadIsRight(s, st.issued)
    ensures var st' := RecordCompute(st, l); Sound(s, st') && EveryReadIsRight(s, st'.issued)
    ensures forall x :: s.Slot(x) && HasData(v, s, st, x) ==> HasData(v, s, RecordCompute(st, l), x)
  {
    var st' := RecordCompute(st, l);
    var recorded := st'.(computeEvents := st.computeEvents);
    SoundGrows(s, st, recorded);
    assert AllArrived(recorded) ==> AllArrived(st') by {
      forall i: nat | i < |st'.issued| && Arrived(recorded, i) ensures Arrived(st', i) {}
    }
    ReadsStayRight(s, st.issued, st'.issued);
    forall x | s.Slot(x) && HasData(v, s, st, x) ensures HasData(v, s, st', x) { DataStays(v, s, st, st', x); }
  }

  lemma RecordLeaves(v: Variant, s: Schedule, st: Loader, p: nat)
    requires Loadable(s) && p < |s.stats| && Scheduled(v, s, st, p)
    ensures Left(v, s, RecordCompute(if v.Rolling? then AwaitTransfer(st, s.stats[p]) else st, s.stats[p]), p)
  {
    var l := s.stats[p];
    var a := if v.Rolling? then AwaitTransfer(st, l) else st;
    AwaitKeeps(v, s, st, l, p);
    if s.Slot(l) { OwnCopyHasData(v, s, st, l); }
    RecordKeeps(v, s, a, l);
    forall x | s.Slot(x) && Live(s, x, p + 1) ensures HasData(v, s, a, x) {
      if x != l { LiveNext(s, x, p); }
    }
  }

  lemma LiveNext(s: Schedule, x: Label, p: nat)
    requires s.WellPlaced() && p < |s.stats| && s.Slot(x) && Live(s, x, p + 1) && x != s.stats[p]
    ensures Live(s, x, p)
  {
    assert s.Pos(x) != p;
  }

  /** A join, at a piece boundary or at the end of the forward, lets everything arrive and
      forgets every event, whatever the prefetch policy decides. */
  lemma JoinSettles(v: Variant, s: Schedule, st: Loader, atLastLayer: bool)
    requires s.WellPlaced() && Sound(s, st) && EveryReadIsRight(s, st.issued)
    ensures var st' := Join(st, atLastLayer);
            && Sound(s, st') && EveryReadIsRight(s, st'.issued) && !st'.pending && AllArrived(st')
            && st'.scheduled == map[] && st'.computeEvents == map[] && st'.occupant == map[]
    ensures forall x :: s.Slot(x) && HasData(v, s, st, x) ==> HasData(v, s, Join(st, atLastLayer), x)
  {
    var a := if st.pending then JoinStreams(st) else st;
    var st' := Join(st, atLastLayer);
    JoinStreamsArrives(st);
    assert AllArrived(a);
    assert AllArrived(st') by {
      forall i: nat | i < |st'.issued| && st'.issued[i].Copy? ensures Arrived(st', i) { assert Arrived(a, i); }
    }
    ReadsStayRight(s, st.issued, st'.issued);
    forall x | s.Slot(x) && HasData(v, s, st, x) ensures HasData(v, s, st', x) {
      var i: nat :| LastCopy(st.issued, s.block[x], x, i, |st.issued|) &&
        (Arrived(st, i) || (v.Reordered? && WaitedOrScheduled(st, i, s.compute[x])));
      assert LastCopy(st'.issued, s.block[x], x, i, |st'.issued|) && Arrived(st', i);
    }
  }

  /** One layer of either loader, with or without a join after it. */
  lemma TrapKeeps(v: Variant, s: Schedule, st: Loader, p: nat, join: bool)
    requires Loadable(s) && s.OverlapFree() && p < |s.stats| && Between(v, s, st, p)
    ensures Between(v, s, Trap(v, s, st, s.stats[p], join), p + 1)
  {
    var l := s.stats[p];
    EnterSchedules(v, s, st, p);
    var a := Issue(Enter(v, s, st, l), [Compute(l)]);
    ComputeReads(v, s, Enter(v, s, st, l), p);
    RecordLeaves(v, s, a, p);
    var b := RecordCompute(if v.Rolling? then AwaitTransfer(a, l) else a, l);
    JoinSettles(v, s, b, true);
    var c := Exit(v, s, a, l);
    JoinSettles(v, s, c, false);
  }

  // ---------------------------------------------------------------------------
  // Whole runs
  // ---------------------------------------------------------------------------

  /** `order` lists the wrap-around transfers, each once. */
  ghost predicate PreloadOrder(s: Schedule, order: seq<Label>)
    requires s.WellPlaced()
  {
    Distinct(order) && forall x :: x in order <==> s.Slot(x) && s.To(x) < s.Pos(x)
  }

  /** Tracking keeps the copies as they are and its events after them. */
  ghost predicate Tracked(v: Variant, s: Schedule, joined: Loader, st: Loader) {
    && joined.issued <= st.issued && OccupantsKnown(s, st)
    && (forall k :: |joined.issued| <= k < |st.issued| ==> st.issued[k] == Record(TransferStream))
    && (forall l :: l in st.scheduled ==> IsRecord(st.issued, st.scheduled[l], TransferStream))
    && !st.pending && st.computeEvents == map[] && st.policy == joined.policy
  }

  lemma {:induction false} TrackKeeps(v: Variant, s: Schedule, joined: Loader, order: seq<Label>)
    requires Loadable(s) && (forall x :: x in order ==> x in s.block) && Tracked(v, s, joined, joined)
    ensures Tracked(v, s, joined, TrackPreloads(v, s, joined, order))
  {
    if order != [] { TrackKeeps(v, s, joined, order[..|order| - 1]); }
  }

  lemma PreloadIsReady(v: Variant, s: Schedule, order: seq<Label>, policy: Policy)
    requires Loadable(s) && s.OverlapFree() && PreloadOrder(s, order)
    ensures Between(v, s, Preloaded(v, s, order, policy), 0)
  {
    var copies := Loader(map[], map[], map[], false, policy, PreloadCopies(s, order));
    var joined := JoinStreams(copies);
    TrackKeeps(v, s, joined, order);
    JoinStreamsArrives(copies);
    TrackedIsReady(v, s, order, joined, TrackPreloads(v, s, joined, order));
  }

  lemma TrackedIsReady(v: Variant, s: Schedule, order: seq<Label>, joined: Loader, st: Loader)
    requires Loadable(s) && s.OverlapFree() && PreloadOrder(s, order)
    requires joined.issued == PreloadCopies(s, order) + [Record(TransferStream), Wait(ComputeStream, |order|)]
    requires AllArrived(joined) && Tracked(v, s, joined, st)
    ensures Between(v, s, st, 0)
  {
    TrackedArrives(v, s, joined, st);
    TrackedComputesNothing(v, s, order, joined, st);
    PreloadedIsLive(v, s, order, joined, st);
  }

  lemma PreloadedIsLive(v: Variant, s: Schedule, order: seq<Label>, joined: Loader, st: Loader)
    requires Loadable(s) && s.OverlapFree() && PreloadOrder(s, order)
    requires joined.issued == PreloadCopies(s, order) + [Record(TransferStream), Wait(ComputeStream, |order|)]
    requires AllArrived(st) && Tracked(v, s, joined, st)
    ensures forall x :: s.Slot(x) && Live(s, x, 0) ==> HasData(v, s, st, x)
  {
    assert st.issued[..|order|] == PreloadCopies(s, order);
    forall x | s.Slot(x) && Live(s, x, 0) ensures HasData(v, s, st, x) {
      PreloadedHasData(v, s, order, st, x);
    }
  }

  lemma TrackedArrives(v: Variant, s: Schedule, joined: Loader, st: Loader)
    requires AllArrived(joined) && Tracked(v, s, joined, st)
    ensures AllArrived(st)
  {
    forall i: nat | i < |st.issued| && st.issued[i].Copy? ensures Arrived(st, i) {
      assert Arrived(joined, i);
      AwaitedGrows(joined.issued, st.issued, i, |joined.issued|, |st.issued|, ComputeStream);
    }
  }

  lemma TrackedComputesNothing(v: Variant, s: Schedule, order: seq<Label>, joined: Loader, st: Loader)
    requires (forall x :: x in order ==> x in s.block) && Tracked(v, s, joined, st)
    requires joined.issued == PreloadCopies(s, order) + [Record(TransferStream), Wait(ComputeStream, |order|)]
    ensures EveryReadIsRight(s, st.issued)
  {
    forall j: nat | j < |st.issued| ensures !st.issued[j].Compute? {
      assert j < |joined.issued| ==> st.issued[j] == joined.issued[j];
    }
  }

  /** Two preloads wrap around, so they are for different blocks. */
  lemma PreloadsApart(s: Schedule, order: seq<Label>, i: nat, k: nat)
    requires s.WellPlaced() && s.OverlapFree() && PreloadOrder(s, order)
    requires i < k < |order| && s.Slot(order[i]) && s.Slot(order[k])
    ensures s.block[order[k]] != s.block[order[i]]
  {
    var x, y := order[i], order[k];
    assert x in order && y in order && x != y && !s.Clash(y, x);
    assert InArc(0, s.Pos(x), s.To(x)) && InArc(0, s.Pos(y), s.To(y));
  }

  lemma PreloadedHasData(v: Variant, s: Schedule, order: seq<Label>, st: Loader, x: Label)
    requires Loadable(s) && s.OverlapFree() && PreloadOrder(s, order) && s.Slot(x) && Live(s, x, 0)
    requires |order| <= |st.issued| && st.issued[..|order|] == PreloadCopies(s, order)
    requires forall k :: |order| <= k < |st.issued| ==> !st.issued[k].Copy?
    requires AllArrived(st)
    ensures HasData(v, s, st, x)
  {
    var i :| 0 <= i < |order| && order[i] == x;
    forall k | i < k < |st.issued| ensures !CopiesInto(st.issued[k], s.block[x]) {
      if k < |order| {
        assert st.issued[k] == PreloadCopies(s, order)[k];
        assert order[k] in order;
        PreloadsApart(s, order, i, k);
      }
    }
    assert st.issued[i] == PreloadCopies(s, order)[i];
    assert LastCopy(st.issued, s.block[x], x, i, |st.issued|);
    assert Arrived(st, i);
  }

  lemma {:induction false} LayersKeep(v: Variant, s: Schedule, st: Loader, joins: seq<bool>, k: nat)
    requires Loadable(s) && s.OverlapFree() && |joins| == |s.stats| && k <= |s.stats| && Between(v, s, st, 0)
    ensures Between(v, s, Layers(v, s, st, joins, k), k)
  {
    assert OccupantsKnown(s, st);
    hide Trap, Between;
    if k > 0 {
      LayersKeep(v, s, st, joins, k - 1);
      NextLayerKeeps(v, s, st, joins, k);
    }
  }

  lemma NextLayerKeeps(v: Variant, s: Schedule, st: Loader, joins: seq<bool>, k: nat)
    requires Loadable(s) && OccupantsKnown(s, st) && s.OverlapFree() && |joins| == |s.stats| && 0 < k <= |s.stats|
    requires Between(v, s, Layers(v, s, st, joins, k - 1), k - 1)
    ensures Between(v, s, Layers(v, s, st, joins, k), k)
  {
    NextLayerIsTrap(v, s, st, joins, k);
    TrapKeepsAs(v, s, Layers(v, s, st, joins, k - 1), Layers(v, s, st, joins, k), k - 1, joins[k - 1]);
  }

  lemma NextLayerIsTrap(v: Variant, s: Schedule, st: Loader, joins: seq<bool>, k: nat)
    requires Loadable(s) && OccupantsKnown(s, st) && |joins| == |s.stats| && 0 < k <= |s.stats|
    ensures Layers(v, s, st, joins, k) == Trap(v, s, Layers(v, s, st, joins, k - 1), s.stats[k - 1], joins[k - 1])
  {
  }

  lemma TrapKeepsAs(v: Variant, s: Schedule, st: Loader, st': Loader, p: nat, join: bool)
    requires Loadable(s) && s.OverlapFree() && p < |s.stats| && Between(v, s, st, p)
    requires st' == Trap(v, s, st, s.stats[p], join)
    ensures Between(v, s, st', p + 1)
  {
    TrapKeeps(v, s, st, p, join);
  }

  lemma {:induction false} ForwardsKeep(v: Variant, s: Schedule, st: Loader, script: seq<seq<bool>>)
    requires Loadable(s) && s.OverlapFree() && (forall f :: f in script ==> |f| == |s.stats|) && Between(v, s, st, 0)
    ensures Between(v, s, Forwards(v, s, st, script), 0)
  {
    if script != [] {
      var before := Forwards(v, s, st, script[..|script| - 1]);
      ForwardsKeep(v, s, st, script[..|script| - 1]);
      LayersKeep(v, s, before, script[|script| - 1], |s.stats|);
      var after := Layers(v, s, before, script[|script| - 1], |s.stats|);
      forall x | s.Slot(x) && Live(s, x, 0) ensures HasData(v, s, after, x) { assert Live(s, x, |s.stats|); }
    }
  }

  /** For every overlap-free schedule, either loader, any prefetch policy, any number of
      complete forwards after the preload with joins after any layers, and any number of
      layers of the next forward: every compute read its own data, copied in before it. */
  lemma EveryRunReadsItsData(v: Variant, s: Schedule, order: seq<Label>, policy: Policy,
                             script: seq<seq<bool>>, joins: seq<bool>, k: nat)
    requires Loadable(s) && s.OverlapFree() && PreloadOrder(s, order)
    requires (forall f :: f in script ==> |f| == |s.stats|) && |joins| == |s.stats| && k <= |s.stats|
    ensures var st := Forwards(v, s, Preloaded(v, s, order, policy), script);
            EveryReadIsRight(s, Layers(v, s, st, joins, k).issued)
  {
    PreloadIsReady(v, s, order, policy);
    ForwardsKeep(v, s, Preloaded(v, s, order, policy), script);
    LayersKeep(v, s, Forwards(v, s, Preloaded(v, s, order, policy), script), joins, k);
  }

  // ---------------------------------------------------------------------------
  // A schedule with a transfer that wraps around
  // ---------------------------------------------------------------------------

  /** One block, copied in at l[3] for l[0] of the next forward and at l[1] for l[2]. */
  function WrapAround(l: seq<Label>): Schedule
    requires |l| == 4
  {
    Schedule(l, map[l[3] := l[0], l[1] := l[2]], map[l[3] := 0, l[1] := 0])
  }

  lemma WrapAroundIsLoadable(l: seq<Label>)
    requires |l| == 4 && Distinct(l)
    ensures var s := WrapAround(l); Loadable(s) && s.OverlapFree() && PreloadOrder(s, [l[3]])
    ensures forall i :: 0 <= i < 4 ==> WrapAround(l).Pos(l[i]) == i
  {
    var s := WrapAround(l);
    forall x, y | s.Known(x) && s.Known(y) ensures !s.Clash(x, y) {
      ArcsMeet(s.Pos(x), s.To(x), s.Pos(y), s.To(y), 4);
    }
  }

  const NO_JOINS := [false, false, false, false]
}
