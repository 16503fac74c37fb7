/** What a layer waits for besides its own data: exactly which copies of a piece happen before the
  compute of a layer, and so which are left to overlap with it. */
module LoaderOverlap {
  import opened Timeline
  import opened Streams
  import opened PrefetchPolicy
  import opened LoaderProtocol
  import opened LoaderReads
  import opened LoaderWrites
  import opened WriteAfterRead

  /** The copy issued by layer u was to be waited for before layer d: by the exit of layer u
      in the rolling loader, by the layer that needs the data in the reordered one. */
  ghost predicate DueBefore(v: Variant, s: Schedule, u: int, d: int)
    requires s.WellPlaced()
  {
    0 <= u < d && u < |s.stats| && s.Slot(s.stats[u]) && (v.Rolling? || u < s.To(s.stats[u]) < d)
  }

  // ---------------------------------------------------------------------------
  // A piece as it is issued
  // ---------------------------------------------------------------------------

  /** `ev[u]` is the event recorded just after the copy of layer u. Layer q began the piece,
      after `base` operations. */
  ghost predicate IsEvent(s: Schedule, tr: Trace, base: nat, ev: seq<nat>, u: int)
    requires s.WellPlaced() && 0 <= u < |ev| && u < |s.stats| && s.Slot(s.stats[u])
  {
    base < ev[u] < |tr| && tr[ev[u]] == Record(TransferStream) &&
    tr[ev[u] - 1] == Copy(s.stats[u], s.block[s.stats[u]])
  }

  ghost predicate EventsRise(s: Schedule, tr: Trace, base: nat, q: nat, ev: seq<nat>)
    requires s.WellPlaced() && |ev| <= |s.stats|
  {
    && (forall u :: q <= u < |ev| && s.Slot(s.stats[u]) ==> IsEvent(s, tr, base, ev, u))
    && forall u, u' :: q <= u < u' < |ev| && s.Slot(s.stats[u]) && s.Slot(s.stats[u']) ==> ev[u] < ev[u']
  }

  ghost predicate IsCopyOf(s: Schedule, q: nat, ev: seq<nat>, i: nat, u: int)
    requires s.WellPlaced() && |ev| <= |s.stats|
  {
    q <= u < |ev| && s.Slot(s.stats[u]) && i + 1 == ev[u]
  }

  ghost predicate IsCopy(tr: Trace, i: nat) { i < |tr| && tr[i].Copy? }

  ghost predicate OnlyCopies(s: Schedule, tr: Trace, base: nat, q: nat, ev: seq<nat>)
    requires s.WellPlaced() && |ev| <= |s.stats|
  {
    forall i: nat :: base <= i && IsCopy(tr, i) ==> exists u :: IsCopyOf(s, q, ev, i, u)
  }

  ghost predicate IsDue(v: Variant, s: Schedule, q: nat, d: nat, ev: seq<nat>, e: nat, u: int)
    requires s.WellPlaced() && |ev| <= |s.stats|
  {
    q <= u < |ev| && DueBefore(v, s, u, d) && e == ev[u]
  }

  ghost predicate IsWait(tr: Trace, w: nat) { w < |tr| && tr[w].Wait? && tr[w].on == ComputeStream }

  /** The compute stream waited only for what came before the piece and for what was due. */
  ghost predicate OnlyDue(v: Variant, s: Schedule, tr: Trace, base: nat, q: nat, ev: seq<nat>, d: nat)
    requires s.WellPlaced() && |ev| <= |s.stats|
  {
    forall w: nat :: base <= w && IsWait(tr, w) ==> tr[w].event < base || exists u :: IsDue(v, s, q, d, ev, tr[w].event, u)
  }

  ghost predicate WaitsFor(s: Schedule, tr: Trace, ev: seq<nat>, u: int, u': int, w: nat)
    requires s.WellPlaced() && |ev| <= |s.stats| && 0 <= u
  {
    u <= u' < |ev| && s.Slot(s.stats[u']) && IsWait(tr, w) && tr[w].event == ev[u'] < w
  }

  /** The compute stream has waited for the copy of layer u or a later one of the piece. */
  ghost predicate Covered(s: Schedule, tr: Trace, ev: seq<nat>, u: int)
    requires s.WellPlaced() && |ev| <= |s.stats| && 0 <= u
  {
    exists u', w: nat :: WaitsFor(s, tr, ev, u, u', w)
  }

  ghost predicate AllDue(v: Variant, s: Schedule, tr: Trace, q: nat, ev: seq<nat>, d: nat)
    requires s.WellPlaced() && |ev| <= |s.stats|
  {
    forall u :: q <= u && DueBefore(v, s, u, d) ==> Covered(s, tr, ev, u)
  }

  ghost predicate IsUnder(v: Variant, s: Schedule, q: nat, ev: seq<nat>, l: Label, e: nat, u: int)
    requires Loadable(s) && |ev| <= |s.stats|
  {
    q <= u < |ev| && s.Slot(s.stats[u]) && WaitKey(v, s, s.stats[u]) == l && e == ev[u]
  }

  /** Under a label is an event from before the piece or one of a copy the label waits for,
      and the newest of those. */
  ghost predicate EventsKept(v: Variant, s: Schedule, st: Loader, base: nat, q: nat, ev: seq<nat>)
    requires Loadable(s) && |ev| <= |s.stats|
  {
    && (forall l :: l in st.scheduled ==>
          st.scheduled[l] < base || exists u :: IsUnder(v, s, q, ev, l, st.scheduled[l], u))
    && forall u :: q <= u < |ev| && s.Slot(s.stats[u]) ==>
          WaitKey(v, s, s.stats[u]) in st.scheduled && ev[u] <= st.scheduled[WaitKey(v, s, s.stats[u])]
  }

  /** Layers q to |ev| - 1 of the piece have issued their copies, and the waits due before
      layer d have been issued. */
  ghost predicate PieceWaits(v: Variant, s: Schedule, st: Loader, base: nat, q: nat, ev: seq<nat>, d: nat)
    requires Loadable(s)
  {
    && |ev| <= |s.stats| && base <= |st.issued|
    && EventsRise(s, st.issued, base, q, ev) && OnlyCopies(s, st.issued, base, q, ev)
    && OnlyDue(v, s, st.issued, base, q, ev, d) && AllDue(v, s, st.issued, q, ev, d)
    && EventsKept(v, s, st, base, q, ev)
  }

  lemma PieceStartsWaitingForNothing(v: Variant, s: Schedule, st: Loader, q: nat)
    requires Loadable(s) && q <= |s.stats| && Sound(s, st)
    ensures PieceWaits(v, s, st, |st.issued|, q, seq(q, i => 0), q)
  {
    forall l | l in st.scheduled ensures st.scheduled[l] < |st.issued| {
      assert IsRecord(st.issued, st.scheduled[l], TransferStream);
    }
  }

  // ---------------------------------------------------------------------------
  // Operations that are neither copies nor waits of the compute stream
  // ---------------------------------------------------------------------------

  ghost predicate Neutral(op: Op) { !op.Copy? && !(op.Wait? && op.on == ComputeStream) }

  lemma NeutralKeeps(v: Variant, s: Schedule, st: Loader, st': Loader, ops: Trace, base: nat, q: nat, ev: seq<nat>, d: nat)
    requires Loadable(s) && PieceWaits(v, s, st, base, q, ev, d)
    requires st'.issued == st.issued + ops && st'.scheduled == st.scheduled && forall op :: op in ops ==> Neutral(op)
    ensures PieceWaits(v, s, st', base, q, ev, d)
  {
    forall i: nat | |st.issued| <= i < |st'.issued| ensures Neutral(st'.issued[i]) {
      assert st'.issued[i] == ops[i - |st.issued|];
    }
    CoveredGrows(v, s, st.issued, st'.issued, q, ev, d);
    RiseGrows(s, st.issued, st'.issued, base, q, ev);
    OnlyCopiesGrows(s, st.issued, st'.issued, base, q, ev);
    OnlyDueGrows(v, s, st.issued, st'.issued, base, q, ev, d);
  }

  lemma RiseGrows(s: Schedule, tr: Trace, tr': Trace, base: nat, q: nat, ev: seq<nat>)
    requires s.WellPlaced() && |ev| <= |s.stats| && tr <= tr' && EventsRise(s, tr, base, q, ev)
    ensures EventsRise(s, tr', base, q, ev)
  {
    forall u | q <= u < |ev| && s.Slot(s.stats[u]) ensures IsEvent(s, tr', base, ev, u) {
      assert IsEvent(s, tr, base, ev, u);
    }
  }

  lemma CoveredGrows(v: Variant, s: Schedule, tr: Trace, tr': Trace, q: nat, ev: seq<nat>, d: nat)
    requires s.WellPlaced() && |ev| <= |s.stats| && tr <= tr' && AllDue(v, s, tr, q, ev, d)
    ensures AllDue(v, s, tr', q, ev, d)
  {
    forall u | q <= u && DueBefore(v, s, u, d) ensures Covered(s, tr', ev, u) {
      assert Covered(s, tr, ev, u);
      var u', w: nat :| WaitsFor(s, tr, ev, u, u', w);
      assert WaitsFor(s, tr', ev, u, u', w);
    }
  }

  lemma OnlyCopiesGrows(s: Schedule, tr: Trace, tr': Trace, base: nat, q: nat, ev: seq<nat>)
    requires s.WellPlaced() && |ev| <= |s.stats| && tr <= tr' && OnlyCopies(s, tr, base, q, ev)
    requires forall i: nat :: base <= i && IsCopy(tr', i) ==> i < |tr|
    ensures OnlyCopies(s, tr', base, q, ev)
  {
    forall i: nat | base <= i && IsCopy(tr', i) ensures exists u :: IsCopyOf(s, q, ev, i, u) {
      assert IsCopy(tr, i);
    }
  }

  lemma OnlyDueGrows(v: Variant, s: Schedule, tr: Trace, tr': Trace, base: nat, q: nat, ev: seq<nat>, d: nat)
    requires s.WellPlaced() && |ev| <= |s.stats| && tr <= tr' && OnlyDue(v, s, tr, base, q, ev, d)
    requires forall w: nat :: base <= w && IsWait(tr', w) ==> w < |tr|
    ensures OnlyDue(v, s, tr', base, q, ev, d)
  {
    forall w: nat | base <= w && IsWait(tr', w)
      ensures tr'[w].event < base || exists u :: IsDue(v, s, q, d, ev, tr'[w].event, u)
    {
      assert IsWait(tr, w) && tr'[w] == tr[w];
    }
  }

  // ---------------------------------------------------------------------------
  // The copy of a layer
  // ---------------------------------------------------------------------------

  /** Layer |ev| issued its copy, or it has none to issue. */
  ghost predicate CopyAppended(v: Variant, s: Schedule, st: Loader, st': Loader, base: nat, q: nat, ev: seq<nat>)
    requires Loadable(s) && |ev| < |s.stats|
  {
    var l := s.stats[|ev|];
    s.Slot(l) && |st'.issued| == |st.issued| + 2 &&
    st'.issued == st.issued + [Copy(l, s.block[l]), Record(TransferStream)] &&
    st'.scheduled == st.scheduled[WaitKey(v, s, l) := |st.issued| + 1]
  }

  lemma CopyKeeps(v: Variant, s: Schedule, st: Loader, st': Loader, base: nat, q: nat, ev: seq<nat>, d: nat)
    requires Loadable(s) && |ev| < |s.stats| && q <= |ev| && PieceWaits(v, s, st, base, q, ev, d)
    requires CopyAppended(v, s, st, st', base, q, ev) && !DueBefore(v, s, |ev|, d)
    ensures PieceWaits(v, s, st', base, q, ev + [|st.issued| + 1], d)
  {
    var ev' := ev + [|st.issued| + 1];
    CopyRises(v, s, st, st', base, q, ev);
    CopyIsOnly(v, s, st, st', base, q, ev);
    CopyIsNotDue(v, s, st, st', base, q, ev, ev', d);
    CopyIsCovered(v, s, st.issued, st'.issued, q, ev, ev', d);
    CopyIsKept(v, s, st, st', base, q, ev);
  }

  lemma CopyRises(v: Variant, s: Schedule, st: Loader, st': Loader, base: nat, q: nat, ev: seq<nat>)
    requires Loadable(s) && |ev| < |s.stats| && q <= |ev| && base <= |st.issued| && EventsRise(s, st.issued, base, q, ev)
    requires CopyAppended(v, s, st, st', base, q, ev)
    ensures EventsRise(s, st'.issued, base, q, ev + [|st.issued| + 1])
  {
    var ev' := ev + [|st.issued| + 1];
    forall u | q <= u < |ev'| && s.Slot(s.stats[u]) ensures IsEvent(s, st'.issued, base, ev', u) {
      if u < |ev| { assert IsEvent(s, st.issued, base, ev, u); }
    }
    forall u, u' | q <= u < u' < |ev'| && s.Slot(s.stats[u]) && s.Slot(s.stats[u']) ensures ev'[u] < ev'[u'] {
      assert IsEvent(s, st.issued, base, ev, u);
    }
  }

  lemma CopyIsOnly(v: Variant, s: Schedule, st: Loader, st': Loader, base: nat, q: nat, ev: seq<nat>)
    requires Loadable(s) && |ev| < |s.stats| && q <= |ev| && OnlyCopies(s, st.issued, base, q, ev)
    requires CopyAppended(v, s, st, st', base, q, ev)
    ensures OnlyCopies(s, st'.issued, base, q, ev + [|st.issued| + 1])
  {
    var ev' := ev + [|st.issued| + 1];
    forall i: nat | base <= i && IsCopy(st'.issued, i) ensures exists u :: IsCopyOf(s, q, ev', i, u) {
      if i < |st.issued| {
        assert IsCopy(st.issued, i);
        var u :| IsCopyOf(s, q, ev, i, u);
        assert IsCopyOf(s, q, ev', i, u);
      } else {
        assert IsCopyOf(s, q, ev', i, |ev|);
      }
    }
  }

  lemma DueStays(v: Variant, s: Schedule, tr: Trace, base: nat, q: nat, ev: seq<nat>, ev': seq<nat>, d: nat)
    requires s.WellPlaced() && |ev| <= |ev'| <= |s.stats| && ev <= ev' && OnlyDue(v, s, tr, base, q, ev, d)
    ensures OnlyDue(v, s, tr, base, q, ev', d)
  {
    forall w: nat | base <= w && IsWait(tr, w)
      ensures tr[w].event < base || exists u :: IsDue(v, s, q, d, ev', tr[w].event, u)
    {
      if tr[w].event >= base {
        var u :| IsDue(v, s, q, d, ev, tr[w].event, u);
        assert IsDue(v, s, q, d, ev', tr[w].event, u);
      }
    }
  }

  lemma CopyIsNotDue(v: Variant, s: Schedule, st: Loader, st': Loader, base: nat, q: nat, ev: seq<nat>, ev': seq<nat>, d: nat)
    requires Loadable(s) && |ev| < |s.stats| && |ev'| == |ev| + 1 && ev <= ev' && OnlyDue(v, s, st.issued, base, q, ev, d)
    requires CopyAppended(v, s, st, st', base, q, ev)
    ensures OnlyDue(v, s, st'.issued, base, q, ev', d)
  {
    DueStays(v, s, st.issued, base, q, ev, ev', d);
    OnlyDueGrows(v, s, st.issued, st'.issued, base, q, ev', d);
  }

  lemma CopyIsCovered(v: Variant, s: Schedule, tr: Trace, tr': Trace, q: nat, ev: seq<nat>, ev': seq<nat>, d: nat)
    requires s.WellPlaced() && |ev| <= |ev'| <= |s.stats| && ev <= ev' && tr <= tr' && AllDue(v, s, tr, q, ev, d)
    ensures AllDue(v, s, tr', q, ev', d)
  {
    forall u | q <= u && DueBefore(v, s, u, d) ensures Covered(s, tr', ev', u) {
      assert Covered(s, tr, ev, u);
      var u', w: nat :| WaitsFor(s, tr, ev, u, u', w);
      assert WaitsFor(s, tr', ev', u, u', w);
    }
  }

  lemma CopyIsKept(v: Variant, s: Schedule, st: Loader, st': Loader, base: nat, q: nat, ev: seq<nat>)
    requires Loadable(s) && |ev| < |s.stats| && q <= |ev| && base <= |st.issued|
    requires EventsRise(s, st.issued, base, q, ev) && EventsKept(v, s, st, base, q, ev)
    requires CopyAppended(v, s, st, st', base, q, ev)
    ensures EventsKept(v, s, st', base, q, ev + [|st.issued| + 1])
  {
    var key, ev' := WaitKey(v, s, s.stats[|ev|]), ev + [|st.issued| + 1];
    forall l | l in st'.scheduled
      ensures st'.scheduled[l] < base || exists u :: IsUnder(v, s, q, ev', l, st'.scheduled[l], u)
    {
      if l == key {
        assert IsUnder(v, s, q, ev', l, st'.scheduled[l], |ev|);
      } else if st.scheduled[l] >= base {
        var u :| IsUnder(v, s, q, ev, l, st.scheduled[l], u);
        assert IsUnder(v, s, q, ev', l, st.scheduled[l], u);
      }
    }
    forall u | q <= u < |ev'| && s.Slot(s.stats[u])
      ensures WaitKey(v, s, s.stats[u]) in st'.scheduled && ev'[u] <= st'.scheduled[WaitKey(v, s, s.stats[u])]
    {
      if u < |ev| { assert IsEvent(s, st.issued, base, ev, u); }
    }
  }

  lemma NoCopyKeeps(v: Variant, s: Schedule, st: Loader, base: nat, q: nat, ev: seq<nat>, d: nat)
    requires Loadable(s) && |ev| < |s.stats| && q <= |ev| && PieceWaits(v, s, st, base, q, ev, d)
    requires !s.Slot(s.stats[|ev|])
    ensures PieceWaits(v, s, st, base, q, ev + [0], d)
  {
    var ev' := ev + [0];
    forall u | q <= u < |ev'| && s.Slot(s.stats[u]) ensures IsEvent(s, st.issued, base, ev', u) {
      assert IsEvent(s, st.issued, base, ev, u);
    }
    forall i: nat | base <= i && IsCopy(st.issued, i) ensures exists u :: IsCopyOf(s, q, ev', i, u) {
      var u :| IsCopyOf(s, q, ev, i, u);
      assert IsCopyOf(s, q, ev', i, u);
    }
    DueStays(v, s, st.issued, base, q, ev, ev', d);
    CopyIsCovered(v, s, st.issued, st.issued, q, ev, ev', d);
    NoCopyIsKept(v, s, st, base, q, ev);
  }

  lemma NoCopyIsKept(v: Variant, s: Schedule, st: Loader, base: nat, q: nat, ev: seq<nat>)
    requires Loadable(s) && |ev| < |s.stats| && q <= |ev| && EventsKept(v, s, st, base, q, ev)
    requires !s.Slot(s.stats[|ev|])
    ensures EventsKept(v, s, st, base, q, ev + [0])
  {
    forall l | l in st.scheduled
      ensures st.scheduled[l] < base || exists u :: IsUnder(v, s, q, ev + [0], l, st.scheduled[l], u)
    {
      if st.scheduled[l] >= base {
        var u :| IsUnder(v, s, q, ev, l, st.scheduled[l], u);
        assert IsUnder(v, s, q, ev + [0], l, st.scheduled[l], u);
      }
    }
  }

  // ---------------------------------------------------------------------------
  // The wait of a layer
  // ---------------------------------------------------------------------------

  /** Layer d waits: the rolling loader after its own copy, the reordered loader before it. */
  lemma AwaitKeepsDue(v: Variant, s: Schedule, st: Loader, base: nat, q: nat, ev: seq<nat>, d: nat)
    requires Loadable(s) && q <= d < |s.stats| && PieceWaits(v, s, st, base, q, ev, d)
    requires |ev| == if v.Rolling? then d + 1 else d
    ensures PieceWaits(v, s, AwaitTransfer(st, s.stats[d]), base, q, ev, d + 1)
  {
    var l := s.stats[d];
    var st' := AwaitTransfer(st, l);
    RiseGrows(s, st.issued, st'.issued, base, q, ev);
    OnlyCopiesGrows(s, st.issued, st'.issued, base, q, ev);
    AwaitIsDue(v, s, st, base, q, ev, d);
    AwaitCovers(v, s, st, base, q, ev, d);
  }

  /** The copies for which layer d waits. */
  lemma DueAtLayer(v: Variant, s: Schedule, u: int, d: nat)
    requires Loadable(s) && 0 <= u <= d < |s.stats| && s.Slot(s.stats[u]) && (v.Reordered? ==> u < d)
    ensures WaitKey(v, s, s.stats[u]) == s.stats[d] <==> DueBefore(v, s, u, d + 1) && !DueBefore(v, s, u, d)
  {
    assert s.stats[s.To(s.stats[u])] == s.compute[s.stats[u]];
  }

  lemma AwaitIsDue(v: Variant, s: Schedule, st: Loader, base: nat, q: nat, ev: seq<nat>, d: nat)
    requires Loadable(s) && q <= d < |s.stats| && |ev| == (if v.Rolling? then d + 1 else d) && |ev| <= |s.stats|
    requires OnlyDue(v, s, st.issued, base, q, ev, d) && EventsKept(v, s, st, base, q, ev)
    ensures OnlyDue(v, s, AwaitTransfer(st, s.stats[d]).issued, base, q, ev, d + 1)
  {
    var l, next := s.stats[d], d + 1;
    var tr := AwaitTransfer(st, l).issued;
    forall w: nat | base <= w && IsWait(tr, w)
      ensures tr[w].event < base || exists u :: IsDue(v, s, q, next, ev, tr[w].event, u)
    {
      if tr[w].event >= base {
        if w < |st.issued| {
          assert IsWait(st.issued, w);
          var u :| IsDue(v, s, q, d, ev, tr[w].event, u);
          assert IsDue(v, s, q, next, ev, tr[w].event, u);
        } else {
          assert tr[w].event == st.scheduled[l];
          var u :| IsUnder(v, s, q, ev, l, st.scheduled[l], u);
          DueAtLayer(v, s, u, d);
          assert IsDue(v, s, q, next, ev, tr[w].event, u);
        }
      }
    }
  }

  lemma AwaitCovers(v: Variant, s: Schedule, st: Loader, base: nat, q: nat, ev: seq<nat>, d: nat)
    requires Loadable(s) && q <= d < |s.stats| && |ev| == (if v.Rolling? then d + 1 else d) && |ev| <= |s.stats|
    requires AllDue(v, s, st.issued, q, ev, d) && EventsKept(v, s, st, base, q, ev) && EventsRise(s, st.issued, base, q, ev)
    ensures AllDue(v, s, AwaitTransfer(st, s.stats[d]).issued, q, ev, d + 1)
  {
    var l := s.stats[d];
    var tr := AwaitTransfer(st, l).issued;
    CoveredGrows(v, s, st.issued, tr, q, ev, d);
    forall u | q <= u && DueBefore(v, s, u, d + 1) ensures Covered(s, tr, ev, u) {
      if !DueBefore(v, s, u, d) {
        DueAtLayer(v, s, u, d);
        AwaitCoversLayer(v, s, st, base, q, ev, d, u);
      }
    }
  }

  lemma AwaitCoversLayer(v: Variant, s: Schedule, st: Loader, base: nat, q: nat, ev: seq<nat>, d: nat, u: nat)
    requires Loadable(s) && q <= u < |ev| <= |s.stats| && d < |s.stats|
    requires s.Slot(s.stats[u]) && WaitKey(v, s, s.stats[u]) == s.stats[d]
    requires EventsKept(v, s, st, base, q, ev) && EventsRise(s, st.issued, base, q, ev)
    ensures Covered(s, AwaitTransfer(st, s.stats[d]).issued, ev, u)
  {
    var l := s.stats[d];
    var tr := AwaitTransfer(st, l).issued;
    assert IsEvent(s, st.issued, base, ev, u);
    var u' :| IsUnder(v, s, q, ev, l, st.scheduled[l], u');
    assert IsEvent(s, st.issued, base, ev, u');
    assert u <= u';
    assert WaitsFor(s, tr, ev, u, u', |st.issued|);
  }

  // ---------------------------------------------------------------------------
  // One layer
  // ---------------------------------------------------------------------------

  /** Inside layer c, the waits due before this layer have been issued. */
  function DueInside(v: Variant, c: nat): nat { if v.Rolling? then c else c + 1 }

  lemma BeginKeepsDue(v: Variant, s: Schedule, st: Loader, base: nat, q: nat, ev: seq<nat>)
    requires Loadable(s) && |ev| < |s.stats| && q <= |ev| && PieceWaits(v, s, st, base, q, ev, |ev|)
    requires |ev| == 0 ==> !st.pending && st.computeEvents == map[]
    ensures PieceWaits(v, s, Begin(v, s, st, s.stats[|ev|]), base, q, ev, DueInside(v, |ev|))
  {
    hide PieceWaits;
    var l := s.stats[|ev|];
    assert l == FirstLayer(s) <==> |ev| == 0;
    var started := if l == FirstLayer(s) then StartForward(st) else st;
    var a := Fork(started);
    var ops := if st.pending then [] else [Record(ComputeStream), Wait(TransferStream, |st.issued|)];
    assert a.issued == st.issued + ops && a.scheduled == st.scheduled;
    NeutralKeeps(v, s, st, a, ops, base, q, ev, |ev|);
    if v.Reordered? { AwaitKeepsDue(v, s, a, base, q, ev, |ev|); }
  }

  lemma EnterKeepsDue(v: Variant, s: Schedule, st: Loader, base: nat, q: nat, ev: seq<nat>) returns (ev': seq<nat>)
    requires Loadable(s) && OccupantsKnown(s, st) && |ev| < |s.stats| && q <= |ev|
    requires PieceWaits(v, s, st, base, q, ev, |ev|)
    requires |ev| == 0 ==> !st.pending && st.computeEvents == map[]
    ensures |ev'| == |ev| + 1 && PieceWaits(v, s, Enter(v, s, st, s.stats[|ev|]), base, q, ev', DueInside(v, |ev|))
  {
    hide PieceWaits;
    BeginKeepsDue(v, s, st, base, q, ev);
    BeginAppends(v, s, st, s.stats[|ev|]);
    ev' := CopyOrNot(v, s, Begin(v, s, st, s.stats[|ev|]), base, q, ev);
  }

  lemma CopyOrNot(v: Variant, s: Schedule, st: Loader, base: nat, q: nat, ev: seq<nat>) returns (ev': seq<nat>)
    requires Loadable(s) && OccupantsKnown(s, st) && |ev| < |s.stats| && q <= |ev|
    requires PieceWaits(v, s, st, base, q, ev, DueInside(v, |ev|))
    ensures |ev'| == |ev| + 1
    ensures var l := s.stats[|ev|];
            PieceWaits(v, s, if l in s.block then ScheduleCopy(v, s, st, l) else st, base, q, ev', DueInside(v, |ev|))
  {
    hide PieceWaits;
    var l, d := s.stats[|ev|], DueInside(v, |ev|);
    if l in s.block {
      assert s.Slot(l) by { assert l in s.block.Keys; }
      var waits := AwaitReader(s, st, s.block[l]);
      var a := Issue(st, waits);
      NeutralKeeps(v, s, st, a, waits, base, q, ev, d);
      var st' := ScheduleCopy(v, s, st, l);
      CopyShape(v, s, st, l);
      CopyKeeps(v, s, a, st', base, q, ev, d);
      ev' := ev + [|a.issued| + 1];
    } else {
      NoCopyKeeps(v, s, st, base, q, ev, d);
      ev' := ev + [0];
    }
  }

  /** A layer that neither ends the forward nor is followed by a join. */
  lemma ExitKeepsDue(v: Variant, s: Schedule, st: Loader, base: nat, q: nat, ev: seq<nat>)
    requires Loadable(s) && 0 < |ev| < |s.stats| && q < |ev| && PieceWaits(v, s, st, base, q, ev, DueInside(v, |ev| - 1))
    ensures var l := s.stats[|ev| - 1]; PieceWaits(v, s, Exit(v, s, Issue(st, [Compute(l)]), l), base, q, ev, |ev|)
  {
    hide PieceWaits;
    var l := s.stats[|ev| - 1];
    var a := Issue(st, [Compute(l)]);
    NeutralKeeps(v, s, st, a, [Compute(l)], base, q, ev, DueInside(v, |ev| - 1));
    if v.Rolling? { AwaitKeepsDue(v, s, a, base, q, ev, |ev| - 1); }
    var b := if v.Rolling? then AwaitTransfer(a, l) else a;
    NeutralKeeps(v, s, b, RecordCompute(b, l), [Record(ComputeStream)], base, q, ev, |ev|);
    assert l != LastLayer(s);
  }

  lemma TrapKeepsDue(v: Variant, s: Schedule, st: Loader, st': Loader, base: nat, q: nat, ev: seq<nat>) returns (ev': seq<nat>)
    requires Loadable(s) && OccupantsKnown(s, st) && |ev| + 1 < |s.stats| && q <= |ev|
    requires PieceWaits(v, s, st, base, q, ev, |ev|)
    requires |ev| == 0 ==> !st.pending && st.computeEvents == map[]
    requires st' == Trap(v, s, st, s.stats[|ev|], false)
    ensures |ev'| == |ev| + 1 && PieceWaits(v, s, st', base, q, ev', |ev'|)
  {
    hide PieceWaits;
    ev' := EnterKeepsDue(v, s, st, base, q, ev);
    ExitKeepsDue(v, s, Enter(v, s, st, s.stats[|ev|]), base, q, ev');
  }

  /** In every forward, the waits issued before layer p by the piece of layer p. */
  lemma {:induction false} LayersWait(v: Variant, s: Schedule, st: Loader, joins: seq<bool>, p: nat) returns (ev: seq<nat>)
    requires Loadable(s) && s.OverlapFree() && OccupantsKnown(s, st) && |joins| == |s.stats| && p < |s.stats| && Between(v, s, st, 0)
    ensures |ev| == p
    ensures PieceWaits(v, s, Layers(v, s, st, joins, p), PieceBase(v, s, st, joins, p), PieceStart(joins, p), ev, p)
  {
    hide Trap, Between, PieceWaits;
    if p == 0 || joins[p - 1] {
      LayersKeep(v, s, st, joins, p);
      PieceOpensWaiting(v, s, Layers(v, s, st, joins, p), p);
      ev := seq(p, i => 0);
    } else {
      ev := LayersWait(v, s, st, joins, p - 1);
      StartHasNothingPending(v, s, st);
      NextLayerIsTrap(v, s, st, joins, p);
      ev := TrapKeepsDue(v, s, Layers(v, s, st, joins, p - 1), Layers(v, s, st, joins, p),
                         PieceBase(v, s, st, joins, p), PieceStart(joins, p), ev);
    }
  }

  lemma PieceOpensWaiting(v: Variant, s: Schedule, st: Loader, q: nat)
    requires Loadable(s) && q <= |s.stats| && Between(v, s, st, q)
    ensures PieceWaits(v, s, st, |st.issued|, q, seq(q, i => 0), q)
  {
    PieceStartsWaitingForNothing(v, s, st, q);
  }

  lemma StartHasNothingPending(v: Variant, s: Schedule, st: Loader)
    requires Loadable(s) && Between(v, s, st, 0)
    ensures !st.pending && st.computeEvents == map[]
  {
  }

  // ---------------------------------------------------------------------------
  // The theorem
  // ---------------------------------------------------------------------------

  /** Some layer of the piece no earlier than layer p issued a copy that was waited for before
      layer c computes: by its own exit in the rolling loader, by the layer the copy is for in
      the reordered one. */
  ghost predicate WaitedFrom(v: Variant, s: Schedule, p: nat, c: nat)
    requires s.WellPlaced() && c < |s.stats|
  {
    exists u :: p <= u < c && s.Slot(s.stats[u]) && (v.Rolling? || u < s.To(s.stats[u]) <= c)
  }

  /** The copy at i against the compute of layer c just issued, in a piece that began at layer
      q after `base` operations: it precedes the piece and happens before the compute, or it
      is the copy of a layer p of the piece and happens before the compute exactly when the
      piece's copies from p on were waited for. */
  ghost predicate AwaitedExactly(v: Variant, s: Schedule, tr: Trace, base: nat, q: nat, c: nat, i: nat)
    requires Loadable(s) && c < |s.stats| && tr != []
  {
    var j := |tr| - 1;
    && i < j && tr[j] == Compute(s.stats[c])
    && if i < base then HappensBefore(tr, i, j)
       else exists p: nat :: q <= p <= c && s.Slot(s.stats[p]) && tr[i] == Copy(s.stats[p], s.block[s.stats[p]]) &&
                        (HappensBefore(tr, i, j) <==> WaitedFrom(v, s, p, c))
  }

  lemma CopyOfPiece(v: Variant, s: Schedule, st: Loader, base: nat, q: nat, ev: seq<nat>, c: nat, i: nat, p: nat)
    requires Loadable(s) && c < |s.stats| && |ev| == c + 1 && PieceWaits(v, s, st, base, q, ev, DueInside(v, c))
    requires IsCopyOf(s, q, ev, i, p) && base <= i < |st.issued|
    ensures var tr := st.issued + [Compute(s.stats[c])];
            tr[i] == Copy(s.stats[p], s.block[s.stats[p]]) && (HappensBefore(tr, i, |st.issued|) <==> WaitedFrom(v, s, p, c))
  {
    var tr, j := st.issued + [Compute(s.stats[c])], |st.issued|;
    assert IsEvent(s, st.issued, base, ev, p);
    HappensBeforeAcross(tr, i, j);
    if Awaited(tr, i, j, ComputeStream) { AwaitedWasDue(v, s, st.issued, base, q, ev, c, i, p); }
    if WaitedFrom(v, s, p, c) { DueWasAwaited(v, s, st.issued, base, q, ev, c, i, p); }
  }

  lemma AwaitedWasDue(v: Variant, s: Schedule, tr: Trace, base: nat, q: nat, ev: seq<nat>, c: nat, i: nat, p: nat)
    requires Loadable(s) && c < |s.stats| && |ev| == c + 1
    requires EventsRise(s, tr, base, q, ev) && OnlyDue(v, s, tr, base, q, ev, DueInside(v, c))
    requires IsCopyOf(s, q, ev, i, p) && base <= i < |tr| && Awaited(tr + [Compute(s.stats[c])], i, |tr|, ComputeStream)
    ensures WaitedFrom(v, s, p, c)
  {
    var tr' := tr + [Compute(s.stats[c])];
    var w: nat :| i < w <= |tr| && w < |tr'| && IsWaitPast(tr', i, w, ComputeStream);
    assert IsWait(tr, w) && tr[w] == tr'[w];
    var u := DueWait(v, s, tr, base, q, ev, DueInside(v, c), w);
    CopyPrecedes(s, tr, base, q, ev, i, p, u);
    DueFrom(v, s, p, c, u);
  }

  lemma DueWait(v: Variant, s: Schedule, tr: Trace, base: nat, q: nat, ev: seq<nat>, d: nat, w: nat) returns (u: int)
    requires s.WellPlaced() && |ev| <= |s.stats| && OnlyDue(v, s, tr, base, q, ev, d)
    requires base <= w && IsWait(tr, w) && base <= tr[w].event
    ensures IsDue(v, s, q, d, ev, tr[w].event, u)
  {
    u :| IsDue(v, s, q, d, ev, tr[w].event, u);
  }

  /** A later event than a copy's own is that of a later layer's copy. */
  lemma CopyPrecedes(s: Schedule, tr: Trace, base: nat, q: nat, ev: seq<nat>, i: nat, p: nat, u: int)
    requires s.WellPlaced() && |ev| <= |s.stats| && EventsRise(s, tr, base, q, ev)
    requires IsCopyOf(s, q, ev, i, p) && q <= u < |ev| && s.Slot(s.stats[u])
    ensures p <= u <==> i <= ev[u]
  {
    assert IsEvent(s, tr, base, ev, p) && IsEvent(s, tr, base, ev, u);
  }

  lemma DueFrom(v: Variant, s: Schedule, p: nat, c: nat, u: int)
    requires s.WellPlaced() && c < |s.stats| && p <= u && DueBefore(v, s, u, DueInside(v, c))
    ensures WaitedFrom(v, s, p, c)
  {
  }

  lemma DueWasAwaited(v: Variant, s: Schedule, tr: Trace, base: nat, q: nat, ev: seq<nat>, c: nat, i: nat, p: nat)
    requires Loadable(s) && c < |s.stats| && |ev| == c + 1
    requires EventsRise(s, tr, base, q, ev) && AllDue(v, s, tr, q, ev, DueInside(v, c))
    requires IsCopyOf(s, q, ev, i, p) && base <= i < |tr| && WaitedFrom(v, s, p, c)
    ensures Awaited(tr + [Compute(s.stats[c])], i, |tr|, ComputeStream)
  {
    var u := SomeDue(v, s, p, c);
    assert Covered(s, tr, ev, u);
    var u', w: nat :| WaitsFor(s, tr, ev, u, u', w);
    CopyPrecedes(s, tr, base, q, ev, i, p, u');
    assert IsEvent(s, tr, base, ev, u');
    assert IsWaitPast(tr + [Compute(s.stats[c])], i, w, ComputeStream);
  }

  lemma SomeDue(v: Variant, s: Schedule, p: nat, c: nat) returns (u: nat)
    requires s.WellPlaced() && c < |s.stats| && WaitedFrom(v, s, p, c)
    ensures p <= u && DueBefore(v, s, u, DueInside(v, c))
  {
    u :| p <= u < c && s.Slot(s.stats[u]) && (v.Rolling? || u < s.To(s.stats[u]) <= c);
  }

  lemma CopyBeforePiece(v: Variant, s: Schedule, before: Loader, tr: Trace, i: nat)
    requires Sound(s, before) && !before.pending && before.issued <= tr && |before.issued| < |tr|
    requires i < |before.issued| && before.issued[i].Copy? && tr[|tr| - 1].Compute?
    ensures HappensBefore(tr, i, |tr| - 1)
  {
    assert Arrived(before, i);
    AwaitedGrows(before.issued, tr, i, |before.issued|, |tr| - 1, ComputeStream);
    HappensBeforeAcross(tr, i, |tr| - 1);
  }

  lemma EnterAwaits(v: Variant, s: Schedule, before: Loader, st: Loader, a: Loader, q: nat, ev: seq<nat>, i: nat)
    requires Loadable(s) && OccupantsKnown(s, st) && |ev| < |s.stats| && q <= |ev|
    requires PieceWaits(v, s, st, |before.issued|, q, ev, |ev|)
    requires |ev| == 0 ==> !st.pending && st.computeEvents == map[]
    requires Sound(s, before) && !before.pending && before.issued <= st.issued
    requires a == Enter(v, s, st, s.stats[|ev|]) && i < |a.issued| && a.issued[i].Copy?
    ensures AwaitedExactly(v, s, a.issued + [Compute(s.stats[|ev|])], |before.issued|, q, |ev|, i)
  {
    EnterAppends(v, s, st, s.stats[|ev|]);
    var ev' := EnterKeepsDue(v, s, st, |before.issued|, q, ev);
    EnteredAwaits(v, s, before, a, q, ev', |ev|, i);
  }

  lemma EnteredAwaits(v: Variant, s: Schedule, before: Loader, a: Loader, q: nat, ev: seq<nat>, c: nat, i: nat)
    requires Loadable(s) && c < |s.stats| && |ev| == c + 1
    requires PieceWaits(v, s, a, |before.issued|, q, ev, DueInside(v, c))
    requires Sound(s, before) && !before.pending && before.issued <= a.issued && i < |a.issued| && a.issued[i].Copy?
    ensures AwaitedExactly(v, s, a.issued + [Compute(s.stats[c])], |before.issued|, q, c, i)
  {
    if i < |before.issued| {
      CopyBeforePiece(v, s, before, a.issued + [Compute(s.stats[c])], i);
    } else {
      var p := SomeCopy(s, a.issued, |before.issued|, q, ev, i);
      CopyOfPiece(v, s, a, |before.issued|, q, ev, c, i, p);
    }
  }

  lemma SomeCopy(s: Schedule, tr: Trace, base: nat, q: nat, ev: seq<nat>, i: nat) returns (p: nat)
    requires s.WellPlaced() && |ev| <= |s.stats| && OnlyCopies(s, tr, base, q, ev)
    requires base <= i < |tr| && tr[i].Copy?
    ensures IsCopyOf(s, q, ev, i, p)
  {
    assert IsCopy(tr, i);
    p :| IsCopyOf(s, q, ev, i, p);
  }

  lemma TrapAppends(v: Variant, s: Schedule, st: Loader, l: Label)
    requires Loadable(s) && OccupantsKnown(s, st)
    ensures st.issued <= Trap(v, s, st, l, false).issued
  {
    EnterAppends(v, s, st, l);
    ExitAppends(v, s, Issue(Enter(v, s, st, l), [Compute(l)]), l);
  }

  lemma {:induction false} PieceGrowsTo(v: Variant, s: Schedule, st: Loader, joins: seq<bool>, p: nat)
    requires Loadable(s) && OccupantsKnown(s, st) && |joins| == |s.stats| && p < |s.stats|
    ensures Layers(v, s, st, joins, PieceStart(joins, p)).issued <= Layers(v, s, st, joins, p).issued
  {
    hide Trap;
    if p > 0 && !joins[p - 1] {
      PieceGrowsTo(v, s, st, joins, p - 1);
      NextLayerIsTrap(v, s, st, joins, p);
      TrapAppends(v, s, Layers(v, s, st, joins, p - 1), s.stats[p - 1]);
    }
  }

  /** For either loader, any overlap-free schedule, any prefetch policy and any number of
      forwards with joins anywhere: which copies issued so far the compute of layer c waits
      for, and so which are left to run beside it. */
  lemma CopyBeforeComputeIff(v: Variant, s: Schedule, order: seq<Label>, policy: Policy,
                             script: seq<seq<bool>>, joins: seq<bool>, c: nat, i: nat)
    requires Loadable(s) && s.OverlapFree() && PreloadOrder(s, order)
    requires (forall f :: f in script ==> |f| == |s.stats|) && |joins| == |s.stats| && c < |s.stats|
    requires var start := Forwards(v, s, Preloaded(v, s, order, policy), script);
             var st := Enter(v, s, Layers(v, s, start, joins, c), s.stats[c]);
             i < |st.issued| && st.issued[i].Copy?
    ensures var start := Forwards(v, s, Preloaded(v, s, order, policy), script);
            AwaitedExactly(v, s, Issue(Enter(v, s, Layers(v, s, start, joins, c), s.stats[c]), [Compute(s.stats[c])]).issued,
                           PieceBase(v, s, start, joins, c), PieceStart(joins, c), c, i)
  {
    PreloadIsReady(v, s, order, policy);
    ForwardsKeep(v, s, Preloaded(v, s, order, policy), script);
    ForwardAwaits(v, s, Forwards(v, s, Preloaded(v, s, order, policy), script), joins, c, i);
  }

  lemma ForwardAwaits(v: Variant, s: Schedule, start: Loader, joins: seq<bool>, c: nat, i: nat)
    requires Loadable(s) && s.OverlapFree() && OccupantsKnown(s, start) && Between(v, s, start, 0)
    requires |joins| == |s.stats| && c < |s.stats|
    requires var st := Enter(v, s, Layers(v, s, start, joins, c), s.stats[c]); i < |st.issued| && st.issued[i].Copy?
    ensures AwaitedExactly(v, s, Issue(Enter(v, s, Layers(v, s, start, joins, c), s.stats[c]), [Compute(s.stats[c])]).issued,
                           PieceBase(v, s, start, joins, c), PieceStart(joins, c), c, i)
  {
    var q := PieceStart(joins, c);
    var before := Layers(v, s, start, joins, q);
    LayersKeep(v, s, start, joins, q);
    NothingPending(v, s, start, joins, c);
    PieceGrowsTo(v, s, start, joins, c);
    var ev := LayersWait(v, s, start, joins, c);
    var st := Layers(v, s, start, joins, c);
    EnterAwaits(v, s, before, st, Enter(v, s, st, s.stats[c]), q, ev, i);
  }

  lemma {:induction false} NothingPending(v: Variant, s: Schedule, start: Loader, joins: seq<bool>, c: nat)
    requires Loadable(s) && OccupantsKnown(s, start) && Between(v, s, start, 0)
    requires |joins| == |s.stats| && c < |s.stats|
    ensures !Layers(v, s, start, joins, PieceStart(joins, c)).pending
  {
    if c > 0 {
      if joins[c - 1] { JoinIsFresh(v, s, start, joins, c); } else { NothingPending(v, s, start, joins, c - 1); }
    }
  }
}
