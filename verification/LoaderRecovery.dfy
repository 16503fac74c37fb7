/** Forwards that stop half-way: what the next first-layer enter recovers, and what is lost. */
module LoaderRecovery {
  import opened Timeline
  import opened Streams
  import opened PrefetchPolicy
  import opened LoaderProtocol
  import opened LoaderReads
  import opened LoaderWrites
  import opened WriteAfterRead

  /** Where a layer was when its forward stopped. */
  datatype Stop = BeforeEnter | BeforeCompute | BeforeExit

  function Stopped(v: Variant, s: Schedule, st: Loader, joins: seq<bool>, k: nat, stop: Stop): (r: Loader)
    requires Loadable(s) && OccupantsKnown(s, st) && |joins| == |s.stats| && k <= |s.stats|
    requires k == |s.stats| ==> stop.BeforeEnter?
    ensures OccupantsKnown(s, r)
  {
    var a := Layers(v, s, st, joins, k);
    match stop
    case BeforeEnter => a
    case BeforeCompute => Enter(v, s, a, s.stats[k])
    case BeforeExit => Issue(Enter(v, s, a, s.stats[k]), [Compute(s.stats[k])])
  }

  /** How many layers of the stopped forward issued their copies. */
  function Copied(k: nat, stop: Stop): nat { if stop.BeforeEnter? then k else k + 1 }

  /** Data of x, copied in for the next forward, gave way to another transfer of the block
      before x was copied in again. */
  ghost predicate Overwritten(s: Schedule, x: Label, m: nat)
    requires s.WellPlaced() && s.Slot(x)
  {
    m <= s.Pos(x) && exists y :: s.Slot(y) && s.block[y] == s.block[x] && s.Pos(y) < m
  }

  /** Every wrap-around transfer is still in its block after the copies of m layers. */
  ghost predicate StopsSafely(s: Schedule, m: nat)
    requires s.WellPlaced()
  {
    forall x :: s.Slot(x) && s.To(x) < s.Pos(x) ==> !Overwritten(s, x, m)
  }

  // ---------------------------------------------------------------------------
  // What a block holds
  // ---------------------------------------------------------------------------

  /** The last copy into block b was x's. */
  predicate Holds(tr: Trace, b: int, x: Label) {
    if tr == [] then false
    else
      var last := |tr| - 1;
      if tr[last].Copy? && tr[last].block == b then tr[last].slot == x else Holds(tr[..last], b, x)
  }

  lemma {:induction false} HoldsIsLastCopy(tr: Trace, b: int, x: Label)
    ensures Holds(tr, b, x) <==> exists i: nat :: LastCopy(tr, b, x, i, |tr|)
  {
    if tr != [] {
      var last := |tr| - 1;
      if tr[last].Copy? && tr[last].block == b {
        if tr[last].slot == x { assert LastCopy(tr, b, x, last, |tr|); }
        assert CopiesInto(tr[last], b);
      } else {
        HoldsIsLastCopy(tr[..last], b, x);
        LastCopyExtends(tr[..last], tr[last], b, x);
        assert tr == tr[..last] + [tr[last]];
      }
    }
  }

  lemma LastCopyExtends(before: Trace, op: Op, b: int, x: Label)
    requires !CopiesInto(op, b)
    ensures (exists i: nat :: LastCopy(before + [op], b, x, i, |before + [op]|)) <==>
            exists i: nat :: LastCopy(before, b, x, i, |before|)
  {
    var tr := before + [op];
    assert tr[|before|] == op && forall k :: 0 <= k < |before| ==> tr[k] == before[k];
    if i: nat :| LastCopy(tr, b, x, i, |tr|) { assert LastCopy(before, b, x, i, |before|); }
    if i: nat :| LastCopy(before, b, x, i, |before|) { assert LastCopy(tr, b, x, i, |tr|); }
  }

  lemma {:induction false} HoldsStays(tr: Trace, tr': Trace, b: int, x: Label)
    requires tr <= tr' && forall k :: |tr| <= k < |tr'| ==> !CopiesInto(tr'[k], b)
    ensures Holds(tr', b, x) <==> Holds(tr, b, x)
  {
    if tr' != tr {
      assert tr <= tr'[..|tr'| - 1];
      HoldsStays(tr, tr'[..|tr'| - 1], b, x);
      assert !CopiesInto(tr'[|tr'| - 1], b);
    }
  }

  /** After the copies of m layers of a forward that began with `before`, block b holds what
      the last of them brought, or what it held. */
  ghost predicate HoldsLatest(s: Schedule, before: Trace, tr: Trace, m: nat, b: int)
    requires m <= |s.stats|
  {
    var u := Latest(s, 0, m, b);
    forall x :: Holds(tr, b, x) <==> if u == -1 then Holds(before, b, x) else x == s.stats[u]
  }

  lemma HoldsLatestGrows(s: Schedule, before: Trace, tr: Trace, tr': Trace, m: nat, b: int)
    requires m <= |s.stats| && HoldsLatest(s, before, tr, m, b)
    requires tr <= tr' && forall k :: |tr| <= k < |tr'| ==> !tr'[k].Copy?
    ensures HoldsLatest(s, before, tr', m, b)
  {
    forall x ensures Holds(tr', b, x) <==> Holds(tr, b, x) { HoldsStays(tr, tr', b, x); }
  }

  ghost predicate CopiesNothing(tr: Trace) { forall k :: 0 <= k < |tr| ==> !tr[k].Copy? }

  lemma StartCopiesNothing(st: Loader) returns (ops: Trace)
    ensures StartForward(st).issued == st.issued + ops && CopiesNothing(ops)
  {
    ops := if st.pending || (st.computeEvents != map[] && st.scheduled != map[])
      then [Record(TransferStream), Wait(ComputeStream, |st.issued|)] else [];
  }

  lemma ForkCopiesNothing(v: Variant, st: Loader, l: Label) returns (ops: Trace)
    ensures (if v.Reordered? then AwaitTransfer(Fork(st), l) else Fork(st)).issued == st.issued + ops && CopiesNothing(ops)
  {
    var fork := if st.pending then [] else [Record(ComputeStream), Wait(TransferStream, |st.issued|)];
    var await := if v.Reordered? && l in st.scheduled then [Wait(ComputeStream, st.scheduled[l])] else [];
    ops := fork + await;
  }

  lemma BeginCopiesNothing(v: Variant, s: Schedule, st: Loader, l: Label) returns (ops: Trace)
    requires Loadable(s)
    ensures Begin(v, s, st, l).issued == st.issued + ops && CopiesNothing(ops)
  {
    hide StartForward, Fork, AwaitTransfer;
    if l == FirstLayer(s) {
      var start := StartCopiesNothing(st);
      var rest := ForkCopiesNothing(v, StartForward(st), l);
      ops := start + rest;
    } else {
      ops := ForkCopiesNothing(v, st, l);
    }
  }

  /** What Enter issues: waits and records, then the layer's copy if it has one. */
  lemma EnterShape(v: Variant, s: Schedule, st: Loader, l: Label) returns (waits: Trace)
    requires Loadable(s) && OccupantsKnown(s, st)
    ensures CopiesNothing(waits)
    ensures Enter(v, s, st, l).issued ==
            st.issued + waits + if l in s.block then [Copy(l, s.block[l]), Record(TransferStream)] else []
  {
    var a := Begin(v, s, st, l);
    waits := BeginCopiesNothing(v, s, st, l);
    BeginAppends(v, s, st, l);
    hide Begin;
    if l in s.block {
      assert l in s.block.Keys;
      CopyShape(v, s, a, l);
      waits := waits + AwaitReader(s, a, s.block[l]);
    }
  }

  lemma EnterHolds(v: Variant, s: Schedule, before: Trace, st: Loader, st': Loader, k: nat, b: int)
    requires Loadable(s) && OccupantsKnown(s, st) && k < |s.stats| && HoldsLatest(s, before, st.issued, k, b)
    requires st' == Enter(v, s, st, s.stats[k])
    ensures HoldsLatest(s, before, st'.issued, k + 1, b)
  {
    var l := s.stats[k];
    var waits := EnterShape(v, s, st, l);
    CopyHolds(s, before, st.issued, st'.issued, waits, k, b);
  }

  lemma CopyHolds(s: Schedule, before: Trace, tr: Trace, tr': Trace, waits: Trace, k: nat, b: int)
    requires k < |s.stats| && HoldsLatest(s, before, tr, k, b) && CopiesNothing(waits)
    requires var l := s.stats[k];
             tr' == tr + waits + if l in s.block then [Copy(l, s.block[l]), Record(TransferStream)] else []
    ensures HoldsLatest(s, before, tr', k + 1, b)
  {
    var l := s.stats[k];
    var a := tr + waits;
    HoldsLatestGrows(s, before, tr, a, k, b);
    if l in s.block {
      var c := a + [Copy(l, s.block[l])];
      assert c[..|a|] == a && tr' == c + [Record(TransferStream)] && tr'[..|c|] == c;
      forall x ensures Holds(tr', b, x) <==> if s.block[l] == b then x == l else Holds(a, b, x) {
        assert Holds(tr', b, x) <==> Holds(c, b, x);
      }
    } else {
      assert tr' == a;
    }
  }

  lemma ExitNeverCopies(v: Variant, s: Schedule, st: Loader, l: Label, join: bool)
    requires Loadable(s)
    ensures var a := Exit(v, s, st, l); var tr := (if join then Join(a, false) else a).issued;
            st.issued <= tr && forall k :: |st.issued| <= k < |tr| ==> !tr[k].Copy?
  {
    var a := RecordCompute(if v.Rolling? then AwaitTransfer(st, l) else st, l);
    assert st.issued <= a.issued;
    JoinNeverCopies(a, true);
    JoinNeverCopies(Exit(v, s, st, l), false);
  }

  lemma JoinNeverCopies(st: Loader, atLastLayer: bool)
    ensures var tr := Join(st, atLastLayer).issued; st.issued <= tr && forall k :: |st.issued| <= k < |tr| ==> !tr[k].Copy?
  {
  }

  lemma {:induction false} LayersHold(v: Variant, s: Schedule, st: Loader, joins: seq<bool>, k: nat, b: int)
    requires Loadable(s) && OccupantsKnown(s, st) && |joins| == |s.stats| && k <= |s.stats|
    ensures HoldsLatest(s, st.issued, Layers(v, s, st, joins, k).issued, k, b)
  {
    hide Trap, HoldsLatest;
    if k > 0 {
      LayersHold(v, s, st, joins, k - 1, b);
      NextLayerIsTrap(v, s, st, joins, k);
      TrapHolds(v, s, st.issued, Layers(v, s, st, joins, k - 1), Layers(v, s, st, joins, k), k - 1, joins[k - 1], b);
    } else {
      NothingCopied(s, st.issued, b);
    }
  }

  lemma NothingCopied(s: Schedule, before: Trace, b: int)
    ensures HoldsLatest(s, before, before, 0, b)
  {
  }

  lemma TrapHolds(v: Variant, s: Schedule, before: Trace, st: Loader, st': Loader, k: nat, join: bool, b: int)
    requires Loadable(s) && OccupantsKnown(s, st) && k < |s.stats| && HoldsLatest(s, before, st.issued, k, b)
    requires st' == Trap(v, s, st, s.stats[k], join)
    ensures HoldsLatest(s, before, st'.issued, k + 1, b)
  {
    hide HoldsLatest;
    var l := s.stats[k];
    var a := Enter(v, s, st, l);
    var c := Issue(a, [Compute(l)]);
    EnterHolds(v, s, before, st, a, k, b);
    HoldsLatestGrows(s, before, a.issued, c.issued, k + 1, b);
    ExitNeverCopies(v, s, c, l, join);
    HoldsLatestGrows(s, before, c.issued, st'.issued, k + 1, b);
  }

  lemma StoppedHolds(v: Variant, s: Schedule, st: Loader, joins: seq<bool>, k: nat, stop: Stop, b: int)
    requires Loadable(s) && OccupantsKnown(s, st) && |joins| == |s.stats| && k <= |s.stats|
    requires k == |s.stats| ==> stop.BeforeEnter?
    ensures HoldsLatest(s, st.issued, Stopped(v, s, st, joins, k, stop).issued, Copied(k, stop), b)
  {
    hide HoldsLatest;
    LayersHold(v, s, st, joins, k, b);
    if !stop.BeforeEnter? {
      var before := Layers(v, s, st, joins, k);
      var a := Enter(v, s, before, s.stats[k]);
      EnterHolds(v, s, st.issued, before, a, k, b);
      HoldsLatestGrows(s, st.issued, a.issued, Issue(a, [Compute(s.stats[k])]).issued, k + 1, b);
    }
  }

  // ---------------------------------------------------------------------------
  // Recovery
  // ---------------------------------------------------------------------------

  /** Handles are sound wherever a forward stops, and what it computed read right. */
  lemma StoppedIsSound(v: Variant, s: Schedule, st: Loader, joins: seq<bool>, k: nat, stop: Stop)
    requires Loadable(s) && s.OverlapFree() && OccupantsKnown(s, st) && Between(v, s, st, 0)
    requires |joins| == |s.stats| && k <= |s.stats| && (k == |s.stats| ==> stop.BeforeEnter?)
    ensures var a := Stopped(v, s, st, joins, k, stop); Sound(s, a) && EveryReadIsRight(s, a.issued)
  {
    LayersKeep(v, s, st, joins, k);
    if !stop.BeforeEnter? {
      EnterSchedules(v, s, Layers(v, s, st, joins, k), k);
      ComputeReads(v, s, Enter(v, s, Layers(v, s, st, joins, k), s.stats[k]), k);
    }
  }

  /** The first-layer enter lets every copy of the stopped forward arrive, copies nothing and
      forgets every event but those of the preload. */
  lemma StartRecovers(s: Schedule, st: Loader)
    requires Sound(s, st)
    ensures var r := StartForward(st);
            && AllArrived(r) && !r.pending && r.computeEvents == map[] && r.occupant == map[]
            && (st.pending || st.computeEvents != map[] ==> r.scheduled == map[]) && Sound(s, r)
    ensures st.issued <= StartForward(st).issued
    ensures forall k :: |st.issued| <= k < |StartForward(st).issued| ==> !StartForward(st).issued[k].Copy? && !StartForward(st).issued[k].Compute?
  {
    var r := StartForward(st);
    JoinStreamsArrives(st);
    assert AllArrived(r) by {
      forall i: nat | i < |r.issued| && r.issued[i].Copy? ensures Arrived(r, i) {
        assert i < |st.issued|;
        if r.issued == st.issued { assert Arrived(st, i); } else { assert Arrived(JoinStreams(st), i); }
      }
    }
  }

  /** Wherever a forward stops: a wrap-around transfer's data is still in its block exactly
      when no other transfer of the block was copied in before its own copy. */
  lemma StopKeepsIff(v: Variant, s: Schedule, st: Loader, joins: seq<bool>, k: nat, stop: Stop, x: Label)
    requires Loadable(s) && s.OverlapFree() && OccupantsKnown(s, st) && Between(v, s, st, 0)
    requires |joins| == |s.stats| && k <= |s.stats| && (k == |s.stats| ==> stop.BeforeEnter?)
    requires s.Slot(x) && s.To(x) < s.Pos(x)
    ensures Holds(Stopped(v, s, st, joins, k, stop).issued, s.block[x], x) <==> !Overwritten(s, x, Copied(k, stop))
  {
    hide Between, Stopped, Overwritten;
    StoppedHolds(v, s, st, joins, k, stop, s.block[x]);
    WrappedIsHeld(v, s, st, x);
    LatestIsOwn(s, x, Copied(k, stop));
  }

  lemma WrappedIsHeld(v: Variant, s: Schedule, st: Loader, x: Label)
    requires Loadable(s) && Between(v, s, st, 0) && s.Slot(x) && s.To(x) < s.Pos(x)
    ensures Holds(st.issued, s.block[x], x)
  {
    assert Live(s, x, 0) && HasData(v, s, st, x);
    HoldsIsLastCopy(st.issued, s.block[x], x);
  }

  lemma LatestIsOwn(s: Schedule, x: Label, m: nat)
    requires Loadable(s) && s.OverlapFree() && m <= |s.stats| && s.Slot(x) && s.To(x) < s.Pos(x)
    ensures var u := Latest(s, 0, m, s.block[x]); Overwritten(s, x, m) <==> u != -1 && s.stats[u] != x
  {
    var u := Latest(s, 0, m, s.block[x]);
    if u != -1 {
      var y := s.stats[u];
      assert s.Slot(y) by { assert y in s.block.Keys; }
      assert s.Pos(y) == u;
      OverlapFreeByPositions(s, x, y);
    }
  }

  lemma RecoveredIsReady(v: Variant, s: Schedule, st: Loader)
    requires Loadable(s) && Sound(s, st) && EveryReadIsRight(s, st.issued)
    requires forall x :: s.Slot(x) && s.To(x) < s.Pos(x) ==> Holds(st.issued, s.block[x], x)
    requires s.OverlapFree()
    ensures Between(v, s, StartForward(st), 0)
  {
    var r := StartForward(st);
    StartRecovers(s, st);
    ReadsStayRight(s, st.issued, r.issued);
    forall x | s.Slot(x) && Live(s, x, 0) ensures HasData(v, s, r, x) {
      WrapsAround(s, x);
      HoldsStays(st.issued, r.issued, s.block[x], x);
      HoldsIsLastCopy(r.issued, s.block[x], x);
      var i: nat :| LastCopy(r.issued, s.block[x], x, i, |r.issued|);
      assert Arrived(r, i);
    }
  }

  lemma WrapsAround(s: Schedule, x: Label)
    requires Loadable(s) && s.OverlapFree() && s.Slot(x) && Live(s, x, 0)
    ensures s.To(x) < s.Pos(x)
  {
    assert !s.Clash(x, x);
  }

  // ---------------------------------------------------------------------------
  // The forward after
  // ---------------------------------------------------------------------------

  /** Starting again changes nothing more. */
  lemma StartTwice(v: Variant, s: Schedule, st: Loader, join: bool)
    requires Loadable(s) && OccupantsKnown(s, st)
    ensures OccupantsKnown(s, StartForward(st))
    ensures Trap(v, s, st, s.stats[0], join) == Trap(v, s, StartForward(st), s.stats[0], join)
    ensures Enter(v, s, st, s.stats[0]) == Enter(v, s, StartForward(st), s.stats[0])
  {
    assert StartForward(StartForward(st)) == StartForward(st);
  }

  lemma StartKnown(s: Schedule, st: Loader)
    requires OccupantsKnown(s, st)
    ensures OccupantsKnown(s, StartForward(st))
  {
  }

  lemma {:induction false} SameLayers(v: Variant, s: Schedule, st: Loader, joins: seq<bool>, k: nat)
    requires Loadable(s) && OccupantsKnown(s, st) && |joins| == |s.stats| && 0 < k <= |s.stats|
    ensures OccupantsKnown(s, StartForward(st)) && Layers(v, s, st, joins, k) == Layers(v, s, StartForward(st), joins, k)
  {
    StartKnown(s, st);
    hide Trap, StartForward;
    if k == 1 {
      StartTwice(v, s, st, joins[0]);
      assert Layers(v, s, st, joins, 0) == st && Layers(v, s, StartForward(st), joins, 0) == StartForward(st);
    } else {
      SameLayers(v, s, st, joins, k - 1);
    }
  }

  lemma SameStop(v: Variant, s: Schedule, st: Loader, joins: seq<bool>, k: nat, stop: Stop)
    requires Loadable(s) && OccupantsKnown(s, st) && |joins| == |s.stats| && k <= |s.stats|
    requires (k == |s.stats| ==> stop.BeforeEnter?) && (k > 0 || !stop.BeforeEnter?)
    ensures OccupantsKnown(s, StartForward(st)) &&
            Stopped(v, s, st, joins, k, stop) == Stopped(v, s, StartForward(st), joins, k, stop)
  {
    StartKnown(s, st);
    if k > 0 { SameLayers(v, s, st, joins, k); } else { StartTwice(v, s, st, false); }
  }

  // ---------------------------------------------------------------------------
  // Runs with forwards that stop
  // ---------------------------------------------------------------------------

  /** A forward with its joins that gets to `stop` of layer k; one that completes gets to
      |stats|. */
  datatype Attempt = Attempt(joins: seq<bool>, k: nat, stop: Stop)

  ghost predicate AttemptOk(s: Schedule, f: Attempt) {
    |f.joins| == |s.stats| && f.k <= |s.stats| && (f.k == |s.stats| ==> f.stop.BeforeEnter?)
  }

  /** The state after attempts at forwards, in order. */
  ghost function Attempts(v: Variant, s: Schedule, st: Loader, script: seq<Attempt>): (r: Loader)
    requires Loadable(s) && OccupantsKnown(s, st) && forall f :: f in script ==> AttemptOk(s, f)
    ensures OccupantsKnown(s, r)
  {
    if script == [] then st
    else
      var last := |script| - 1;
      assert AttemptOk(s, script[last]);
      Stopped(v, s, Attempts(v, s, st, script[..last]), script[last].joins, script[last].k, script[last].stop)
  }

  /** Ready for another forward, after whatever came before. */
  ghost predicate Ready(v: Variant, s: Schedule, st: Loader)
    requires s.WellPlaced()
  {
    Sound(s, st) && EveryReadIsRight(s, st.issued) && Between(v, s, StartForward(st), 0)
  }

  lemma StopIsReady(v: Variant, s: Schedule, st: Loader, f: Attempt)
    requires Loadable(s) && s.OverlapFree() && Ready(v, s, st) && AttemptOk(s, f) && StopsSafely(s, Copied(f.k, f.stop))
    ensures Ready(v, s, Stopped(v, s, st, f.joins, f.k, f.stop))
  {
    if f.k > 0 || !f.stop.BeforeEnter? {
      var r := StartForward(st);
      SameStop(v, s, st, f.joins, f.k, f.stop);
      StoppedIsSound(v, s, r, f.joins, f.k, f.stop);
      var a := Stopped(v, s, r, f.joins, f.k, f.stop);
      forall x | s.Slot(x) && s.To(x) < s.Pos(x) ensures Holds(a.issued, s.block[x], x) {
        StopKeepsIff(v, s, r, f.joins, f.k, f.stop, x);
      }
      RecoveredIsReady(v, s, a);
    }
  }

  lemma {:induction false} AttemptsStayReady(v: Variant, s: Schedule, st: Loader, script: seq<Attempt>)
    requires Loadable(s) && s.OverlapFree() && Ready(v, s, st)
    requires forall f :: f in script ==> AttemptOk(s, f) && StopsSafely(s, Copied(f.k, f.stop))
    ensures Ready(v, s, Attempts(v, s, st, script))
  {
    hide Ready, Stopped;
    StateIsKnown(v, s, st);
    if script != [] {
      var last := |script| - 1;
      assert script[last] in script;
      AttemptsStayReady(v, s, st, script[..last]);
      StopIsReady(v, s, Attempts(v, s, st, script[..last]), script[last]);
    }
  }

  lemma StateIsKnown(v: Variant, s: Schedule, st: Loader)
    requires s.WellPlaced() && Ready(v, s, st)
    ensures OccupantsKnown(s, st)
  {
  }

  lemma PreloadedIsReady(v: Variant, s: Schedule, st: Loader)
    requires Loadable(s) && Between(v, s, st, 0)
    ensures Ready(v, s, st)
  {
    StartKeeps(v, s, st);
  }

  /** In every run of either loader whose forwards may stop anywhere, before, in or after the
      compute of any layer: as long as each stop left the wrap-around transfers in their blocks,
      every compute reads its own data. */
  lemma StoppedRunsRead(v: Variant, s: Schedule, order: seq<Label>, policy: Policy, script: seq<Attempt>)
    requires Loadable(s) && s.OverlapFree() && PreloadOrder(s, order)
    requires forall f :: f in script ==> AttemptOk(s, f) && StopsSafely(s, Copied(f.k, f.stop))
    ensures EveryReadIsRight(s, Attempts(v, s, Preloaded(v, s, order, policy), script).issued)
  {
    var st := Preloaded(v, s, order, policy);
    PreloadIsReady(v, s, order, policy);
    PreloadedIsReady(v, s, st);
    AttemptsStayReady(v, s, st, script);
  }

  // ---------------------------------------------------------------------------
  // The exact condition
  // ---------------------------------------------------------------------------

  /** The forward after a stop: every compute reads its own data exactly when the stop left
      every wrap-around transfer in its block. */
  lemma ForwardAfterStopIff(v: Variant, s: Schedule, order: seq<Label>, policy: Policy, script: seq<Attempt>,
                            f: Attempt, joins: seq<bool>)
    requires Loadable(s) && s.OverlapFree() && PreloadOrder(s, order)
    requires forall f :: f in script ==> AttemptOk(s, f) && StopsSafely(s, Copied(f.k, f.stop))
    requires AttemptOk(s, f) && |joins| == |s.stats|
    ensures var st := Attempts(v, s, Preloaded(v, s, order, policy), script);
            EveryReadIsRight(s, Layers(v, s, Stopped(v, s, st, f.joins, f.k, f.stop), joins, |s.stats|).issued) <==>
            StopsSafely(s, Copied(f.k, f.stop))
  {
    var st := Attempts(v, s, Preloaded(v, s, order, policy), script);
    PreloadIsReady(v, s, order, policy);
    PreloadedIsReady(v, s, Preloaded(v, s, order, policy));
    AttemptsStayReady(v, s, Preloaded(v, s, order, policy), script);
    StopIff(v, s, st, f, joins);
  }

  lemma StopIff(v: Variant, s: Schedule, st: Loader, f: Attempt, joins: seq<bool>)
    requires Loadable(s) && s.OverlapFree() && Ready(v, s, st) && AttemptOk(s, f) && |joins| == |s.stats|
    ensures EveryReadIsRight(s, Layers(v, s, Stopped(v, s, st, f.joins, f.k, f.stop), joins, |s.stats|).issued) <==>
            StopsSafely(s, Copied(f.k, f.stop))
  {
    var a := Stopped(v, s, st, f.joins, f.k, f.stop);
    if StopsSafely(s, Copied(f.k, f.stop)) {
      StopIsReady(v, s, st, f);
      SameLayers(v, s, a, joins, |s.stats|);
      LayersKeep(v, s, StartForward(a), joins, |s.stats|);
    } else {
      var x :| s.Slot(x) && s.To(x) < s.Pos(x) && Overwritten(s, x, Copied(f.k, f.stop));
      assert f.k > 0 || !f.stop.BeforeEnter?;
      SameStop(v, s, st, f.joins, f.k, f.stop);
      StopKeepsIff(v, s, StartForward(st), f.joins, f.k, f.stop, x);
      LostIsMisread(v, s, a, joins, x);
    }
  }

  /** What a block lost before the forward is missed by the layer that needs it. */
  lemma LostIsMisread(v: Variant, s: Schedule, st: Loader, joins: seq<bool>, x: Label)
    requires Loadable(s) && s.OverlapFree() && OccupantsKnown(s, st) && |joins| == |s.stats|
    requires s.Slot(x) && s.To(x) < s.Pos(x) && !Holds(st.issued, s.block[x], x)
    ensures !EveryReadIsRight(s, Layers(v, s, st, joins, |s.stats|).issued)
  {
    var c := s.To(x);
    var a := Enter(v, s, Layers(v, s, st, joins, c), s.stats[c]);
    StoppedHolds(v, s, st, joins, c, BeforeCompute, s.block[x]);
    NothingBeforeUse(s, x);
    MisreadAtCompute(v, s, st, joins, x, c, a.issued);
  }

  lemma NothingBeforeUse(s: Schedule, x: Label)
    requires Loadable(s) && s.OverlapFree() && s.Slot(x) && s.To(x) < s.Pos(x)
    ensures Latest(s, 0, s.To(x) + 1, s.block[x]) == -1
  {
    var u := Latest(s, 0, s.To(x) + 1, s.block[x]);
    if u != -1 {
      var y := s.stats[u];
      assert s.Slot(y) by { assert y in s.block.Keys; }
      assert s.Pos(y) == u;
      OverlapFreeByPositions(s, x, y);
      assert false;
    }
  }

  lemma MisreadAtCompute(v: Variant, s: Schedule, st: Loader, joins: seq<bool>, x: Label, c: nat, tr: Trace)
    requires Loadable(s) && OccupantsKnown(s, st) && |joins| == |s.stats| && s.Slot(x) && c == s.To(x)
    requires tr == Enter(v, s, Layers(v, s, st, joins, c), s.stats[c]).issued && !Holds(tr, s.block[x], x)
    ensures !EveryReadIsRight(s, Layers(v, s, st, joins, |s.stats|).issued)
  {
    var all := Layers(v, s, st, joins, |s.stats|).issued;
    ComputeFollows(v, s, st, joins, c);
    assert tr + [Compute(s.stats[c])] <= all;
    var j := |tr|;
    assert all[..j] == tr && all[j] == Compute(s.stats[c]);
    if EveryReadIsRight(s, all) {
      assert ReadsItsData(s, all, x, j);
      var i: nat :| LastCopy(all, s.block[x], x, i, j);
      assert LastCopy(tr, s.block[x], x, i, j);
      HoldsIsLastCopy(tr, s.block[x], x);
    }
  }

  lemma ComputeFollows(v: Variant, s: Schedule, st: Loader, joins: seq<bool>, c: nat)
    requires Loadable(s) && OccupantsKnown(s, st) && |joins| == |s.stats| && c < |s.stats|
    ensures Enter(v, s, Layers(v, s, st, joins, c), s.stats[c]).issued + [Compute(s.stats[c])] <=
            Layers(v, s, st, joins, |s.stats|).issued
  {
    var before := Layers(v, s, st, joins, c);
    var a := Issue(Enter(v, s, before, s.stats[c]), [Compute(s.stats[c])]);
    ExitNeverCopies(v, s, a, s.stats[c], joins[c]);
    NextLayerIsTrap(v, s, st, joins, c + 1);
    LayersAppend(v, s, st, joins, c + 1, |s.stats|);
  }

  lemma {:induction false} LayersAppend(v: Variant, s: Schedule, st: Loader, joins: seq<bool>, c: nat, k: nat)
    requires Loadable(s) && OccupantsKnown(s, st) && |joins| == |s.stats| && c <= k <= |s.stats|
    ensures Layers(v, s, st, joins, c).issued <= Layers(v, s, st, joins, k).issued
  {
    hide Trap;
    if c < k {
      LayersAppend(v, s, st, joins, c, k - 1);
      NextLayerIsTrap(v, s, st, joins, k);
      TrapOnlyAppends(v, s, Layers(v, s, st, joins, k - 1), s.stats[k - 1], joins[k - 1]);
    }
  }

  lemma TrapOnlyAppends(v: Variant, s: Schedule, st: Loader, l: Label, join: bool)
    requires Loadable(s) && OccupantsKnown(s, st)
    ensures st.issued <= Trap(v, s, st, l, join).issued
  {
    EnterAppends(v, s, st, l);
    ExitNeverCopies(v, s, Issue(Enter(v, s, st, l), [Compute(l)]), l, join);
  }
}
