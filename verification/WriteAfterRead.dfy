/** Write after read over whole runs, and where the loaders leave it open. */
module WriteAfterRead {
  import opened Timeline
  import opened Streams
  import opened PrefetchPolicy
  import opened LoaderProtocol
  import opened LoaderReads
  import opened LoaderWrites

  /** Between two pieces: nothing pending and no events on record. */
  ghost predicate Fresh(s: Schedule, st: Loader, q: nat) {
    !st.pending && st.computeEvents == map[] && (q == 0 || st.occupant == map[])
  }

  /** The operations by which layer q opens a piece. */
  lemma BeginOpensPiece(v: Variant, s: Schedule, st: Loader, q: nat)
    requires Loadable(s) && q < |s.stats| && Fresh(s, st, q)
    ensures InPiece(s, Begin(v, s, st, s.stats[q]), |st.issued|, q, q)
  {
    var l, base := s.stats[q], |st.issued|;
    var a := Fork(if l == FirstLayer(s) then StartForward(st) else st);
    assert a.issued == st.issued + [Record(ComputeStream), Wait(TransferStream, base)];
    assert l == FirstLayer(s) <==> q == 0;
    PieceOpens(s, a, base, q);
    BeginWaits(v, s, a, base, q, q);
  }

  lemma PieceOpens(s: Schedule, st: Loader, base: nat, q: nat)
    requires Loadable(s) && q < |s.stats| && st.pending && |st.issued| == base + 2
    requires st.issued[base] == Record(ComputeStream) && st.issued[base + 1] == Wait(TransferStream, base)
    requires st.computeEvents == map[] && st.occupant == map[]
    ensures InPiece(s, st, base, q, q)
  {
  }

  /** The reordered loader's wait on entry. */
  lemma BeginWaits(v: Variant, s: Schedule, st: Loader, base: nat, q: nat, p: nat)
    requires Loadable(s) && q <= p < |s.stats| && InPiece(s, st, base, q, p)
    ensures InPiece(s, if v.Reordered? then AwaitTransfer(st, s.stats[p]) else st, base, q, p)
  {
    var l := s.stats[p];
    if l in st.scheduled {
      PieceGrows(s, st, AwaitTransfer(st, l), [Wait(ComputeStream, st.scheduled[l])], base, q, p);
    }
  }

  /** A layer that neither ends the forward nor is followed by a join stays in its piece. */
  lemma TrapKeepsPiece(v: Variant, s: Schedule, st: Loader, base: nat, q: nat, p: nat)
    requires Loadable(s) && q <= p && p + 1 < |s.stats| && OccupantsKnown(s, st)
    requires InPiece(s, Begin(v, s, st, s.stats[p]), base, q, p)
    ensures InPiece(s, Trap(v, s, st, s.stats[p], false), base, q, p + 1)
  {
    var l := s.stats[p];
    var a, b := Begin(v, s, st, l), Enter(v, s, st, l);
    if l in s.block { CopyKeepsPiece(v, s, a, base, q, p); } else { NoCopyKeepsPiece(v, s, a, base, q, p); }
    ExitKeepsPiece(v, s, b, base, q, p);
  }

  lemma ExitKeepsPiece(v: Variant, s: Schedule, st: Loader, base: nat, q: nat, p: nat)
    requires Loadable(s) && q <= p && p + 1 < |s.stats| && CopyIssued(s, st, base, q, p)
    ensures InPiece(s, Exit(v, s, Issue(st, [Compute(s.stats[p])]), s.stats[p]), base, q, p + 1)
  {
    var l := s.stats[p];
    var st' := Exit(v, s, Issue(st, [Compute(l)]), l);
    var waits := if v.Rolling? && l in st.scheduled then [Wait(ComputeStream, st.scheduled[l])] else [];
    assert l != LastLayer(s);
    assert st'.issued == st.issued + ([Compute(l)] + waits + [Record(ComputeStream)]);
    ComputeKeepsPiece(s, st, st', waits, base, q, p);
  }

  lemma NextBeginInPiece(v: Variant, s: Schedule, st: Loader, base: nat, q: nat, p: nat)
    requires Loadable(s) && q <= p < |s.stats| && 0 < p && InPiece(s, st, base, q, p)
    ensures InPiece(s, Begin(v, s, st, s.stats[p]), base, q, p)
  {
    assert s.stats[p] != FirstLayer(s);
    BeginWaits(v, s, st, base, q, p);
  }

  /** Where the piece of layer p began, in operations issued. */
  function PieceBase(v: Variant, s: Schedule, st: Loader, joins: seq<bool>, p: nat): nat
    requires Loadable(s) && OccupantsKnown(s, st) && |joins| == |s.stats| && p < |s.stats|
  {
    |Layers(v, s, st, joins, PieceStart(joins, p)).issued|
  }

  lemma JoinIsFresh(v: Variant, s: Schedule, st: Loader, joins: seq<bool>, p: nat)
    requires Loadable(s) && OccupantsKnown(s, st) && |joins| == |s.stats| && 0 < p < |s.stats| && joins[p - 1]
    ensures Fresh(s, Layers(v, s, st, joins, p), p)
  {
  }

  /** In every forward, layer p runs in the piece that began at PieceStart. */
  lemma {:induction false} LayersInPiece(v: Variant, s: Schedule, st: Loader, joins: seq<bool>, p: nat)
    requires Loadable(s) && OccupantsKnown(s, st) && |joins| == |s.stats| && p < |s.stats| && Fresh(s, st, 0)
    ensures InPiece(s, Begin(v, s, Layers(v, s, st, joins, p), s.stats[p]), PieceBase(v, s, st, joins, p), PieceStart(joins, p), p)
  {
    if p == 0 {
      FirstPiece(v, s, st, joins);
    } else if joins[p - 1] {
      NewPiece(v, s, st, joins, p);
    } else {
      LayersInPiece(v, s, st, joins, p - 1);
      SamePiece(v, s, st, joins, p);
    }
  }

  lemma FirstPiece(v: Variant, s: Schedule, st: Loader, joins: seq<bool>)
    requires Loadable(s) && OccupantsKnown(s, st) && |joins| == |s.stats| && Fresh(s, st, 0)
    ensures InPiece(s, Begin(v, s, Layers(v, s, st, joins, 0), s.stats[0]), PieceBase(v, s, st, joins, 0), PieceStart(joins, 0), 0)
  {
    BeginOpensPiece(v, s, st, 0);
  }

  lemma NewPiece(v: Variant, s: Schedule, st: Loader, joins: seq<bool>, p: nat)
    requires Loadable(s) && OccupantsKnown(s, st) && |joins| == |s.stats| && 0 < p < |s.stats| && joins[p - 1]
    ensures InPiece(s, Begin(v, s, Layers(v, s, st, joins, p), s.stats[p]), PieceBase(v, s, st, joins, p), PieceStart(joins, p), p)
  {
    JoinIsFresh(v, s, st, joins, p);
    BeginOpensPiece(v, s, Layers(v, s, st, joins, p), p);
  }

  lemma SamePiece(v: Variant, s: Schedule, st: Loader, joins: seq<bool>, p: nat)
    requires Loadable(s) && OccupantsKnown(s, st) && |joins| == |s.stats| && 0 < p < |s.stats| && !joins[p - 1]
    requires InPiece(s, Begin(v, s, Layers(v, s, st, joins, p - 1), s.stats[p - 1]),
                     PieceBase(v, s, st, joins, p - 1), PieceStart(joins, p - 1), p - 1)
    ensures InPiece(s, Begin(v, s, Layers(v, s, st, joins, p), s.stats[p]), PieceBase(v, s, st, joins, p), PieceStart(joins, p), p)
  {
    NextLayerIsTrap(v, s, st, joins, p);
    NextLayerInPiece(v, s, Layers(v, s, st, joins, p - 1), Layers(v, s, st, joins, p),
                     PieceBase(v, s, st, joins, p - 1), PieceStart(joins, p - 1), p);
  }

  lemma NextLayerInPiece(v: Variant, s: Schedule, st: Loader, st': Loader, base: nat, q: nat, p: nat)
    requires Loadable(s) && q < p < |s.stats| && OccupantsKnown(s, st) && st' == Trap(v, s, st, s.stats[p - 1], false)
    requires InPiece(s, Begin(v, s, st, s.stats[p - 1]), base, q, p - 1)
    ensures InPiece(s, Begin(v, s, st', s.stats[p]), base, q, p)
  {
    TrapKeepsPieceAs(v, s, st, st', base, q, p - 1);
    NextBeginInPiece(v, s, st', base, q, p);
  }

  lemma TrapKeepsPieceAs(v: Variant, s: Schedule, st: Loader, st': Loader, base: nat, q: nat, p: nat)
    requires Loadable(s) && q <= p && p + 1 < |s.stats| && OccupantsKnown(s, st)
    requires st' == Trap(v, s, st, s.stats[p], false)
    ensures InPiece(s, Begin(v, s, st, s.stats[p]), base, q, p) ==> InPiece(s, st', base, q, p + 1)
  {
    if InPiece(s, Begin(v, s, st, s.stats[p]), base, q, p) { TrapKeepsPiece(v, s, st, base, q, p); }
  }

  // ---------------------------------------------------------------------------
  // The theorem
  // ---------------------------------------------------------------------------

  /** The compute at i against the copy just issued at layer p, in a piece that began at layer
      q after `base` operations: it precedes the piece and happens before the copy, or it is
      the compute of a layer c of the piece and happens before the copy exactly when the
      piece's copies up to layer p wait for the reader at layer c or a later one. */
  ghost predicate OrderedExactly(s: Schedule, tr: Trace, base: nat, q: nat, p: nat, i: nat)
    requires Loadable(s) && q <= p < |s.stats| && s.Slot(s.stats[p])
  {
    var j := |tr| - 2;
    && i < j && tr[j] == Copy(s.stats[p], s.block[s.stats[p]])
    && if i < base then HappensBefore(tr, i, j)
       else exists c :: q <= c < p && tr[i] == Compute(s.stats[c]) && (HappensBefore(tr, i, j) <==> SomeReaderFrom(s, q, p + 1, c))
  }

  /** For either loader, any overlap-free schedule, any prefetch policy and any number of
      forwards with joins anywhere: how each copy is ordered with each earlier compute. */
  lemma WriteAfterReadIff(v: Variant, s: Schedule, order: seq<Label>, policy: Policy,
                          script: seq<seq<bool>>, joins: seq<bool>, p: nat, i: nat)
    requires Loadable(s) && s.OverlapFree() && PreloadOrder(s, order)
    requires (forall f :: f in script ==> |f| == |s.stats|) && |joins| == |s.stats|
    requires p < |s.stats| && s.Slot(s.stats[p])
    requires var st := Layers(v, s, Forwards(v, s, Preloaded(v, s, order, policy), script), joins, p);
             i < |st.issued| && st.issued[i].Compute?
    ensures var start := Forwards(v, s, Preloaded(v, s, order, policy), script);
            OrderedExactly(s, Enter(v, s, Layers(v, s, start, joins, p), s.stats[p]).issued,
                           PieceBase(v, s, start, joins, p), PieceStart(joins, p), p, i)
  {
    PreloadIsReady(v, s, order, policy);
    ForwardsKeep(v, s, Preloaded(v, s, order, policy), script);
    var start := Forwards(v, s, Preloaded(v, s, order, policy), script);
    StartIsFresh(v, s, start);
    LayersInPiece(v, s, start, joins, p);
    EnterInPiece(v, s, Layers(v, s, start, joins, p), PieceBase(v, s, start, joins, p), PieceStart(joins, p), p, i);
  }

  lemma StartIsFresh(v: Variant, s: Schedule, st: Loader)
    requires Loadable(s) && Between(v, s, st, 0)
    ensures Fresh(s, st, 0)
  {
  }

  lemma EnterInPiece(v: Variant, s: Schedule, st: Loader, base: nat, q: nat, p: nat, i: nat)
    requires Loadable(s) && OccupantsKnown(s, st) && q <= p < |s.stats| && s.Slot(s.stats[p])
    requires InPiece(s, Begin(v, s, st, s.stats[p]), base, q, p) && i < |st.issued| && st.issued[i].Compute?
    ensures OrderedExactly(s, Enter(v, s, st, s.stats[p]).issued, base, q, p, i)
  {
    var a := Begin(v, s, st, s.stats[p]);
    BeginAppends(v, s, st, s.stats[p]);
    CopyInPiece(v, s, a, base, q, p, i);
  }

  lemma CopyInPiece(v: Variant, s: Schedule, st: Loader, base: nat, q: nat, p: nat, i: nat)
    requires Loadable(s) && q <= p < |s.stats| && InPiece(s, st, base, q, p) && OccupantsKnown(s, st)
    requires s.Slot(s.stats[p])
    requires i < |st.issued| && st.issued[i].Compute?
    ensures OrderedExactly(s, ScheduleCopy(v, s, st, s.stats[p]).issued, base, q, p, i)
  {
    CopyShape(v, s, st, s.stats[p]);
    ScheduledWaits(v, s, st, base, q, p);
    CopyInTrace(s, st, ScheduleCopy(v, s, st, s.stats[p]).issued, base, q, p, i);
  }

  lemma CopyInTrace(s: Schedule, st: Loader, tr: Trace, base: nat, q: nat, p: nat, i: nat)
    requires Loadable(s) && q <= p < |s.stats| && s.Slot(s.stats[p]) && Forked(st, base)
    requires EventsOfPiece(s, st, base, q, p) && ComputesOfPiece(s, st, base, q, p)
    requires OnlyReaders(s, st, tr, base, q, p + 1) && AllReaders(s, st, tr, q, p + 1)
    requires st.issued <= tr && |st.issued| + 2 <= |tr|
    requires tr[|tr| - 2] == Copy(s.stats[p], s.block[s.stats[p]]) && tr[|tr| - 1] == Record(TransferStream)
    requires i < |st.issued| && st.issued[i].Compute?
    ensures OrderedExactly(s, tr, base, q, p, i)
  {
    if i < base {
      CopyAfterEarlierPiece(tr, base, i, |tr| - 2);
    } else {
      var c := ComputeIndex(s, st, base, q, p, i);
      CopyInOwnPiece(s, st, tr, base, q, p, i, c);
    }
  }

  lemma ComputeIndex(s: Schedule, st: Loader, base: nat, q: nat, p: nat, i: nat) returns (c: nat)
    requires q <= p < |s.stats| && ComputesOfPiece(s, st, base, q, p)
    requires base <= i < |st.issued| && st.issued[i].Compute?
    ensures q <= c < p && ComputeOf(s, st, q, p, i, c)
  {
    assert IsCompute(st.issued, i);
    c :| q <= c < p && ComputeOf(s, st, q, p, i, c);
  }

  lemma CopyInOwnPiece(s: Schedule, st: Loader, tr: Trace, base: nat, q: nat, p: nat, i: nat, c: nat)
    requires Loadable(s) && q <= c < p < |s.stats| && s.Slot(s.stats[p]) && EventsOfPiece(s, st, base, q, p)
    requires OnlyReaders(s, st, tr, base, q, p + 1) && AllReaders(s, st, tr, q, p + 1)
    requires st.issued <= tr && |st.issued| + 2 <= |tr|
    requires tr[|tr| - 2] == Copy(s.stats[p], s.block[s.stats[p]]) && tr[|tr| - 1] == Record(TransferStream)
    requires base + 1 < i < |st.issued| && ComputeOf(s, st, q, p, i, c)
    ensures OrderedExactly(s, tr, base, q, p, i)
  {
    CopyAfterComputeIff(s, st, base, q, p, tr, i, c, |tr| - 2);
    OrderedByReaders(s, tr, base, q, p, i, c);
  }

  lemma OrderedByReaders(s: Schedule, tr: Trace, base: nat, q: nat, p: nat, i: nat, c: nat)
    requires Loadable(s) && q <= c < p < |s.stats| && s.Slot(s.stats[p]) && base <= i < |tr| - 2
    requires tr[i] == Compute(s.stats[c]) && tr[|tr| - 2] == Copy(s.stats[p], s.block[s.stats[p]])
    requires HappensBefore(tr, i, |tr| - 2) <==> SomeReaderFrom(s, q, p + 1, c)
    ensures OrderedExactly(s, tr, base, q, p, i)
  {
  }

  // ---------------------------------------------------------------------------
  // Which readers are covered
  // ---------------------------------------------------------------------------

  /** Once the piece has filled a block, its next copy into the block waits for every layer of
      the piece that read the block, wherever that layer's own transfer was issued. */
  lemma ReadersAreCovered(s: Schedule, q: nat, p: nat, y: Label)
    requires Loadable(s) && s.OverlapFree() && q <= p < |s.stats| && s.Slot(s.stats[p])
    requires s.Slot(y) && s.block[y] == s.block[s.stats[p]] && q <= s.To(y) < p
    requires Latest(s, q, p, s.block[s.stats[p]]) != -1
    ensures SomeReaderFrom(s, q, p + 1, s.To(y))
  {
    var z := s.stats[Latest(s, q, p, s.block[s.stats[p]])];
    assert s.Slot(z) by { assert z in s.block.Keys; }
    OverlapFreeByPositions(s, y, z);
    OverlapFreeByPositions(s, z, s.stats[p]);
    assert Reader(s, q, p) == s.To(z) && s.To(y) <= s.To(z);
    assert IsReader(s, q, p + 1, s.To(z));
  }

  lemma OverlapFreeByPositions(s: Schedule, x: Label, y: Label)
    requires s.WellPlaced() && s.OverlapFree() && s.Slot(x) && s.Slot(y) && s.block[x] == s.block[y]
    ensures s.Pos(x) != s.To(x) && s.Pos(y) != s.To(y)
    ensures x != y ==> !InArc(s.Pos(x), s.Pos(y), s.To(y)) && !InArc(s.Pos(y), s.Pos(x), s.To(x))
  {
    assert !s.Clash(x, x) && !s.Clash(y, y) && !s.Clash(x, y);
    ArcsMeet(s.Pos(x), s.To(x), s.Pos(y), s.To(y), |s.stats|);
  }

  /** In every run of either loader: a copy into a block happens after every compute issued
      before it that reads the block, unless both the compute and the copy belong to a piece
      that has not filled the block since it began. */
  lemma RefillFollowsReaders(v: Variant, s: Schedule, order: seq<Label>, policy: Policy, script: seq<seq<bool>>,
                             joins: seq<bool>, p: nat, i: nat, y: Label)
    requires Loadable(s) && s.OverlapFree() && PreloadOrder(s, order)
    requires (forall f :: f in script ==> |f| == |s.stats|) && |joins| == |s.stats|
    requires p < |s.stats| && s.Slot(s.stats[p]) && s.Slot(y) && s.block[y] == s.block[s.stats[p]]
    requires var st := Layers(v, s, Forwards(v, s, Preloaded(v, s, order, policy), script), joins, p);
             i < |st.issued| && st.issued[i] == Compute(s.compute[y])
    requires i < PieceBase(v, s, Forwards(v, s, Preloaded(v, s, order, policy), script), joins, p) ||
             Latest(s, PieceStart(joins, p), p, s.block[s.stats[p]]) != -1
    ensures var start := Forwards(v, s, Preloaded(v, s, order, policy), script);
            var tr := Enter(v, s, Layers(v, s, start, joins, p), s.stats[p]).issued;
            i < |tr| - 2 && tr[|tr| - 2] == Copy(s.stats[p], s.block[s.stats[p]]) && HappensBefore(tr, i, |tr| - 2)
  {
    WriteAfterReadIff(v, s, order, policy, script, joins, p, i);
    var start := Forwards(v, s, Preloaded(v, s, order, policy), script);
    var before := Layers(v, s, start, joins, p);
    var tr := Enter(v, s, before, s.stats[p]).issued;
    EnterAppends(v, s, before, s.stats[p]);
    assert tr[i] == Compute(s.compute[y]);
    ReaderIsOrdered(s, tr, PieceBase(v, s, start, joins, p), PieceStart(joins, p), p, i, y);
  }

  lemma ReaderIsOrdered(s: Schedule, tr: Trace, base: nat, q: nat, p: nat, i: nat, y: Label)
    requires Loadable(s) && s.OverlapFree() && q <= p < |s.stats| && s.Slot(s.stats[p])
    requires s.Slot(y) && s.block[y] == s.block[s.stats[p]]
    requires OrderedExactly(s, tr, base, q, p, i) && tr[i] == Compute(s.compute[y])
    requires i < base || Latest(s, q, p, s.block[s.stats[p]]) != -1
    ensures HappensBefore(tr, i, |tr| - 2)
  {
    if i >= base {
      var c :| q <= c < p && tr[i] == Compute(s.stats[c]) &&
               (HappensBefore(tr, i, |tr| - 2) <==> SomeReaderFrom(s, q, p + 1, c));
      assert s.To(y) == c;
      ReadersAreCovered(s, q, p, y);
    }
  }

  /** The first refill of a block after the piece began waits for nothing, so with no other
      copy waiting it is unordered with the layer that read what was there. */
  lemma FirstRefillIsUncovered(s: Schedule, q: nat, p: nat, c: nat)
    requires Loadable(s) && q <= c < p < |s.stats|
    requires forall u :: q <= u <= p && s.stats[u] in s.block ==> Latest(s, q, u, s.block[s.stats[u]]) == -1
    ensures !SomeReaderFrom(s, q, p + 1, c)
  {
  }

  lemma LayerComputes(v: Variant, s: Schedule, st: Loader, joins: seq<bool>, k: nat) returns (i: nat)
    requires Loadable(s) && OccupantsKnown(s, st) && |joins| == |s.stats| && k < |s.stats|
    ensures |Layers(v, s, st, joins, k).issued| <= i < |Layers(v, s, st, joins, k + 1).issued|
    ensures Layers(v, s, st, joins, k + 1).issued[i] == Compute(s.stats[k])
  {
    NextLayerIsTrap(v, s, st, joins, k + 1);
    var before := Layers(v, s, st, joins, k);
    i := TrapComputes(v, s, before, s.stats[k], joins[k]);
  }

  lemma TrapComputes(v: Variant, s: Schedule, st: Loader, l: Label, join: bool) returns (i: nat)
    requires Loadable(s) && OccupantsKnown(s, st)
    ensures |st.issued| <= i < |Trap(v, s, st, l, join).issued| && Trap(v, s, st, l, join).issued[i] == Compute(l)
  {
    EnterAppends(v, s, st, l);
    var a := Issue(Enter(v, s, st, l), [Compute(l)]);
    ExitAppends(v, s, a, l);
    i := |a.issued| - 1;
  }

  lemma BeginAppends(v: Variant, s: Schedule, st: Loader, l: Label)
    requires Loadable(s) && OccupantsKnown(s, st)
    ensures st.issued <= Begin(v, s, st, l).issued && OccupantsKnown(s, Begin(v, s, st, l))
  {
  }

  lemma EnterAppends(v: Variant, s: Schedule, st: Loader, l: Label)
    requires Loadable(s) && OccupantsKnown(s, st)
    ensures st.issued <= Enter(v, s, st, l).issued
  {
    BeginAppends(v, s, st, l);
    if l in s.block {
      assert l in s.block.Keys;
      CopyShape(v, s, Begin(v, s, st, l), l);
    }
  }

  lemma ExitAppends(v: Variant, s: Schedule, st: Loader, l: Label)
    requires Loadable(s)
    ensures st.issued <= Exit(v, s, st, l).issued
  {
    var a := RecordCompute(if v.Rolling? then AwaitTransfer(st, l) else st, l);
    assert st.issued <= a.issued;
    assert a.issued <= Join(a, true).issued;
  }

  /** The first refill of a piece, unordered with a layer of the piece: in the first forward
      of this schedule, without joins, the copy issued at l[1] may overwrite the block while
      the compute of l[0] reads it. */
  lemma WrapAroundRefillUnordered(v: Variant, l: seq<Label>, policy: Policy) returns (i: nat)
    requires |l| == 4 && Distinct(l)
    ensures var s := WrapAround(l);
            && Loadable(s) && s.OverlapFree() && PreloadOrder(s, [l[3]])
            && s.compute[l[3]] == l[0] && s.block[l[3]] == s.block[l[1]]
            && Unordered(s, Enter(v, s, Layers(v, s, Preloaded(v, s, [l[3]], policy), NO_JOINS, 1), l[1]).issued, i, l[0], l[1])
  {
    var s := WrapAround(l);
    WrapAroundIsLoadable(l);
    var start := Preloaded(v, s, [l[3]], policy);
    PreloadIsReady(v, s, [l[3]], policy);
    i := LayerComputes(v, s, start, NO_JOINS, 0);
    LayersInPiece(v, s, start, NO_JOINS, 1);
    assert PieceStart(NO_JOINS, 1) == 0;
    FirstRefillIsUncovered(s, 0, 1, 0);
    UncoveredIsUnordered(v, s, Layers(v, s, start, NO_JOINS, 1), PieceBase(v, s, start, NO_JOINS, 1), 0, 1, 0, i);
  }

  /** The compute of layer c at i, and the copy of transfer x issued last, in no order. */
  ghost predicate Unordered(s: Schedule, tr: Trace, i: nat, c: Label, x: Label)
    requires x in s.block
  {
    var j := |tr| - 2;
    0 <= i < j && tr[i] == Compute(c) && tr[j] == Copy(x, s.block[x]) && !HappensBefore(tr, i, j) && !HappensBefore(tr, j, i)
  }

  lemma UncoveredIsUnordered(v: Variant, s: Schedule, st: Loader, base: nat, q: nat, p: nat, c: nat, i: nat)
    requires Loadable(s) && OccupantsKnown(s, st) && q <= c < p < |s.stats| && s.Slot(s.stats[p])
    requires InPiece(s, Begin(v, s, st, s.stats[p]), base, q, p)
    requires base <= i < |st.issued| && st.issued[i] == Compute(s.stats[c]) && !SomeReaderFrom(s, q, p + 1, c)
    ensures Unordered(s, Enter(v, s, st, s.stats[p]).issued, i, s.stats[c], s.stats[p])
  {
    EnterInPiece(v, s, st, base, q, p, i);
    EnterAppends(v, s, st, s.stats[p]);
  }
}
