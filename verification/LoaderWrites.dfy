/** Write after read: exactly when a copy into a block waits for an earlier layer that read
  the block. A piece is what runs between two joins, or from the start of a forward. */
module LoaderWrites {
  import opened Timeline
  import opened Streams
  import opened LoaderProtocol
  import opened LoaderReads

  /** The last layer in [q, p) whose copy goes to block b, or -1. */
  function Latest(s: Schedule, q: int, p: int, b: int): (u: int)
    requires 0 <= q && p <= |s.stats|
    ensures u == -1 || (q <= u < p && s.stats[u] in s.block && s.block[s.stats[u]] == b)
    ensures forall k :: q <= k < p && s.stats[k] in s.block && s.block[s.stats[k]] == b ==> k <= u
    decreases p - q
  {
    if p <= q then -1
    else if s.stats[p - 1] in s.block && s.block[s.stats[p - 1]] == b then p - 1
    else Latest(s, q, p - 1, b)
  }

  /** The reader that the copy of layer p waits for: the compute of the block's previous
      occupant, if both the occupant and its compute came after the piece began at q. */
  function Reader(s: Schedule, q: int, p: int): (k: int)
    requires Loadable(s) && 0 <= q <= p < |s.stats|
    ensures k == -1 || q <= k < p
  {
    if s.stats[p] in s.block then
      var u := Latest(s, q, p, s.block[s.stats[p]]);
      if u == -1 then -1
      else
        assert s.stats[u] in s.block.Keys;
        if q <= s.To(s.stats[u]) < p then s.To(s.stats[u]) else -1
    else -1
  }

  /** The readers waited for by the copies of layers [q, p). */
  ghost predicate IsReader(s: Schedule, q: int, p: int, k: int)
    requires Loadable(s) && 0 <= q && p <= |s.stats|
  {
    k != -1 && exists u :: q <= u < p && Reader(s, q, u) == k
  }

  /** The piece that began at layer q, with `base` operations issued before it, has run
      layers [q, p): what its maps and its waits are. */
  ghost predicate InPiece(s: Schedule, st: Loader, base: nat, q: nat, p: nat)
    requires Loadable(s) && q <= p <= |s.stats|
  {
    && st.pending && base + 1 < |st.issued|
    && st.issued[base] == Record(ComputeStream) && st.issued[base + 1] == Wait(TransferStream, base)
    && EventsOfPiece(s, st, base, q, p) && ComputesOfPiece(s, st, base, q, p)
    && OccupantsOfPiece(s, st, q, p) && WaitsOfPiece(s, st, base, q, p)
  }

  ghost predicate EventsOfPiece(s: Schedule, st: Loader, base: nat, q: nat, p: nat)
    requires q <= p <= |s.stats|
  {
    && (forall l :: l in st.computeEvents ==> l in s.stats[q..p])
    && (forall k {:trigger EventAfter(st, base, s.stats[k])} :: q <= k < p ==> EventAfter(st, base, s.stats[k]))
  }

  ghost predicate EventAfter(st: Loader, base: nat, l: Label) {
    l in st.computeEvents && base + 1 < st.computeEvents[l] && IsRecord(st.issued, st.computeEvents[l], ComputeStream)
  }

  /** The compute of layer k lies between the events of layer k - 1 and of layer k. */
  ghost predicate ComputesOfPiece(s: Schedule, st: Loader, base: nat, q: nat, p: nat)
    requires q <= p <= |s.stats|
  {
    forall i: nat {:trigger IsCompute(st.issued, i)} :: base <= i < |st.issued| && IsCompute(st.issued, i) ==>
      exists k :: q <= k < p && ComputeOf(s, st, q, p, i, k)
  }

  ghost predicate IsCompute(tr: Trace, i: nat)
    requires i < |tr|
  {
    tr[i].Compute?
  }

  ghost predicate ComputeOf(s: Schedule, st: Loader, q: nat, p: nat, i: nat, k: int)
    requires q <= p <= |s.stats| && i < |st.issued|
  {
    && q <= k < p && st.issued[i] == Compute(s.stats[k])
    && forall j :: q <= j < p ==> s.stats[j] in st.computeEvents && (i <= st.computeEvents[s.stats[j]] <==> k <= j)
  }

  ghost predicate OccupantsOfPiece(s: Schedule, st: Loader, q: nat, p: nat)
    requires q <= p <= |s.stats|
  {
    forall b {:trigger IsOccupied(s, st, q, p, b)} :: IsOccupied(s, st, q, p, b)
  }

  /** Block b holds the piece's latest copy into it. */
  ghost predicate IsOccupied(s: Schedule, st: Loader, q: nat, p: nat, b: int)
    requires q <= p <= |s.stats|
  {
    var u := Latest(s, q, p, b);
    if u == -1 then b !in st.occupant else b in st.occupant && st.occupant[b] == s.stats[u]
  }

  ghost predicate WaitsOfPiece(s: Schedule, st: Loader, base: nat, q: nat, p: nat)
    requires Loadable(s) && q <= p <= |s.stats|
  {
    OnlyReaders(s, st, st.issued, base, q, p) && AllReaders(s, st, st.issued, q, p)
  }

  ghost predicate ReaderEvent(s: Schedule, st: Loader, q: nat, p: nat, k: int, e: nat)
    requires Loadable(s) && q <= p <= |s.stats|
  {
    0 <= k < p && IsReader(s, q, p, k) && s.stats[k] in st.computeEvents && e == st.computeEvents[s.stats[k]]
  }

  ghost predicate TransferWait(tr: Trace, w: nat)
    requires w < |tr|
  {
    tr[w].Wait? && tr[w].on == TransferStream
  }

  /** Since the piece's fork the transfer stream waited for readers only ... */
  ghost predicate OnlyReaders(s: Schedule, st: Loader, tr: Trace, base: nat, q: nat, p: nat)
    requires Loadable(s) && q <= p <= |s.stats|
  {
    forall w: nat {:trigger TransferWait(tr, w)} :: base + 1 < w < |tr| && TransferWait(tr, w) ==>
      exists k :: ReaderEvent(s, st, q, p, k, tr[w].event)
  }

  /** ... and for every one of them. */
  ghost predicate AllReaders(s: Schedule, st: Loader, tr: Trace, q: nat, p: nat)
    requires Loadable(s) && q <= p <= |s.stats|
  {
    forall k :: IsReader(s, q, p, k) ==> 0 <= k < |s.stats| && s.stats[k] in st.computeEvents && WaitedFor(tr, st.computeEvents[s.stats[k]])
  }

  ghost predicate WaitedFor(tr: Trace, e: nat) {
    exists w: nat :: e < w < |tr| && tr[w] == Wait(TransferStream, e)
  }

  /** The copies of layers [q, p) wait for layer c or a later one. */
  ghost predicate SomeReaderFrom(s: Schedule, q: int, p: int, c: int)
    requires Loadable(s) && 0 <= q && p <= |s.stats|
  {
    exists k :: c <= k && IsReader(s, q, p, k)
  }

  // ---------------------------------------------------------------------------
  // The ordering, for one copy
  // ---------------------------------------------------------------------------

  /** The event waited for before layer p's copy is that of its reader. */
  lemma ReaderIsAwaited(s: Schedule, st: Loader, base: nat, q: nat, p: nat)
    requires Loadable(s) && q <= p < |s.stats| && EventsOfPiece(s, st, base, q, p) && OccupantsOfPiece(s, st, q, p)
    requires OccupantsKnown(s, st) && s.Slot(s.stats[p])
    ensures var k := Reader(s, q, p);
            if k == -1 then AwaitReader(s, st, s.block[s.stats[p]]) == []
            else s.stats[k] in st.computeEvents &&
                 AwaitReader(s, st, s.block[s.stats[p]]) == [Wait(TransferStream, st.computeEvents[s.stats[k]])]
  {
    var b, k := s.block[s.stats[p]], Reader(s, q, p);
    var u := Latest(s, q, p, b);
    if k != -1 { assert EventAfter(st, base, s.stats[k]); }
    assert IsOccupied(s, st, q, p, b);
    if u != -1 {
      var reader := s.compute[s.stats[u]];
      if reader in st.computeEvents {
        var c :| q <= c < p && s.stats[c] == reader;
        assert s.To(s.stats[u]) == c;
      }
    }
  }

  lemma ReadersNext(s: Schedule, q: nat, p: nat, k: int)
    requires Loadable(s) && q <= p < |s.stats|
    ensures IsReader(s, q, p + 1, k) <==> IsReader(s, q, p, k) || (k != -1 && k == Reader(s, q, p))
  {
  }

  /** The transfer stream's waits once layer p's copy has been issued, whatever else was. */
  lemma CopyWaits(s: Schedule, st: Loader, base: nat, q: nat, p: nat, tr: Trace)
    requires Loadable(s) && q <= p < |s.stats| && EventsOfPiece(s, st, base, q, p) && WaitsOfPiece(s, st, base, q, p)
    requires st.issued <= tr
    requires var k := Reader(s, q, p);
             && (k != -1 ==> s.stats[k] in st.computeEvents && WaitedFor(tr, st.computeEvents[s.stats[k]]))
             && forall w :: |st.issued| <= w < |tr| && tr[w].Wait? && tr[w].on == TransferStream ==>
                  k != -1 && tr[w].event == st.computeEvents[s.stats[k]]
    ensures OnlyReaders(s, st, tr, base, q, p + 1) && AllReaders(s, st, tr, q, p + 1)
  {
    var p' := p + 1;
    forall k ensures IsReader(s, q, p', k) <==> IsReader(s, q, p, k) || (k != -1 && k == Reader(s, q, p)) {
      ReadersNext(s, q, p, k);
    }
    forall w: nat | base + 1 < w < |tr| && TransferWait(tr, w)
      ensures exists k :: ReaderEvent(s, st, q, p', k, tr[w].event)
    {
      if w < |st.issued| {
        assert TransferWait(st.issued, w);
        var k :| ReaderEvent(s, st, q, p, k, st.issued[w].event);
        assert ReaderEvent(s, st, q, p', k, tr[w].event);
      } else {
        assert ReaderEvent(s, st, q, p', Reader(s, q, p), tr[w].event);
      }
    }
    forall k | IsReader(s, q, p', k)
      ensures 0 <= k < |s.stats| && s.stats[k] in st.computeEvents && WaitedFor(tr, st.computeEvents[s.stats[k]])
    {
      if IsReader(s, q, p, k) { WaitedForGrows(st.issued, tr, st.computeEvents[s.stats[k]]); }
    }
  }

  lemma WaitedForGrows(tr: Trace, tr': Trace, e: nat)
    requires tr <= tr' && WaitedFor(tr, e)
    ensures WaitedFor(tr', e)
  {
    var w: nat :| e < w < |tr| && tr[w] == Wait(TransferStream, e);
    assert tr'[w] == Wait(TransferStream, e);
  }

  lemma CopyShape(v: Variant, s: Schedule, st: Loader, l: Label)
    requires l in s.block && l in s.compute && OccupantsKnown(s, st)
    ensures ScheduleCopy(v, s, st, l).issued ==
              st.issued + AwaitReader(s, st, s.block[l]) + [Copy(l, s.block[l]), Record(TransferStream)]
  {
  }

  /** What the copy of layer p issues. */
  lemma ScheduledWaits(v: Variant, s: Schedule, st: Loader, base: nat, q: nat, p: nat)
    requires Loadable(s) && q <= p < |s.stats| && OccupantsKnown(s, st) && s.Slot(s.stats[p])
    requires EventsOfPiece(s, st, base, q, p) && OccupantsOfPiece(s, st, q, p) && WaitsOfPiece(s, st, base, q, p)
    ensures var tr := ScheduleCopy(v, s, st, s.stats[p]).issued;
            OnlyReaders(s, st, tr, base, q, p + 1) && AllReaders(s, st, tr, q, p + 1)
  {
    var l := s.stats[p];
    CopyShape(v, s, st, l);
    ReaderIsAwaited(s, st, base, q, p);
    CopyWaitsFor(s, st, base, q, p, AwaitReader(s, st, s.block[l]), [Copy(l, s.block[l]), Record(TransferStream)]);
  }

  lemma CopyWaitsFor(s: Schedule, st: Loader, base: nat, q: nat, p: nat, waits: Trace, rest: Trace)
    requires Loadable(s) && q <= p < |s.stats| && EventsOfPiece(s, st, base, q, p) && WaitsOfPiece(s, st, base, q, p)
    requires var k := Reader(s, q, p);
             if k == -1 then waits == []
             else s.stats[k] in st.computeEvents && waits == [Wait(TransferStream, st.computeEvents[s.stats[k]])]
    requires forall w :: 0 <= w < |rest| ==> !rest[w].Wait?
    ensures var tr := st.issued + waits + rest;
            OnlyReaders(s, st, tr, base, q, p + 1) && AllReaders(s, st, tr, q, p + 1)
  {
    var tr, k := st.issued + waits + rest, Reader(s, q, p);
    if k != -1 {
      assert EventAfter(st, base, s.stats[k]);
      assert tr[|st.issued|] == Wait(TransferStream, st.computeEvents[s.stats[k]]);
    }
    CopyWaits(s, st, base, q, p, tr);
  }

  /** A compute before the piece happens before everything copied in the piece. */
  lemma CopyAfterEarlierPiece(tr: Trace, base: nat, i: nat, j: nat)
    requires i < base && base + 1 < j < |tr| && tr[i].Compute? && tr[j].Copy?
    requires tr[base] == Record(ComputeStream) && tr[base + 1] == Wait(TransferStream, base)
    ensures HappensBefore(tr, i, j)
  {
    assert IsWaitPast(tr, i, base + 1, TransferStream);
    HappensBeforeAcross(tr, i, j);
  }

  /** The compute of layer c of the piece happens before a copy of the piece exactly when the
      piece's copies up to that one wait for layer c or a later one. */
  lemma CopyAfterComputeIff(s: Schedule, st: Loader, base: nat, q: nat, p: nat, tr: Trace, i: nat, c: nat, j: nat)
    requires Loadable(s) && q <= p < |s.stats| && st.issued <= tr
    requires OnlyReaders(s, st, tr, base, q, p + 1) && AllReaders(s, st, tr, q, p + 1)
    requires base + 1 < i < |st.issued| && EventsOfPiece(s, st, base, q, p) && ComputeOf(s, st, q, p, i, c)
    requires |st.issued| <= j < |tr| && tr[j].Copy? && forall w :: j < w < |tr| ==> !tr[w].Wait?
    ensures HappensBefore(tr, i, j) <==> SomeReaderFrom(s, q, p + 1, c)
  {
    HappensBeforeAcross(tr, i, j);
    if Awaited(tr, i, j, TransferStream) { AwaitedNeedsReader(s, st, base, q, p, tr, i, c, j); }
    if SomeReaderFrom(s, q, p + 1, c) {
      var k :| c <= k && IsReader(s, q, p + 1, k);
      ReaderGivesAwaited(s, st, base, q, p, tr, i, c, k, j);
    }
  }

  lemma AwaitedNeedsReader(s: Schedule, st: Loader, base: nat, q: nat, p: nat, tr: Trace, i: nat, c: nat, j: nat)
    requires Loadable(s) && q <= p < |s.stats| && st.issued <= tr && OnlyReaders(s, st, tr, base, q, p + 1)
    requires base + 1 < i < |st.issued| && EventsOfPiece(s, st, base, q, p) && ComputeOf(s, st, q, p, i, c)
    requires j < |tr| && Awaited(tr, i, j, TransferStream)
    ensures SomeReaderFrom(s, q, p + 1, c)
  {
    var w: nat :| i < w <= j && w < |tr| && IsWaitPast(tr, i, w, TransferStream);
    assert TransferWait(tr, w);
    var k :| ReaderEvent(s, st, q, p + 1, k, tr[w].event);
    ReaderInPiece(s, q, p, k);
    assert c <= k;
  }

  lemma ReaderGivesAwaited(s: Schedule, st: Loader, base: nat, q: nat, p: nat, tr: Trace, i: nat, c: nat, k: int,
                           j: nat)
    requires Loadable(s) && q <= p < |s.stats| && st.issued <= tr && AllReaders(s, st, tr, q, p + 1)
    requires base + 1 < i < |st.issued| && EventsOfPiece(s, st, base, q, p) && ComputeOf(s, st, q, p, i, c)
    requires |st.issued| <= j < |tr| && forall w :: j < w < |tr| ==> !tr[w].Wait?
    requires c <= k && IsReader(s, q, p + 1, k)
    ensures Awaited(tr, i, j, TransferStream)
  {
    ReaderInPiece(s, q, p, k);
    var e := st.computeEvents[s.stats[k]];
    var w: nat :| e < w < |tr| && tr[w] == Wait(TransferStream, e);
    assert EventAfter(st, base, s.stats[k]);
    assert IsWaitPast(tr, i, w, TransferStream);
  }

  lemma ReaderInPiece(s: Schedule, q: nat, p: nat, k: int)
    requires Loadable(s) && q <= p < |s.stats| && IsReader(s, q, p + 1, k)
    ensures q <= k < p
  {
  }

  // ---------------------------------------------------------------------------
  // One layer keeps the piece
  // ---------------------------------------------------------------------------

  /** Only waits of the compute stream. */
  ghost predicate ComputeWaits(ops: Trace) {
    forall k :: 0 <= k < |ops| ==> ops[k].Wait? && ops[k].on == ComputeStream
  }

  ghost predicate Forked(st: Loader, base: nat) {
    && st.pending && base + 1 < |st.issued|
    && st.issued[base] == Record(ComputeStream) && st.issued[base + 1] == Wait(TransferStream, base)
  }

  lemma EventsGrow(s: Schedule, st: Loader, st': Loader, base: nat, q: nat, p: nat)
    requires q <= p <= |s.stats| && EventsOfPiece(s, st, base, q, p) && ComputesOfPiece(s, st, base, q, p)
    requires st.issued <= st'.issued && st'.computeEvents == st.computeEvents
    requires forall k :: |st.issued| <= k < |st'.issued| ==> !st'.issued[k].Compute?
    ensures EventsOfPiece(s, st', base, q, p) && ComputesOfPiece(s, st', base, q, p)
  {
    forall k | q <= k < p ensures EventAfter(st', base, s.stats[k]) { assert EventAfter(st, base, s.stats[k]); }
    forall i: nat | base <= i < |st'.issued| && IsCompute(st'.issued, i) ensures exists k :: q <= k < p && ComputeOf(s, st', q, p, i, k) {
      assert IsCompute(st.issued, i);
      var k :| q <= k < p && ComputeOf(s, st, q, p, i, k);
      assert ComputeOf(s, st', q, p, i, k);
    }
  }

  lemma WaitsGrow(s: Schedule, st: Loader, tr: Trace, ops: Trace, base: nat, q: nat, p: nat)
    requires Loadable(s) && q <= p <= |s.stats| && OnlyReaders(s, st, tr, base, q, p) && AllReaders(s, st, tr, q, p)
    requires forall k :: 0 <= k < |ops| ==> !(ops[k].Wait? && ops[k].on == TransferStream)
    ensures OnlyReaders(s, st, tr + ops, base, q, p) && AllReaders(s, st, tr + ops, q, p)
  {
    forall w: nat | base + 1 < w < |tr + ops| && TransferWait(tr + ops, w)
      ensures exists k :: ReaderEvent(s, st, q, p, k, (tr + ops)[w].event)
    {
      assert TransferWait(tr, w);
    }
    forall k | IsReader(s, q, p, k)
      ensures 0 <= k < |s.stats| && s.stats[k] in st.computeEvents && WaitedFor(tr + ops, st.computeEvents[s.stats[k]])
    {
      WaitedForGrows(tr, tr + ops, st.computeEvents[s.stats[k]]);
    }
  }

  lemma PieceGrows(s: Schedule, st: Loader, st': Loader, ops: Trace, base: nat, q: nat, p: nat)
    requires Loadable(s) && q <= p <= |s.stats| && InPiece(s, st, base, q, p) && ComputeWaits(ops)
    requires st'.issued == st.issued + ops && st'.pending
    requires st'.computeEvents == st.computeEvents && st'.occupant == st.occupant
    ensures InPiece(s, st', base, q, p)
  {
    EventsGrow(s, st, st', base, q, p);
    OccupantsStay(s, st, st', q, p);
    WaitsGrow(s, st, st.issued, ops, base, q, p);
    WaitsByEvents(s, st, st', st'.issued, base, q, p);
  }

  lemma OccupantsStay(s: Schedule, st: Loader, st': Loader, q: nat, p: nat)
    requires q <= p <= |s.stats| && OccupantsOfPiece(s, st, q, p) && st'.occupant == st.occupant
    ensures OccupantsOfPiece(s, st', q, p)
  {
    forall b ensures IsOccupied(s, st', q, p, b) { assert IsOccupied(s, st, q, p, b); }
  }

  /** The waits are judged by the events of the piece's layers only. */
  lemma WaitsByEvents(s: Schedule, st: Loader, st': Loader, tr: Trace, base: nat, q: nat, p: nat)
    requires Loadable(s) && q <= p <= |s.stats| && OnlyReaders(s, st, tr, base, q, p) && AllReaders(s, st, tr, q, p)
    requires forall k :: IsReader(s, q, p, k) && 0 <= k < |s.stats| && s.stats[k] in st.computeEvents ==>
               s.stats[k] in st'.computeEvents && st'.computeEvents[s.stats[k]] == st.computeEvents[s.stats[k]]
    ensures OnlyReaders(s, st', tr, base, q, p) && AllReaders(s, st', tr, q, p)
  {
    forall w: nat | base + 1 < w < |tr| && TransferWait(tr, w)
      ensures exists k :: ReaderEvent(s, st', q, p, k, tr[w].event)
    {
      var k :| ReaderEvent(s, st, q, p, k, tr[w].event);
      assert ReaderEvent(s, st', q, p, k, tr[w].event);
    }
  }

  lemma OccupantsNext(v: Variant, s: Schedule, st: Loader, q: nat, p: nat)
    requires Loadable(s) && q <= p < |s.stats| && OccupantsOfPiece(s, st, q, p) && OccupantsKnown(s, st)
    ensures s.Slot(s.stats[p]) ==> OccupantsOfPiece(s, ScheduleCopy(v, s, st, s.stats[p]), q, p + 1)
    ensures !s.Slot(s.stats[p]) ==> OccupantsOfPiece(s, st, q, p + 1)
  {
    var p' := p + 1;
    assert s.stats[p] in s.block.Keys <==> s.stats[p] in s.compute.Keys;
    var st' := if s.Slot(s.stats[p]) then ScheduleCopy(v, s, st, s.stats[p]) else st;
    forall b ensures IsOccupied(s, st', q, p', b) {
      assert IsOccupied(s, st, q, p, b);
    }
  }

  /** Layer p has issued its copy, if any, and nothing yet of its compute. */
  ghost predicate CopyIssued(s: Schedule, st: Loader, base: nat, q: nat, p: nat)
    requires Loadable(s) && q <= p < |s.stats|
  {
    && Forked(st, base) && EventsOfPiece(s, st, base, q, p) && ComputesOfPiece(s, st, base, q, p)
    && OccupantsOfPiece(s, st, q, p + 1) && WaitsOfPiece(s, st, base, q, p + 1)
  }

  lemma CopyKeepsPiece(v: Variant, s: Schedule, st: Loader, base: nat, q: nat, p: nat)
    requires Loadable(s) && q <= p < |s.stats| && InPiece(s, st, base, q, p) && OccupantsKnown(s, st)
    requires s.Slot(s.stats[p])
    ensures CopyIssued(s, ScheduleCopy(v, s, st, s.stats[p]), base, q, p)
  {
    var st' := ScheduleCopy(v, s, st, s.stats[p]);
    CopyShape(v, s, st, s.stats[p]);
    OccupantsNext(v, s, st, q, p);
    EventsGrow(s, st, st', base, q, p);
    CopyKeepsWaits(v, s, st, base, q, p);
  }

  lemma CopyKeepsWaits(v: Variant, s: Schedule, st: Loader, base: nat, q: nat, p: nat)
    requires Loadable(s) && q <= p < |s.stats| && OccupantsKnown(s, st) && s.Slot(s.stats[p])
    requires EventsOfPiece(s, st, base, q, p) && OccupantsOfPiece(s, st, q, p) && WaitsOfPiece(s, st, base, q, p)
    ensures WaitsOfPiece(s, ScheduleCopy(v, s, st, s.stats[p]), base, q, p + 1)
  {
    var st' := ScheduleCopy(v, s, st, s.stats[p]);
    ScheduledWaits(v, s, st, base, q, p);
    WaitsByEvents(s, st, st', st'.issued, base, q, p + 1);
  }

  lemma NoCopyKeepsPiece(v: Variant, s: Schedule, st: Loader, base: nat, q: nat, p: nat)
    requires Loadable(s) && q <= p < |s.stats| && InPiece(s, st, base, q, p) && OccupantsKnown(s, st)
    requires s.stats[p] !in s.block
    ensures CopyIssued(s, st, base, q, p)
  {
    OccupantsNext(v, s, st, q, p);
    assert Reader(s, q, p) == -1;
    CopyWaitsFor(s, st, base, q, p, [], []);
    assert st.issued + [] + [] == st.issued;
  }

  /** The compute of layer p and the event recorded after it. */
  lemma ComputeKeepsPiece(s: Schedule, st: Loader, st': Loader, ops: Trace, base: nat, q: nat, p: nat)
    requires Loadable(s) && q <= p < |s.stats| && CopyIssued(s, st, base, q, p) && ComputeWaits(ops)
    requires st'.issued == st.issued + ([Compute(s.stats[p])] + ops + [Record(ComputeStream)]) && st'.pending
    requires st'.computeEvents == st.computeEvents[s.stats[p] := |st'.issued| - 1] && st'.occupant == st.occupant
    ensures InPiece(s, st', base, q, p + 1)
  {
    NewEvent(s, st, st', base, q, p);
    OccupantsStay(s, st, st', q, p + 1);
    ComputeKeepsWaits(s, st, st', [Compute(s.stats[p])] + ops + [Record(ComputeStream)], base, q, p);
    ComputesNext(s, st, st', base, q, p);
  }

  lemma ComputeKeepsWaits(s: Schedule, st: Loader, st': Loader, ops: Trace, base: nat, q: nat, p: nat)
    requires Loadable(s) && q <= p < |s.stats| && WaitsOfPiece(s, st, base, q, p + 1) && st'.issued == st.issued + ops
    requires forall k :: 0 <= k < |ops| ==> !(ops[k].Wait? && ops[k].on == TransferStream)
    requires forall k :: q <= k < p ==> s.stats[k] in st.computeEvents && s.stats[k] in st'.computeEvents
    requires forall k :: q <= k < p ==> st'.computeEvents[s.stats[k]] == st.computeEvents[s.stats[k]]
    ensures WaitsOfPiece(s, st', base, q, p + 1)
  {
    var p' := p + 1;
    WaitsGrow(s, st, st.issued, ops, base, q, p');
    forall k | IsReader(s, q, p', k) ensures q <= k < p { ReaderInPiece(s, q, p, k); }
    WaitsByEvents(s, st, st', st'.issued, base, q, p');
  }

  lemma NewEvent(s: Schedule, st: Loader, st': Loader, base: nat, q: nat, p: nat)
    requires Loadable(s) && q <= p < |s.stats| && EventsOfPiece(s, st, base, q, p)
    requires base + 1 < |st.issued| < |st'.issued|
    requires st.issued <= st'.issued && st'.issued[|st'.issued| - 1] == Record(ComputeStream)
    requires st'.computeEvents == st.computeEvents[s.stats[p] := |st'.issued| - 1]
    ensures EventsOfPiece(s, st', base, q, p + 1)
    ensures forall k :: q <= k < p ==> s.stats[k] in st.computeEvents && st'.computeEvents[s.stats[k]] == st.computeEvents[s.stats[k]]
  {
    assert s.stats[q..p + 1] == s.stats[q..p] + [s.stats[p]];
    forall k | q <= k < p + 1 ensures EventAfter(st', base, s.stats[k]) {
      if k < p { assert EventAfter(st, base, s.stats[k]); }
    }
    assert forall k :: q <= k < p ==> EventAfter(st, base, s.stats[k]);
  }

  lemma ComputesNext(s: Schedule, st: Loader, st': Loader, base: nat, q: nat, p: nat)
    requires Loadable(s) && q <= p < |s.stats| && EventsOfPiece(s, st, base, q, p) && ComputesOfPiece(s, st, base, q, p)
    requires EventsOfPiece(s, st', base, q, p + 1)
    requires st.issued <= st'.issued && |st.issued| + 1 < |st'.issued| && st'.issued[|st.issued|] == Compute(s.stats[p])
    requires forall k :: |st.issued| < k < |st'.issued| ==> !st'.issued[k].Compute?
    requires st'.computeEvents == st.computeEvents[s.stats[p] := |st'.issued| - 1]
    ensures ComputesOfPiece(s, st', base, q, p + 1)
  {
    var p' := p + 1;
    forall i: nat | base <= i < |st'.issued| && IsCompute(st'.issued, i)
      ensures exists k :: q <= k < p' && ComputeOf(s, st', q, p', i, k)
    {
      if i < |st.issued| {
        assert IsCompute(st.issued, i);
        var k :| q <= k < p && ComputeOf(s, st, q, p, i, k);
        EarlierComputeOf(s, st, st', base, q, p, i, k);
      } else {
        assert i == |st.issued|;
        NewComputeOf(s, st, st', base, q, p);
      }
    }
  }

  lemma EarlierComputeOf(s: Schedule, st: Loader, st': Loader, base: nat, q: nat, p: nat, i: nat, k: nat)
    requires Loadable(s) && q <= p < |s.stats| && i < |st.issued| && ComputeOf(s, st, q, p, i, k)
    requires st.issued <= st'.issued && |st.issued| < |st'.issued|
    requires st'.computeEvents == st.computeEvents[s.stats[p] := |st'.issued| - 1]
    ensures ComputeOf(s, st', q, p + 1, i, k)
  {
    var p' := p + 1;
    forall j | q <= j < p' ensures s.stats[j] in st'.computeEvents && (i <= st'.computeEvents[s.stats[j]] <==> k <= j) {
      assert j < p ==> s.stats[j] in st.computeEvents && (i <= st.computeEvents[s.stats[j]] <==> k <= j);
    }
  }

  lemma NewComputeOf(s: Schedule, st: Loader, st': Loader, base: nat, q: nat, p: nat)
    requires Loadable(s) && q <= p < |s.stats| && EventsOfPiece(s, st, base, q, p)
    requires |st.issued| + 1 < |st'.issued| && st'.issued[|st.issued|] == Compute(s.stats[p])
    requires st'.computeEvents == st.computeEvents[s.stats[p] := |st'.issued| - 1]
    ensures ComputeOf(s, st', q, p + 1, |st.issued|, p)
  {
    var p' := p + 1;
    forall j | q <= j < p' ensures s.stats[j] in st'.computeEvents && (|st.issued| <= st'.computeEvents[s.stats[j]] <==> p <= j) {
      if j < p { assert EventAfter(st, base, s.stats[j]); }
    }
  }
}
