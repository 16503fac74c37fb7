/** What a run copies and computes: every transfer once a forward, in the order of the layers. */
module LoaderWork {
  import opened Timeline
  import opened Streams
  import opened PrefetchPolicy
  import opened LoaderProtocol
  import opened LoaderReads
  import opened LoaderWrites
  import opened WriteAfterRead

  /** The copies and computes, without what only orders them. */
  function Work(tr: Trace): Trace {
    if tr == [] then []
    else
      var op := tr[|tr| - 1];
      Work(tr[..|tr| - 1]) + if op.Copy? || op.Compute? then [op] else []
  }

  /** The work of the first k layers: a transfer goes to its block before the layer computes. */
  function LayerWork(s: Schedule, k: nat): Trace
    requires k <= |s.stats|
  {
    if k == 0 then []
    else
      var l := s.stats[k - 1];
      LayerWork(s, k - 1) + (if l in s.block then [Copy(l, s.block[l])] else []) + [Compute(l)]
  }

  /** The work of n forwards. */
  function ForwardsWork(s: Schedule, n: nat): Trace {
    if n == 0 then [] else ForwardsWork(s, n - 1) + LayerWork(s, |s.stats|)
  }

  lemma {:induction false} WorkAppends(a: Trace, b: Trace)
    ensures Work(a + b) == Work(a) + Work(b)
  {
    if b == [] {
      assert a + b == a;
    } else {
      var last := |b| - 1;
      WorkAppends(a, b[..last]);
      assert (a + b)[..|a + b| - 1] == a + b[..last];
    }
  }

  ghost predicate OnlyOrders(ops: Trace) { forall op :: op in ops ==> op.Record? || op.Wait? }

  lemma {:induction false} OrderingIsNoWork(ops: Trace)
    requires OnlyOrders(ops)
    ensures Work(ops) == []
  {
    if ops != [] {
      assert ops[|ops| - 1] in ops;
      OrderingIsNoWork(ops[..|ops| - 1]);
    }
  }

  /** tr' only orders more than tr. */
  ghost predicate Extends(tr: Trace, tr': Trace) { tr <= tr' && OnlyOrders(tr'[|tr|..]) }

  lemma ExtendsTwice(tr: Trace, tr': Trace, tr'': Trace)
    requires Extends(tr, tr') && Extends(tr', tr'')
    ensures Extends(tr, tr'')
  {
    assert tr''[|tr|..] == tr'[|tr|..] + tr''[|tr'|..];
  }

  lemma ExtendingIsNoWork(tr: Trace, tr': Trace)
    requires Extends(tr, tr')
    ensures Work(tr') == Work(tr)
  {
    assert tr' == tr + tr'[|tr|..];
    WorkAppends(tr, tr'[|tr|..]);
    OrderingIsNoWork(tr'[|tr|..]);
  }

  lemma ForkExtends(v: Variant, st: Loader, l: Label)
    ensures Extends(st.issued, (if v.Reordered? then AwaitTransfer(Fork(st), l) else Fork(st)).issued)
  {
    AwaitExtends(Fork(st), l);
  }

  lemma AwaitExtends(st: Loader, l: Label)
    ensures Extends(st.issued, AwaitTransfer(st, l).issued)
  {
  }

  lemma BeginExtends(v: Variant, s: Schedule, st: Loader, l: Label)
    requires Loadable(s)
    ensures Extends(st.issued, Begin(v, s, st, l).issued)
  {
    hide Fork, AwaitTransfer, Extends;
    var a := if l == FirstLayer(s) then StartForward(st) else st;
    StartExtends(st);
    assert Extends(st.issued, st.issued) by { NothingExtends(st.issued); }
    ForkExtends(v, a, l);
    ExtendsTwice(st.issued, a.issued, Begin(v, s, st, l).issued);
  }

  lemma NothingExtends(tr: Trace)
    ensures Extends(tr, tr)
  {
  }

  lemma StartExtends(st: Loader)
    ensures Extends(st.issued, StartForward(st).issued)
  {
  }

  lemma JoinExtends(st: Loader, atLastLayer: bool)
    ensures Extends(st.issued, Join(st, atLastLayer).issued)
  {
  }

  lemma ExitExtends(v: Variant, s: Schedule, st: Loader, l: Label, join: bool)
    requires Loadable(s)
    ensures var a := Exit(v, s, st, l); Extends(st.issued, (if join then Join(a, false) else a).issued)
  {
    hide Extends, Join, AwaitTransfer;
    var a := if v.Rolling? then AwaitTransfer(st, l) else st;
    var b := RecordCompute(a, l);
    var c := Exit(v, s, st, l);
    NothingExtends(st.issued);
    AwaitExtends(st, l);
    RecordExtends(a, l);
    ExtendsTwice(st.issued, a.issued, b.issued);
    NothingExtends(b.issued);
    JoinExtends(b, true);
    ExtendsTwice(st.issued, b.issued, c.issued);
    NothingExtends(c.issued);
    JoinExtends(c, false);
    ExtendsTwice(st.issued, c.issued, (if join then Join(c, false) else c).issued);
  }

  lemma RecordExtends(st: Loader, l: Label)
    ensures Extends(st.issued, RecordCompute(st, l).issued)
  {
  }

  lemma EnterWorks(v: Variant, s: Schedule, st: Loader, l: Label)
    requires Loadable(s) && OccupantsKnown(s, st)
    ensures Work(Enter(v, s, st, l).issued) == Work(st.issued) + if l in s.block then [Copy(l, s.block[l])] else []
  {
    var a := Begin(v, s, st, l);
    BeginAppends(v, s, st, l);
    BeginExtends(v, s, st, l);
    ExtendingIsNoWork(st.issued, a.issued);
    if l in s.block {
      assert l in s.block.Keys;
      CopyWorks(v, s, a, l);
    }
  }

  lemma CopyWorks(v: Variant, s: Schedule, st: Loader, l: Label)
    requires l in s.block && l in s.compute && OccupantsKnown(s, st)
    ensures Work(ScheduleCopy(v, s, st, l).issued) == Work(st.issued) + [Copy(l, s.block[l])]
  {
    CopyShape(v, s, st, l);
    var waits, copy := AwaitReader(s, st, s.block[l]), [Copy(l, s.block[l])];
    WorkAppends(st.issued, waits);
    OrderingIsNoWork(waits);
    var all := st.issued + waits + copy;
    assert all[..|all| - 1] == st.issued + waits;
    ExtendingIsNoWork(all, all + [Record(TransferStream)]);
    assert st.issued + waits + [Copy(l, s.block[l]), Record(TransferStream)] == all + [Record(TransferStream)];
  }

  lemma TrapWorks(v: Variant, s: Schedule, st: Loader, st': Loader, k: nat, join: bool)
    requires Loadable(s) && OccupantsKnown(s, st) && k < |s.stats| && st' == Trap(v, s, st, s.stats[k], join)
    ensures Work(st'.issued) == Work(st.issued) + (if s.stats[k] in s.block then [Copy(s.stats[k], s.block[s.stats[k]])] else []) + [Compute(s.stats[k])]
  {
    var l := s.stats[k];
    EnterWorks(v, s, st, l);
    var a := Enter(v, s, st, l);
    var b := Issue(a, [Compute(l)]);
    assert b.issued[..|b.issued| - 1] == a.issued;
    ExitExtends(v, s, b, l, join);
    ExtendingIsNoWork(b.issued, st'.issued);
  }

  /** The first k layers of any forward, with any joins. */
  lemma {:induction false} LayersWork(v: Variant, s: Schedule, st: Loader, joins: seq<bool>, k: nat)
    requires Loadable(s) && OccupantsKnown(s, st) && |joins| == |s.stats| && k <= |s.stats|
    ensures Work(Layers(v, s, st, joins, k).issued) == Work(st.issued) + LayerWork(s, k)
  {
    hide Trap, Work;
    if k > 0 {
      LayersWork(v, s, st, joins, k - 1);
      NextLayerIsTrap(v, s, st, joins, k);
      TrapWorks(v, s, Layers(v, s, st, joins, k - 1), Layers(v, s, st, joins, k), k - 1, joins[k - 1]);
    }
  }

  lemma {:induction false} ManyForwardsWork(v: Variant, s: Schedule, st: Loader, script: seq<seq<bool>>)
    requires Loadable(s) && OccupantsKnown(s, st) && forall f :: f in script ==> |f| == |s.stats|
    ensures Work(Forwards(v, s, st, script).issued) == Work(st.issued) + ForwardsWork(s, |script|)
  {
    hide Work, Layers, LayerWork;
    if script != [] {
      var last := |script| - 1;
      assert forall f :: f in script[..last] ==> f in script;
      ManyForwardsWork(v, s, st, script[..last]);
      LayersWork(v, s, Forwards(v, s, st, script[..last]), script[last], |s.stats|);
    }
  }

  lemma {:induction false} TrackingIsNoWork(v: Variant, s: Schedule, st: Loader, order: seq<Label>)
    requires Loadable(s) && (forall x :: x in order ==> x in s.block) && OccupantsKnown(s, st)
    ensures Work(TrackPreloads(v, s, st, order).issued) == Work(st.issued)
  {
    if order != [] {
      var last := |order| - 1;
      TrackingIsNoWork(v, s, st, order[..last]);
      assert order[last] in s.block.Keys;
      var a := TrackPreloads(v, s, st, order[..last]);
      ExtendingIsNoWork(a.issued, TrackPreload(v, s, a, order[last]).issued);
    }
  }

  lemma {:induction false} CopiesAreWork(tr: Trace)
    requires forall i :: 0 <= i < |tr| ==> tr[i].Copy?
    ensures Work(tr) == tr
  {
    if tr != [] { CopiesAreWork(tr[..|tr| - 1]); }
  }

  /** In every run, the device does the preload's copies and then, forward after forward, each
      layer's copy and compute: no transfer is left out, repeated or reordered. */
  lemma RunsDoTheirWork(v: Variant, s: Schedule, order: seq<Label>, policy: Policy, script: seq<seq<bool>>, joins: seq<bool>, k: nat)
    requires Loadable(s) && forall x :: x in order ==> x in s.block
    requires (forall f :: f in script ==> |f| == |s.stats|) && |joins| == |s.stats| && k <= |s.stats|
    ensures Work(Layers(v, s, Forwards(v, s, Preloaded(v, s, order, policy), script), joins, k).issued) ==
            PreloadCopies(s, order) + ForwardsWork(s, |script|) + LayerWork(s, k)
  {
    var copies := Loader(map[], map[], map[], false, policy, PreloadCopies(s, order));
    CopiesAreWork(copies.issued);
    ExtendingIsNoWork(copies.issued, JoinStreams(copies).issued);
    TrackingIsNoWork(v, s, JoinStreams(copies), order);
    ManyForwardsWork(v, s, Preloaded(v, s, order, policy), script);
    LayersWork(v, s, Forwards(v, s, Preloaded(v, s, order, policy), script), joins, k);
  }
}
