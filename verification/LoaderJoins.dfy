/** What a join leaves behind, and when the strict prefetch policy raises at the end of a forward. */
module LoaderJoins {
  import opened Timeline
  import opened Streams
  import opened PrefetchPolicy
  import opened LoaderProtocol
  import opened LoaderReads

  /** Every copy issued happens before whatever the compute stream does next. */
  ghost predicate Settled(st: Loader) {
    && st.scheduled == map[] && st.computeEvents == map[] && st.occupant == map[] && !st.pending
    && forall next: Op, i: nat :: StreamOf(next) == ComputeStream && i < |st.issued| && st.issued[i].Copy? ==>
         HappensBefore(st.issued + [next], i, |st.issued|)
  }

  lemma ArrivedSettles(st: Loader)
    requires AllArrived(st) && st.scheduled == map[] && st.computeEvents == map[] && st.occupant == map[] && !st.pending
    ensures Settled(st)
  {
    forall next: Op, i: nat | StreamOf(next) == ComputeStream && i < |st.issued| && st.issued[i].Copy?
      ensures HappensBefore(st.issued + [next], i, |st.issued|)
    {
      var tr := st.issued + [next];
      assert Arrived(st, i);
      AwaitedGrows(st.issued, tr, i, |st.issued|, |st.issued|, ComputeStream);
      HappensBeforeAcross(tr, i, |st.issued|);
    }
  }

  /** After every join and every last-layer exit of a run, whether or not the policy raised:
      all maps are empty and all copies happen before the next compute operation. */
  lemma JoinsSettle(v: Variant, s: Schedule, order: seq<Label>, policy: Policy, script: seq<seq<bool>>,
                    joins: seq<bool>, k: nat)
    requires Loadable(s) && s.OverlapFree() && PreloadOrder(s, order)
    requires (forall f :: f in script ==> |f| == |s.stats|) && |joins| == |s.stats| && 0 < k <= |s.stats|
    requires k == |s.stats| || joins[k - 1]
    ensures Settled(Layers(v, s, Forwards(v, s, Preloaded(v, s, order, policy), script), joins, k))
  {
    PreloadIsReady(v, s, order, policy);
    ForwardsKeep(v, s, Preloaded(v, s, order, policy), script);
    JoinsSettleFrom(v, s, Forwards(v, s, Preloaded(v, s, order, policy), script), joins, k);
  }

  lemma JoinsSettleFrom(v: Variant, s: Schedule, start: Loader, joins: seq<bool>, k: nat)
    requires Loadable(s) && s.OverlapFree() && |joins| == |s.stats| && 0 < k <= |s.stats|
    requires (k == |s.stats| || joins[k - 1]) && Between(v, s, start, 0)
    ensures Settled(Layers(v, s, start, joins, k))
  {
    LayersKeep(v, s, start, joins, k);
    JoinEmpties(v, s, start, joins, k);
    EmptySettles(v, s, Layers(v, s, start, joins, k), k);
  }

  lemma EmptySettles(v: Variant, s: Schedule, st: Loader, k: nat)
    requires s.WellPlaced() && Between(v, s, st, k)
    requires st.scheduled == map[] && st.computeEvents == map[] && st.occupant == map[] && !st.pending
    ensures Settled(st)
  {
    ArrivedSettles(st);
  }

  lemma JoinEmpties(v: Variant, s: Schedule, start: Loader, joins: seq<bool>, k: nat)
    requires Loadable(s) && OccupantsKnown(s, start) && |joins| == |s.stats| && 0 < k <= |s.stats|
    requires k == |s.stats| || joins[k - 1]
    ensures var st := Layers(v, s, start, joins, k);
            st.scheduled == map[] && st.computeEvents == map[] && st.occupant == map[] && !st.pending
  {
    NextLayerIsTrap(v, s, start, joins, k);
    TrapEmpties(v, s, Layers(v, s, start, joins, k - 1), s.stats[k - 1], joins[k - 1]);
  }

  lemma TrapEmpties(v: Variant, s: Schedule, st: Loader, l: Label, join: bool)
    requires Loadable(s) && OccupantsKnown(s, st) && (l == LastLayer(s) || join)
    ensures var st' := Trap(v, s, st, l, join);
            st'.scheduled == map[] && st'.computeEvents == map[] && st'.occupant == map[] && !st'.pending
  {
  }

  // ---------------------------------------------------------------------------
  // The strict policy and the reordered loader
  // ---------------------------------------------------------------------------

  /** A copy for layer k was issued by one of the layers [q, p). */
  ghost predicate IssuedFor(s: Schedule, k: int, q: int, p: int)
    requires s.WellPlaced()
  {
    exists x :: s.Slot(x) && q <= s.Pos(x) < p && s.To(x) == k
  }

  /** A transfer issued for layer k by one of the layers [q, p), and not waited for by layer k since. */
  ghost predicate InFlight(s: Schedule, x: Label, k: int, q: int, p: int)
    requires s.WellPlaced()
  {
    s.Slot(x) && s.To(x) == k && q <= s.Pos(x) < p && !(s.Pos(x) < k < p)
  }

  ghost predicate SomeInFlight(s: Schedule, k: int, q: int, p: int)
    requires s.WellPlaced()
  {
    exists x :: InFlight(s, x, k, q, p)
  }

  /** Layer k finds an event to wait for: one the forward began with, if no join came before,
      or that of a copy issued earlier in the layer's piece. */
  ghost predicate FindsEvent(s: Schedule, preloaded: set<Label>, joins: seq<bool>, k: nat)
    requires Loadable(s) && |joins| == |s.stats| && k < |s.stats|
  {
    var q := PieceStart(joins, k);
    (q == 0 && s.stats[k] in preloaded) || IssuedFor(s, k, q, k)
  }

  /** In a piece that began at layer q, before layer p waits: what the loader and its enabled
      policy remember, when the forward began with events for the layers in `preloaded`. */
  ghost predicate Remembers(s: Schedule, st: Loader, preloaded: set<Label>, joins: seq<bool>, q: nat, p: nat)
    requires Loadable(s) && |joins| == |s.stats| && p <= |s.stats|
  {
    && st.policy.enabled && (forall l :: l in st.policy.outstanding ==> l in s.stats)
    && forall k {:trigger RemembersLayer(s, st, preloaded, joins, q, p, k)} ::
         0 <= k < |s.stats| ==> RemembersLayer(s, st, preloaded, joins, q, p, k)
  }

  ghost predicate RemembersLayer(s: Schedule, st: Loader, preloaded: set<Label>, joins: seq<bool>, q: nat, p: nat, k: int)
    requires Loadable(s) && |joins| == |s.stats| && p <= |s.stats| && 0 <= k < |s.stats|
  {
    var l := s.stats[k];
    && (l in st.scheduled <==> (q == 0 && l in preloaded) || IssuedFor(s, k, q, p))
    && (l in st.policy.outstanding <==> SomeInFlight(s, k, q, p))
    && (l in st.policy.waited <==> k < p && FindsEvent(s, preloaded, joins, k))
  }

  lemma IssuedForNext(s: Schedule, k: int, q: nat, p: nat)
    requires Loadable(s) && q <= p < |s.stats|
    ensures IssuedFor(s, k, q, p + 1) <==> IssuedFor(s, k, q, p) || (s.Slot(s.stats[p]) && s.To(s.stats[p]) == k)
  {
    if IssuedFor(s, k, q, p + 1) {
      var x :| s.Slot(x) && q <= s.Pos(x) < p + 1 && s.To(x) == k;
      assert s.Pos(x) == p ==> x == s.stats[p];
    }
    if s.Slot(s.stats[p]) { assert s.Pos(s.stats[p]) == p; }
  }

  lemma InFlightNext(s: Schedule, k: int, q: nat, p: nat)
    requires Loadable(s) && s.OverlapFree() && q <= p < |s.stats|
    ensures SomeInFlight(s, k, q, p + 1) <==>
              k != p && (SomeInFlight(s, k, q, p) || (s.Slot(s.stats[p]) && s.To(s.stats[p]) == k))
    ensures SomeInFlight(s, p, q, p) ==> IssuedFor(s, p, q, p)
  {
    if SomeInFlight(s, k, q, p + 1) {
      var x :| InFlight(s, x, k, q, p + 1);
      assert !s.Clash(x, x);
      assert if s.Pos(x) == p then x == s.stats[p] else InFlight(s, x, k, q, p);
    }
    if k != p && SomeInFlight(s, k, q, p) {
      var x :| InFlight(s, x, k, q, p);
      assert InFlight(s, x, k, q, p + 1);
    }
    if k != p && s.Slot(s.stats[p]) && s.To(s.stats[p]) == k {
      assert s.Pos(s.stats[p]) == p && InFlight(s, s.stats[p], k, q, p + 1);
    }
  }

  /** Layer p of the reordered loader up to its compute event. */
  function Layer(s: Schedule, st: Loader, l: Label): Loader
    requires Loadable(s) && OccupantsKnown(s, st)
  {
    var a := AwaitTransfer(st, l);
    var b := if l in s.block then assert l in s.block.Keys; ScheduleCopy(Reordered, s, a, l) else a;
    RecordCompute(Issue(b, [Compute(l)]), l)
  }

  /** What layer l does to the labels remembered. */
  ghost predicate LayerEffect(s: Schedule, st: Loader, st': Loader, l: Label, m: Label) {
    var copied := s.Slot(l) && s.compute[l] == m;
    && (m in st'.scheduled <==> m in st.scheduled || copied)
    && (m in st'.policy.outstanding <==> (m in st.policy.outstanding && !(m == l && l in st.scheduled)) || copied)
    && (m in st'.policy.waited <==> m in st.policy.waited || (m == l && l in st.scheduled))
  }

  lemma CopyPolicy(v: Variant, s: Schedule, st: Loader, l: Label)
    requires l in s.block && l in s.compute && OccupantsKnown(s, st)
    ensures var st' := ScheduleCopy(v, s, st, l);
            st'.policy == st.policy.OnSchedule(l, WaitKey(v, s, l)) &&
            st'.scheduled.Keys == st.scheduled.Keys + {WaitKey(v, s, l)} && st'.pending == st.pending
  {
  }

  lemma AwaitPolicy(st: Loader, l: Label)
    ensures var a := AwaitTransfer(st, l);
            a.scheduled == st.scheduled && a.occupant == st.occupant && a.computeEvents == st.computeEvents &&
            a.pending == st.pending && a.policy == if l in st.scheduled then st.policy.OnWait(l) else st.policy
  {
  }

  lemma LayerPolicy(s: Schedule, st: Loader, l: Label)
    requires Loadable(s) && OccupantsKnown(s, st)
    ensures var a := if l in st.scheduled then st.policy.OnWait(l) else st.policy;
            var st' := Layer(s, st, l);
            if s.Slot(l) then st'.policy == a.OnSchedule(l, s.compute[l]) && st'.scheduled.Keys == st.scheduled.Keys + {s.compute[l]}
            else st'.policy == a && st'.scheduled == st.scheduled
  {
    AwaitPolicy(st, l);
    assert l in s.block <==> s.Slot(l) by { assert l in s.block.Keys <==> l in s.compute.Keys; }
    if s.Slot(l) { CopyPolicy(Reordered, s, AwaitTransfer(st, l), l); }
  }

  lemma LayerHasEffect(s: Schedule, st: Loader, st': Loader, l: Label, m: Label)
    requires st.policy.enabled
    requires var a := if l in st.scheduled then st.policy.OnWait(l) else st.policy;
             if s.Slot(l) then st'.policy == a.OnSchedule(l, s.compute[l]) && st'.scheduled.Keys == st.scheduled.Keys + {s.compute[l]}
             else st'.policy == a && st'.scheduled == st.scheduled
    ensures LayerEffect(s, st, st', l, m)
  {
    assert m in st'.scheduled <==> m in st'.scheduled.Keys;
    assert m in st.scheduled <==> m in st.scheduled.Keys;
  }

  lemma EffectRemembers(s: Schedule, st: Loader, st': Loader, preloaded: set<Label>, joins: seq<bool>, q: nat, p: nat, k: nat)
    requires Loadable(s) && s.OverlapFree() && |joins| == |s.stats| && p < |s.stats| && k < |s.stats|
    requires q == PieceStart(joins, p)
    requires RemembersLayer(s, st, preloaded, joins, q, p, k) && RemembersLayer(s, st, preloaded, joins, q, p, p)
    requires LayerEffect(s, st, st', s.stats[p], s.stats[k])
    ensures RemembersLayer(s, st', preloaded, joins, q, p + 1, k)
  {
    var l := s.stats[p];
    IssuedForNext(s, k, q, p);
    InFlightNext(s, k, q, p);
    if s.Slot(l) {
      assert !s.Clash(l, l);
      assert s.compute[l] == s.stats[k] <==> s.To(l) == k;
    }
  }

  lemma LayerRemembers(s: Schedule, st: Loader, st': Loader, preloaded: set<Label>, joins: seq<bool>, p: nat)
    requires Loadable(s) && s.OverlapFree() && |joins| == |s.stats| && p < |s.stats| && OccupantsKnown(s, st)
    requires Remembers(s, st, preloaded, joins, PieceStart(joins, p), p) && st' == Layer(s, st, s.stats[p])
    ensures Remembers(s, st', preloaded, joins, PieceStart(joins, p), p + 1) && st'.policy.strict == st.policy.strict
  {
    var p', q := p + 1, PieceStart(joins, p);
    LayerPolicy(s, st, s.stats[p]);
    forall m ensures LayerEffect(s, st, st', s.stats[p], m) { LayerHasEffect(s, st, st', s.stats[p], m); }
    assert RemembersLayer(s, st, preloaded, joins, q, p, p);
    forall k | 0 <= k < |s.stats| ensures RemembersLayer(s, st', preloaded, joins, q, p', k) {
      assert RemembersLayer(s, st, preloaded, joins, q, p, k);
      EffectRemembers(s, st, st', preloaded, joins, q, p, k);
    }
    forall m | m in st'.policy.outstanding ensures m in s.stats {
      assert LayerEffect(s, st, st', s.stats[p], m);
    }
  }

  /** A join forgets what was scheduled and outstanding, not what was waited for. */
  lemma JoinRemembers(s: Schedule, st: Loader, preloaded: set<Label>, joins: seq<bool>, q: nat, p: nat)
    requires Loadable(s) && |joins| == |s.stats| && 0 < p < |s.stats| && Remembers(s, st, preloaded, joins, q, p)
    ensures Remembers(s, Join(st, false), preloaded, joins, p, p)
    ensures Join(st, false).policy.strict == st.policy.strict && OccupantsKnown(s, Join(st, false))
  {
    var st' := Join(st, false);
    forall k | 0 <= k < |s.stats| ensures RemembersLayer(s, st', preloaded, joins, p, p, k) {
      assert RemembersLayer(s, st, preloaded, joins, q, p, k);
    }
  }

  /** Layer l before it waits: forked, and reset if it is the first. */
  function Opened(s: Schedule, st: Loader, l: Label): Loader
    requires Loadable(s)
  {
    Fork(if l == FirstLayer(s) then StartForward(st) else st)
  }

  lemma StartRemembers(s: Schedule, st: Loader, joins: seq<bool>)
    requires Loadable(s) && |joins| == |s.stats| && Between(Reordered, s, st, 0) && st.policy.enabled
    ensures RemembersAt(s, st, st, joins, 0)
  {
    var a := Opened(s, st, s.stats[0]);
    forall k | 0 <= k < |s.stats| ensures RemembersLayer(s, a, st.scheduled.Keys, joins, 0, 0, k) {
    }
  }

  lemma TrapIsLayer(s: Schedule, st: Loader, p: nat, join: bool)
    requires Loadable(s) && OccupantsKnown(s, st) && p + 1 < |s.stats|
    ensures OccupantsKnown(s, Opened(s, st, s.stats[p]))
    ensures var a := Layer(s, Opened(s, st, s.stats[p]), s.stats[p]);
            a.pending && OccupantsKnown(s, a) && Trap(Reordered, s, st, s.stats[p], join) == if join then Join(a, false) else a
  {
    assert s.stats[p] != LastLayer(s);
  }

  /** Once opened, `now` remembers what the forward from `st` did before layer p. */
  ghost predicate RemembersAt(s: Schedule, st: Loader, now: Loader, joins: seq<bool>, p: nat)
    requires Loadable(s) && |joins| == |s.stats| && p < |s.stats|
  {
    var a := Opened(s, now, s.stats[p]);
    Remembers(s, a, st.scheduled.Keys, joins, PieceStart(joins, p), p) && OccupantsKnown(s, a) && a.policy.strict == st.policy.strict
  }

  lemma {:induction false} ForwardRemembers(s: Schedule, st: Loader, joins: seq<bool>, p: nat)
    requires Loadable(s) && s.OverlapFree() && Between(Reordered, s, st, 0) && st.policy.enabled
    requires |joins| == |s.stats| && p < |s.stats|
    ensures RemembersAt(s, st, Layers(Reordered, s, st, joins, p), joins, p)
  {
    if p == 0 {
      StartRemembers(s, st, joins);
    } else {
      ForwardRemembers(s, st, joins, p - 1);
      NextRemembers(s, st, joins, p);
    }
  }

  lemma NextRemembers(s: Schedule, st: Loader, joins: seq<bool>, p: nat)
    requires Loadable(s) && s.OverlapFree() && OccupantsKnown(s, st) && |joins| == |s.stats| && 0 < p < |s.stats|
    requires RemembersAt(s, st, Layers(Reordered, s, st, joins, p - 1), joins, p - 1)
    ensures RemembersAt(s, st, Layers(Reordered, s, st, joins, p), joins, p)
  {
    NextLayerIsTrap(Reordered, s, st, joins, p);
    TrapRemembers(s, st, Layers(Reordered, s, st, joins, p - 1), Layers(Reordered, s, st, joins, p), joins, p - 1);
  }

  lemma TrapRemembers(s: Schedule, st: Loader, before: Loader, after: Loader, joins: seq<bool>, p: nat)
    requires Loadable(s) && s.OverlapFree() && OccupantsKnown(s, before) && |joins| == |s.stats| && p + 1 < |s.stats|
    requires after == Trap(Reordered, s, before, s.stats[p], joins[p]) && RemembersAt(s, st, before, joins, p)
    ensures RemembersAt(s, st, after, joins, p + 1)
  {
    TrapIsLayer(s, before, p, joins[p]);
    var a := Opened(s, before, s.stats[p]);
    LayerRemembers(s, a, Layer(s, a, s.stats[p]), st.scheduled.Keys, joins, p);
    if joins[p] { JoinRemembers(s, Layer(s, a, s.stats[p]), st.scheduled.Keys, joins, PieceStart(joins, p), p + 1); }
    OpenedRemembers(s, st, after, joins, p + 1);
  }

  /** After the first layer, opening only forks. */
  lemma OpenedRemembers(s: Schedule, st: Loader, now: Loader, joins: seq<bool>, p: nat)
    requires Loadable(s) && |joins| == |s.stats| && 0 < p < |s.stats| && OccupantsKnown(s, now)
    requires Remembers(s, now, st.scheduled.Keys, joins, PieceStart(joins, p), p) && now.policy.strict == st.policy.strict
    ensures RemembersAt(s, st, now, joins, p)
  {
    var a, q := Opened(s, now, s.stats[p]), PieceStart(joins, p);
    assert s.stats[p] != FirstLayer(s);
    assert a.policy == now.policy && a.scheduled == now.scheduled && a.occupant == now.occupant;
    forall k | 0 <= k < |s.stats| ensures RemembersLayer(s, a, st.scheduled.Keys, joins, q, p, k) {
      assert RemembersLayer(s, now, st.scheduled.Keys, joins, q, p, k);
    }
  }

  // ---------------------------------------------------------------------------
  // What the policy is asked
  // ---------------------------------------------------------------------------

  /** The state in which layer p's exit ends: where a join after it, or at the last layer the
      end of the forward, asks the policy. */
  function AfterLayer(s: Schedule, st: Loader, joins: seq<bool>, p: nat): Loader
    requires Loadable(s) && OccupantsKnown(s, st) && |joins| == |s.stats| && p < |s.stats|
  {
    var l := s.stats[p];
    RecordCompute(Issue(Enter(Reordered, s, Layers(Reordered, s, st, joins, p), l), [Compute(l)]), l)
  }

  /** A transfer issued in the piece of layer p and not waited for by the end of that layer. */
  ghost predicate SomeOutstanding(s: Schedule, joins: seq<bool>, p: nat)
    requires s.WellPlaced() && |joins| == |s.stats| && p < |s.stats|
  {
    exists x :: s.Slot(x) && PieceStart(joins, p) <= s.Pos(x) <= p && !(s.Pos(x) < s.To(x) <= p)
  }

  /** A wrapped transfer issued in the forward's last piece whose compute layer found no event
      to wait for. */
  ghost predicate SomeEventlessWrap(s: Schedule, preloaded: set<Label>, joins: seq<bool>)
    requires Loadable(s) && |joins| == |s.stats|
  {
    exists x :: s.Slot(x) && s.To(x) < s.Pos(x) && PieceStart(joins, |s.stats| - 1) <= s.Pos(x) &&
      !FindsEvent(s, preloaded, joins, s.To(x))
  }

  lemma JoinRaisesFromMemory(s: Schedule, st: Loader, preloaded: set<Label>, joins: seq<bool>, p: nat)
    requires Loadable(s) && |joins| == |s.stats| && p < |s.stats|
    requires Remembers(s, st, preloaded, joins, PieceStart(joins, p), p + 1)
    ensures st.policy.Raises(false) <==> st.policy.strict && SomeOutstanding(s, joins, p)
  {
    var q, p' := PieceStart(joins, p), p + 1;
    assert st.policy.Broken(false) == st.policy.outstanding;
    if st.policy.outstanding != map[] {
      var l :| l in st.policy.outstanding;
      var k :| 0 <= k < |s.stats| && s.stats[k] == l;
      assert RemembersLayer(s, st, preloaded, joins, q, p', k);
      var x :| InFlight(s, x, k, q, p');
      assert SomeOutstanding(s, joins, p);
    }
    if SomeOutstanding(s, joins, p) {
      var x :| s.Slot(x) && q <= s.Pos(x) <= p && !(s.Pos(x) < s.To(x) <= p);
      assert RemembersLayer(s, st, preloaded, joins, q, p', s.To(x)) && InFlight(s, x, s.To(x), q, p');
      assert s.compute[x] in st.policy.outstanding;
    }
  }

  lemma ExitRaisesFromMemory(s: Schedule, st: Loader, preloaded: set<Label>, joins: seq<bool>)
    requires Loadable(s) && s.OverlapFree() && |joins| == |s.stats|
    requires Remembers(s, st, preloaded, joins, PieceStart(joins, |s.stats| - 1), |s.stats|)
    ensures st.policy.Raises(true) <==> st.policy.strict && SomeEventlessWrap(s, preloaded, joins)
  {
    if st.policy.Broken(true) != map[] { BrokenIsUnawaited(s, st, preloaded, joins); }
    if SomeEventlessWrap(s, preloaded, joins) { UnawaitedIsBroken(s, st, preloaded, joins); }
  }

  lemma BrokenIsUnawaited(s: Schedule, st: Loader, preloaded: set<Label>, joins: seq<bool>)
    requires Loadable(s) && s.OverlapFree() && |joins| == |s.stats| && st.policy.Broken(true) != map[]
    requires Remembers(s, st, preloaded, joins, PieceStart(joins, |s.stats| - 1), |s.stats|)
    ensures SomeEventlessWrap(s, preloaded, joins)
  {
    var n := |s.stats|;
    var q := PieceStart(joins, n - 1);
    var l :| l in st.policy.Broken(true);
    var k :| 0 <= k < n && s.stats[k] == l;
    assert RemembersLayer(s, st, preloaded, joins, q, n, k);
    var x :| InFlight(s, x, k, q, n);
    assert !s.Clash(x, x);
    assert s.compute[x] == l;
  }

  lemma UnawaitedIsBroken(s: Schedule, st: Loader, preloaded: set<Label>, joins: seq<bool>)
    requires Loadable(s) && |joins| == |s.stats| && SomeEventlessWrap(s, preloaded, joins)
    requires Remembers(s, st, preloaded, joins, PieceStart(joins, |s.stats| - 1), |s.stats|)
    ensures st.policy.Broken(true) != map[]
  {
    var n := |s.stats|;
    var q := PieceStart(joins, n - 1);
    var x :| s.Slot(x) && s.To(x) < s.Pos(x) && q <= s.Pos(x) && !FindsEvent(s, preloaded, joins, s.To(x));
    assert RemembersLayer(s, st, preloaded, joins, q, n, s.To(x)) && InFlight(s, x, s.To(x), q, n);
    assert s.compute[x] in st.policy.Broken(true);
  }

  /** What is remembered when the policy is asked. */
  lemma AfterLayerRemembers(s: Schedule, st: Loader, joins: seq<bool>, p: nat)
    requires Loadable(s) && s.OverlapFree() && Between(Reordered, s, st, 0) && st.policy.enabled
    requires |joins| == |s.stats| && p < |s.stats|
    ensures var a := AfterLayer(s, st, joins, p);
            Remembers(s, a, st.scheduled.Keys, joins, PieceStart(joins, p), p + 1) && a.policy.strict == st.policy.strict
  {
    ForwardRemembers(s, st, joins, p);
    var a := Opened(s, Layers(Reordered, s, st, joins, p), s.stats[p]);
    LayerRemembers(s, a, Layer(s, a, s.stats[p]), st.scheduled.Keys, joins, p);
    AfterLayerIsLayer(s, st, joins, p);
  }

  lemma AfterLayerIsLayer(s: Schedule, st: Loader, joins: seq<bool>, p: nat)
    requires Loadable(s) && OccupantsKnown(s, st) && |joins| == |s.stats| && p < |s.stats|
    ensures OccupantsKnown(s, Opened(s, Layers(Reordered, s, st, joins, p), s.stats[p]))
    ensures AfterLayer(s, st, joins, p) == Layer(s, Opened(s, Layers(Reordered, s, st, joins, p), s.stats[p]), s.stats[p])
  {
  }

  // ---------------------------------------------------------------------------
  // The events a forward begins with
  // ---------------------------------------------------------------------------

  lemma {:induction false} PreloadSchedules(s: Schedule, st: Loader, order: seq<Label>, x: Label)
    requires Loadable(s) && (forall y :: y in order ==> y in s.block) && OccupantsKnown(s, st) && x in order
    ensures x in s.compute && s.compute[x] in TrackPreloads(Reordered, s, st, order).scheduled
  {
    assert x in s.block.Keys;
    var last := |order| - 1;
    if x != order[last] {
      assert x in order[..last];
      PreloadSchedules(s, st, order[..last], x);
    }
  }

  /** A wrapped transfer issued in the last piece whose compute layer had nothing to wait for in
      this forward: no copy for it earlier in that layer's piece, and no event of the preload,
      which only the first piece of the first forward still has. */
  ghost predicate SomeWrapUnawaited(s: Schedule, joins: seq<bool>, first: bool)
    requires Loadable(s) && |joins| == |s.stats|
  {
    exists x :: s.Slot(x) && s.To(x) < s.Pos(x) && PieceStart(joins, |s.stats| - 1) <= s.Pos(x) &&
      var q := PieceStart(joins, s.To(x));
      !(first && q == 0) && !IssuedFor(s, s.To(x), q, s.To(x))
  }

  lemma PreloadAwaitsWraps(s: Schedule, order: seq<Label>, policy: Policy, joins: seq<bool>)
    requires Loadable(s) && PreloadOrder(s, order) && |joins| == |s.stats|
    ensures SomeEventlessWrap(s, Preloaded(Reordered, s, order, policy).scheduled.Keys, joins) <==> SomeWrapUnawaited(s, joins, true)
  {
    var preloaded := Preloaded(Reordered, s, order, policy).scheduled.Keys;
    forall x | s.Slot(x) && s.To(x) < s.Pos(x) ensures s.compute[x] in preloaded && s.stats[s.To(x)] == s.compute[x] {
      PreloadSchedules(s, JoinStreams(Loader(map[], map[], map[], false, policy, PreloadCopies(s, order))), order, x);
    }
  }

  lemma NothingPreloadedAwaits(s: Schedule, joins: seq<bool>)
    requires Loadable(s) && |joins| == |s.stats|
    ensures SomeEventlessWrap(s, {}, joins) <==> SomeWrapUnawaited(s, joins, false)
  {
  }

  // The policy's mode is set once.

  ghost predicate SameMode(p: Policy, q: Policy) { p.enabled == q.enabled && p.strict == q.strict }

  lemma BeginKeepsMode(v: Variant, s: Schedule, st: Loader, l: Label)
    requires Loadable(s) && OccupantsKnown(s, st)
    ensures SameMode(Begin(v, s, st, l).policy, st.policy) && OccupantsKnown(s, Begin(v, s, st, l))
  {
    var a := if l == FirstLayer(s) then StartForward(st) else st;
    assert SameMode(a.policy, st.policy) && OccupantsKnown(s, a);
    var b := Fork(a);
    assert b.policy == a.policy && b.occupant == a.occupant;
    AwaitPolicy(b, l);
  }

  lemma EnterKeepsMode(v: Variant, s: Schedule, st: Loader, l: Label)
    requires Loadable(s) && OccupantsKnown(s, st)
    ensures SameMode(Enter(v, s, st, l).policy, st.policy)
  {
    BeginKeepsMode(v, s, st, l);
    if l in s.block {
      assert l in s.block.Keys;
      CopyPolicy(v, s, Begin(v, s, st, l), l);
    }
  }

  lemma ExitKeepsMode(v: Variant, s: Schedule, st: Loader, l: Label)
    requires Loadable(s)
    ensures SameMode(Exit(v, s, st, l).policy, st.policy)
  {
    var a := RecordCompute(if v.Rolling? then AwaitTransfer(st, l) else st, l);
    assert SameMode(a.policy, st.policy);
    assert SameMode(Join(a, true).policy, a.policy);
  }

  lemma TrapKeepsMode(v: Variant, s: Schedule, st: Loader, l: Label, join: bool)
    requires Loadable(s) && OccupantsKnown(s, st)
    ensures SameMode(Trap(v, s, st, l, join).policy, st.policy)
  {
    EnterKeepsMode(v, s, st, l);
    var a := Issue(Enter(v, s, st, l), [Compute(l)]);
    ExitKeepsMode(v, s, a, l);
    assert SameMode(Join(Exit(v, s, a, l), false).policy, Exit(v, s, a, l).policy);
  }

  lemma {:induction false} LayersKeepMode(v: Variant, s: Schedule, st: Loader, joins: seq<bool>, k: nat)
    requires Loadable(s) && OccupantsKnown(s, st) && |joins| == |s.stats| && k <= |s.stats|
    ensures SameMode(Layers(v, s, st, joins, k).policy, st.policy)
  {
    if k > 0 {
      LayersKeepMode(v, s, st, joins, k - 1);
      NextLayerKeepsMode(v, s, st, joins, k);
    }
  }

  lemma NextLayerKeepsMode(v: Variant, s: Schedule, st: Loader, joins: seq<bool>, k: nat)
    requires Loadable(s) && OccupantsKnown(s, st) && |joins| == |s.stats| && 0 < k <= |s.stats|
    ensures SameMode(Layers(v, s, st, joins, k).policy, Layers(v, s, st, joins, k - 1).policy)
  {
    NextLayerIsTrap(v, s, st, joins, k);
    TrapKeepsModeAs(v, s, Layers(v, s, st, joins, k - 1), Layers(v, s, st, joins, k), s.stats[k - 1], joins[k - 1]);
  }

  lemma TrapKeepsModeAs(v: Variant, s: Schedule, st: Loader, st': Loader, l: Label, join: bool)
    requires Loadable(s) && OccupantsKnown(s, st) && st' == Trap(v, s, st, l, join)
    ensures SameMode(st'.policy, st.policy)
  {
    TrapKeepsMode(v, s, st, l, join);
  }

  lemma {:induction false} ForwardsKeepMode(v: Variant, s: Schedule, st: Loader, script: seq<seq<bool>>)
    requires Loadable(s) && OccupantsKnown(s, st) && forall f :: f in script ==> |f| == |s.stats|
    ensures SameMode(Forwards(v, s, st, script).policy, st.policy)
  {
    if script != [] {
      var last := |script| - 1;
      ForwardsKeepMode(v, s, st, script[..last]);
      LayersKeepMode(v, s, Forwards(v, s, st, script[..last]), script[last], |s.stats|);
    }
  }

  /** The policy at the end of a forward with any joins, reordered loader, after any earlier
      forwards: a strict policy raises exactly when some wrapped transfer of the last piece is
      for a layer that had nothing to wait for in this forward. */
  lemma StrictPolicyRaisesIff(s: Schedule, order: seq<Label>, policy: Policy, script: seq<seq<bool>>, joins: seq<bool>)
    requires Loadable(s) && s.OverlapFree() && PreloadOrder(s, order)
    requires (forall f :: f in script ==> |f| == |s.stats|) && |joins| == |s.stats|
    ensures var start := Forwards(Reordered, s, Preloaded(Reordered, s, order, policy), script);
            AfterLayer(s, start, joins, |s.stats| - 1).policy.Raises(true) <==>
              policy.enabled && policy.strict && SomeWrapUnawaited(s, joins, script == [])
  {
    var n := |s.stats|;
    var start := Forwards(Reordered, s, Preloaded(Reordered, s, order, policy), script);
    StartKeepsPolicy(s, order, policy, script);
    if policy.enabled {
      AfterLayerRemembers(s, start, joins, n - 1);
      ExitRaisesFromMemory(s, AfterLayer(s, start, joins, n - 1), start.scheduled.Keys, joins);
      if script == [] {
        PreloadAwaitsWraps(s, order, policy, joins);
      } else {
        ForwardsEndSettled(s, order, policy, script);
        NothingPreloadedAwaits(s, joins);
      }
    } else {
      AfterLayerKeepsMode(s, start, joins, n - 1);
    }
  }

  /** The policy at a join after layer p: a strict policy raises exactly when some transfer was
      issued in the piece that the join ends and not waited for in it. After the last layer
      nothing is outstanding any more. */
  lemma StrictJoinRaisesIff(s: Schedule, order: seq<Label>, policy: Policy, script: seq<seq<bool>>, joins: seq<bool>, p: nat)
    requires Loadable(s) && s.OverlapFree() && PreloadOrder(s, order)
    requires (forall f :: f in script ==> |f| == |s.stats|) && |joins| == |s.stats| && p < |s.stats|
    ensures var start := Forwards(Reordered, s, Preloaded(Reordered, s, order, policy), script);
            var l, now := s.stats[p], Layers(Reordered, s, start, joins, p);
            Exit(Reordered, s, Issue(Enter(Reordered, s, now, l), [Compute(l)]), l).policy.Raises(false) <==>
              policy.enabled && policy.strict && p + 1 < |s.stats| && SomeOutstanding(s, joins, p)
  {
    var start := Forwards(Reordered, s, Preloaded(Reordered, s, order, policy), script);
    StartKeepsPolicy(s, order, policy, script);
    AfterLayerKeepsMode(s, start, joins, p);
    ExitAsks(s, start, joins, p);
    if policy.enabled {
      AfterLayerRemembers(s, start, joins, p);
      JoinRaisesFromMemory(s, AfterLayer(s, start, joins, p), start.scheduled.Keys, joins, p);
    }
  }

  lemma ExitAsks(s: Schedule, st: Loader, joins: seq<bool>, p: nat)
    requires Loadable(s) && OccupantsKnown(s, st) && |joins| == |s.stats| && p < |s.stats|
    ensures var l, now := s.stats[p], Layers(Reordered, s, st, joins, p);
            var a := Exit(Reordered, s, Issue(Enter(Reordered, s, now, l), [Compute(l)]), l);
            var b := AfterLayer(s, st, joins, p);
            (p + 1 < |s.stats| ==> a == b) && (p + 1 == |s.stats| ==> !a.policy.Raises(false))
  {
    assert s.stats[p] == LastLayer(s) <==> p + 1 == |s.stats|;
    var b := AfterLayer(s, st, joins, p);
    assert b.policy.enabled ==> Join(b, true).policy.outstanding == map[];
  }

  /** A forward without joins: never the first, and from the second on exactly when some wrapped
      transfer is the only copy for its layer. */
  lemma StrictPolicyWithoutJoins(s: Schedule, order: seq<Label>, policy: Policy, script: seq<seq<bool>>, joins: seq<bool>)
    requires Loadable(s) && s.OverlapFree() && PreloadOrder(s, order)
    requires (forall f :: f in script ==> |f| == |s.stats|) && |joins| == |s.stats| && true !in joins
    ensures var start := Forwards(Reordered, s, Preloaded(Reordered, s, order, policy), script);
            AfterLayer(s, start, joins, |s.stats| - 1).policy.Raises(true) <==>
              policy.enabled && policy.strict && script != [] &&
              exists x :: s.Slot(x) && s.To(x) < s.Pos(x) && !IssuedFor(s, s.To(x), 0, s.To(x))
  {
    StrictPolicyRaisesIff(s, order, policy, script, joins);
    forall k: nat | k <= |joins| ensures PieceStart(joins, k) == 0 { NoJoinNoPiece(joins, k); }
  }

  lemma {:induction false} NoJoinNoPiece(joins: seq<bool>, k: nat)
    requires k <= |joins| && true !in joins
    ensures PieceStart(joins, k) == 0
  {
    if k > 0 {
      assert joins[k - 1] in joins;
      NoJoinNoPiece(joins, k - 1);
    }
  }

  /** A forward that ends by raising although it has no joins: the second one of a schedule that
      copies in at its last layer for the first. */
  lemma SecondForwardRaises(l: seq<Label>, policy: Policy)
    requires |l| == 4 && Distinct(l) && policy.enabled && policy.strict
    ensures var s := WrapAround(l);
            && Loadable(s) && s.OverlapFree() && PreloadOrder(s, [l[3]])
            && var start := Forwards(Reordered, s, Preloaded(Reordered, s, [l[3]], policy), [NO_JOINS]);
               AfterLayer(s, start, NO_JOINS, 3).policy.Raises(true)
  {
    var s := WrapAround(l);
    WrapAroundIsLoadable(l);
    StrictPolicyWithoutJoins(s, [l[3]], policy, [NO_JOINS], NO_JOINS);
    assert s.Slot(l[3]) && s.To(l[3]) == 0 && s.Pos(l[3]) == 3;
    assert !IssuedFor(s, 0, 0, 0);
  }

  /** Before a forward the policy is in the mode it was given. */
  lemma StartKeepsPolicy(s: Schedule, order: seq<Label>, policy: Policy, script: seq<seq<bool>>)
    requires Loadable(s) && s.OverlapFree() && PreloadOrder(s, order) && forall f :: f in script ==> |f| == |s.stats|
    ensures var start := Forwards(Reordered, s, Preloaded(Reordered, s, order, policy), script);
            Between(Reordered, s, start, 0) && SameMode(start.policy, policy)
  {
    var loaded := Preloaded(Reordered, s, order, policy);
    PreloadIsReady(Reordered, s, order, policy);
    ForwardsKeep(Reordered, s, loaded, script);
    ForwardsKeepMode(Reordered, s, loaded, script);
    PreloadKeepsPolicy(s, order, policy);
  }

  lemma PreloadKeepsPolicy(s: Schedule, order: seq<Label>, policy: Policy)
    requires Loadable(s) && forall x :: x in order ==> x in s.block
    ensures Preloaded(Reordered, s, order, policy).policy == policy
  {
    TrackKeeps(Reordered, s, JoinStreams(Loader(map[], map[], map[], false, policy, PreloadCopies(s, order))), order);
  }

  lemma ForwardsEndSettled(s: Schedule, order: seq<Label>, policy: Policy, script: seq<seq<bool>>)
    requires Loadable(s) && s.OverlapFree() && PreloadOrder(s, order) && forall f :: f in script ==> |f| == |s.stats|
    requires script != []
    ensures Forwards(Reordered, s, Preloaded(Reordered, s, order, policy), script).scheduled == map[]
  {
    var last := |script| - 1;
    JoinsSettle(Reordered, s, order, policy, script[..last], script[last], |s.stats|);
  }

  lemma AfterLayerKeepsMode(s: Schedule, st: Loader, joins: seq<bool>, p: nat)
    requires Loadable(s) && OccupantsKnown(s, st) && |joins| == |s.stats| && p < |s.stats|
    ensures SameMode(AfterLayer(s, st, joins, p).policy, st.policy)
  {
    LayersKeepMode(Reordered, s, st, joins, p);
    EnterKeepsMode(Reordered, s, Layers(Reordered, s, st, joins, p), s.stats[p]);
  }

  /** The rolling loader waits for its own copy before every join, so no join ever raises. */
  lemma RollingNeverRaises(s: Schedule, st: Loader, joins: seq<bool>, k: nat, atLastLayer: bool)
    requires Loadable(s) && OccupantsKnown(s, st) && |joins| == |s.stats| && k < |s.stats|
    requires st.policy.outstanding == map[]
    ensures Layers(Rolling, s, st, joins, k).policy.outstanding == map[]
    ensures var a := Layers(Rolling, s, st, joins, k);
            !AwaitTransfer(Issue(Enter(Rolling, s, a, s.stats[k]), [Compute(s.stats[k])]), s.stats[k]).policy.Raises(atLastLayer)
  {
    RollingLeavesNone(s, st, joins, k);
    RollingAwaits(s, Layers(Rolling, s, st, joins, k), s.stats[k]);
  }

  lemma {:induction false} RollingLeavesNone(s: Schedule, st: Loader, joins: seq<bool>, k: nat)
    requires Loadable(s) && OccupantsKnown(s, st) && |joins| == |s.stats| && k <= |s.stats|
    requires st.policy.outstanding == map[]
    ensures Layers(Rolling, s, st, joins, k).policy.outstanding == map[]
  {
    hide Trap;
    if k > 0 {
      RollingLeavesNone(s, st, joins, k - 1);
      RollingLayerLeavesNone(s, st, joins, k);
    }
  }

  lemma RollingLayerLeavesNone(s: Schedule, st: Loader, joins: seq<bool>, k: nat)
    requires Loadable(s) && OccupantsKnown(s, st) && |joins| == |s.stats| && 0 < k <= |s.stats|
    requires Layers(Rolling, s, st, joins, k - 1).policy.outstanding == map[]
    ensures Layers(Rolling, s, st, joins, k).policy.outstanding == map[]
  {
    NextLayerIsTrap(Rolling, s, st, joins, k);
    RollingTrapLeavesNone(s, Layers(Rolling, s, st, joins, k - 1), Layers(Rolling, s, st, joins, k), s.stats[k - 1], joins[k - 1]);
  }

  lemma RollingTrapLeavesNone(s: Schedule, st: Loader, st': Loader, l: Label, join: bool)
    requires Loadable(s) && OccupantsKnown(s, st) && st.policy.outstanding == map[]
    requires st' == Trap(Rolling, s, st, l, join)
    ensures st'.policy.outstanding == map[]
  {
    RollingEnter(s, st, l);
    RollingExit(s, Issue(Enter(Rolling, s, st, l), [Compute(l)]), l);
  }

  lemma RollingAwaits(s: Schedule, st: Loader, l: Label)
    requires Loadable(s) && OccupantsKnown(s, st) && st.policy.outstanding == map[]
    ensures AwaitTransfer(Issue(Enter(Rolling, s, st, l), [Compute(l)]), l).policy.outstanding == map[]
  {
    RollingEnter(s, st, l);
    RollingExit(s, Issue(Enter(Rolling, s, st, l), [Compute(l)]), l);
  }

  lemma RollingEnter(s: Schedule, st: Loader, l: Label)
    requires Loadable(s) && OccupantsKnown(s, st) && st.policy.outstanding == map[]
    ensures var a := Enter(Rolling, s, st, l);
            (!a.policy.enabled ==> a.policy.outstanding == map[]) &&
            forall m :: m in a.policy.outstanding ==> m == l && l in a.scheduled
  {
    var a := Begin(Rolling, s, st, l);
    assert a.policy.outstanding == map[] && OccupantsKnown(s, a);
    if l in s.block {
      assert l in s.block.Keys;
      CopyPolicy(Rolling, s, a, l);
    }
  }

  lemma RollingExit(s: Schedule, st: Loader, l: Label)
    requires Loadable(s) && (!st.policy.enabled ==> st.policy.outstanding == map[])
    requires forall m :: m in st.policy.outstanding ==> m == l && l in st.scheduled
    ensures AwaitTransfer(st, l).policy.outstanding == map[] && Exit(Rolling, s, st, l).policy.outstanding == map[]
  {
    var a := AwaitTransfer(st, l);
    assert st.policy.outstanding - {l} == map[];
    assert a.policy.outstanding == map[];
    assert Join(RecordCompute(a, l), true).policy.outstanding == map[];
  }
}
