/** The loader of the discovery phase: tensors are materialised while some trap owns or has
  borrowed them, and each tensor object points at its copy meanwhile. */
module WarmupLoader {
  import opened Timeline

  datatype TensorId = TensorId(number: int)

  /** Where a tensor object's data is. */
  datatype Data = Home(id: TensorId) | Copy(id: TensorId)

  function CountOf(counts: map<TensorId, nat>, id: TensorId): nat {
    if id in counts then counts[id] else 0
  }

  function Lowered(count: nat, released: bool): nat {
    if released && count > 0 then count - 1 else count
  }

  function OwnedBy(owned: map<Label, set<TensorId>>, l: Label): set<TensorId> {
    if l in owned then owned[l] else {}
  }

  /** How many active traps own the tensor; a trap entered twice counts twice. */
  function Owners(active: seq<Label>, owned: map<Label, set<TensorId>>, id: TensorId): nat {
    if active == [] then 0
    else Owners(active[..|active| - 1], owned, id) + if id in OwnedBy(owned, active[|active| - 1]) then 1 else 0
  }

  function BorrowingLabels(borrowed: map<Label, set<TensorId>>, id: TensorId): set<Label> {
    set l | l in borrowed && id in borrowed[l]
  }

  function Remove(active: seq<Label>, l: Label): (r: seq<Label>)
    ensures forall m :: m in r ==> m in active
  {
    if active == [] then [] else if active[0] == l then active[1..] else [active[0]] + Remove(active[1..], l)
  }

  /** list.pop when the label is on top, list.remove otherwise. */
  function Left(active: seq<Label>, l: Label): seq<Label> {
    if active != [] && active[|active| - 1] == l then active[..|active| - 1] else Remove(active, l)
  }

  lemma {:induction false} OwnersOfCons(m: Label, active: seq<Label>, owned: map<Label, set<TensorId>>, id: TensorId)
    ensures Owners([m] + active, owned, id) == Owners(active, owned, id) + if id in OwnedBy(owned, m) then 1 else 0
  {
    if active == [] {
      assert ([m] + active)[..0] == [];
    } else {
      assert ([m] + active)[..|active|] == [m] + active[..|active| - 1];
      OwnersOfCons(m, active[..|active| - 1], owned, id);
    }
  }

  lemma {:induction false} OwnersRemoved(active: seq<Label>, l: Label, owned: map<Label, set<TensorId>>, id: TensorId)
    requires l in active
    ensures Owners(Remove(active, l), owned, id) == Owners(active, owned, id) - if id in OwnedBy(owned, l) then 1 else 0
  {
    assert active == [active[0]] + active[1..];
    OwnersOfCons(active[0], active[1..], owned, id);
    if active[0] != l {
      OwnersRemoved(active[1..], l, owned, id);
      OwnersOfCons(active[0], Remove(active[1..], l), owned, id);
    }
  }

  lemma OthersStayActive(active: seq<Label>, l: Label)
    ensures forall m :: m in active && m != l ==> m in Left(active, l)
  {
    if active != [] && active[|active| - 1] == l {
      assert active == active[..|active| - 1] + [l];
    } else {
      RemoveKeepsOthers(active, l);
    }
  }

  lemma {:induction false} RemoveKeepsOthers(active: seq<Label>, l: Label)
    ensures forall m :: m in active && m != l ==> m in Remove(active, l)
  {
    if active != [] {
      assert active == [active[0]] + active[1..];
      if active[0] != l { RemoveKeepsOthers(active[1..], l); }
    }
  }

  lemma OwnersLeft(active: seq<Label>, l: Label, owned: map<Label, set<TensorId>>, id: TensorId)
    requires l in active
    ensures Owners(Left(active, l), owned, id) == Owners(active, owned, id) - if id in OwnedBy(owned, l) then 1 else 0
  {
    OwnersRemoved(active, l, owned, id);
  }

  lemma {:induction false} OwnerCounts(active: seq<Label>, l: Label, owned: map<Label, set<TensorId>>, id: TensorId)
    requires l in active && id in OwnedBy(owned, l)
    ensures Owners(active, owned, id) > 0
  {
    var last := |active| - 1;
    if active[last] != l {
      assert active == active[..last] + [active[last]];
      OwnerCounts(active[..last], l, owned, id);
    }
  }

  /** One more for each of the ids. */
  ghost predicate Raised(before: map<TensorId, nat>, after: map<TensorId, nat>, ids: set<TensorId>) {
    forall id :: CountOf(after, id) == CountOf(before, id) + if id in ids then 1 else 0
  }

  /** One fewer for each of the ids that is counted. */
  ghost predicate AllLowered(before: map<TensorId, nat>, after: map<TensorId, nat>, ids: set<TensorId>) {
    forall id :: CountOf(after, id) == Lowered(CountOf(before, id), id in ids)
  }

  /** Each count is the number of active owners and borrowers. */
  ghost predicate CountsBalance(counts: map<TensorId, nat>, active: seq<Label>, borrowed: map<Label, set<TensorId>>,
                                owned: map<Label, set<TensorId>>, tensors: set<TensorId>) {
    && (forall id :: id in tensors ==> CountOf(counts, id) == Owners(active, owned, id) + |BorrowingLabels(borrowed, id)|)
    && BorrowsFit(active, borrowed, owned, tensors)
  }

  /** Only active traps borrow, and never what they own. */
  ghost predicate BorrowsFit(active: seq<Label>, borrowed: map<Label, set<TensorId>>,
                             owned: map<Label, set<TensorId>>, tensors: set<TensorId>) {
    forall l :: l in borrowed ==> l in active && borrowed[l] <= tensors && borrowed[l] !! OwnedBy(owned, l)
  }

  lemma EnterBalances(counts: map<TensorId, nat>, counts': map<TensorId, nat>, active: seq<Label>,
                      borrowed: map<Label, set<TensorId>>,
                      owned: map<Label, set<TensorId>>, tensors: set<TensorId>, l: Label)
    requires CountsBalance(counts, active, borrowed, owned, tensors)
    requires Raised(counts, counts', OwnedBy(owned, l) * tensors)
    ensures CountsBalance(counts', active + [l], borrowed, owned, tensors)
  {
    forall id | id in tensors ensures CountOf(counts', id) == Owners(active + [l], owned, id) + |BorrowingLabels(borrowed, id)| {
      OwnerJoins(active, l, owned, id);
    }
  }

  lemma OwnerJoins(active: seq<Label>, l: Label, owned: map<Label, set<TensorId>>, id: TensorId)
    ensures Owners(active + [l], owned, id) == Owners(active, owned, id) + if id in OwnedBy(owned, l) then 1 else 0
  {
    assert (active + [l])[..|active|] == active;
  }

  lemma ExitBalances(counts: map<TensorId, nat>, counts': map<TensorId, nat>, active: seq<Label>,
                     borrowed: map<Label, set<TensorId>>,
                     owned: map<Label, set<TensorId>>, tensors: set<TensorId>, l: Label)
    requires CountsBalance(counts, active, borrowed, owned, tensors) && l in active
    requires var ids := OwnedBy(owned, l) + if l in borrowed then borrowed[l] else {};
             AllLowered(counts, counts', ids)
    requires forall m :: m in borrowed && m != l ==> m in Left(active, l)
    ensures CountsBalance(counts', Left(active, l), borrowed - {l}, owned, tensors)
  {
    forall id | id in tensors
      ensures CountOf(counts', id) == Owners(Left(active, l), owned, id) + |BorrowingLabels(borrowed - {l}, id)|
    {
      OwnersLeft(active, l, owned, id);
      if id in OwnedBy(owned, l) { OwnerCounts(active, l, owned, id); }
      BorrowerLeaves(borrowed, l, id);
    }
  }

  lemma BorrowerLeaves(borrowed: map<Label, set<TensorId>>, l: Label, id: TensorId)
    ensures |BorrowingLabels(borrowed, id)| == |BorrowingLabels(borrowed - {l}, id)| + if l in borrowed && id in borrowed[l] then 1 else 0
  {
    if l in borrowed && id in borrowed[l] {
      assert BorrowingLabels(borrowed, id) == BorrowingLabels(borrowed - {l}, id) + {l};
    } else {
      assert BorrowingLabels(borrowed, id) == BorrowingLabels(borrowed - {l}, id);
    }
  }

  lemma BorrowBalances(counts: map<TensorId, nat>, active: seq<Label>, borrowed: map<Label, set<TensorId>>,
                       owned: map<Label, set<TensorId>>, tensors: set<TensorId>, l: Label, id: TensorId)
    requires CountsBalance(counts, active, borrowed, owned, tensors) && l in active && id in tensors && id !in counts
    ensures CountsBalance(counts[id := 1], active, Borrow(borrowed, l, id), owned, tensors)
  {
    BorrowFits(counts, active, borrowed, owned, tensors, l, id);
    hide CountOf, Owners, BorrowingLabels, Borrow, BorrowsFit;
    forall other | other in tensors
      ensures CountOf(counts[id := 1], other) == Owners(active, owned, other) + |BorrowingLabels(Borrow(borrowed, l, id), other)|
    {
      BorrowCounts(counts, active, borrowed, owned, tensors, l, id, other);
    }
  }

  lemma BorrowFits(counts: map<TensorId, nat>, active: seq<Label>, borrowed: map<Label, set<TensorId>>,
                   owned: map<Label, set<TensorId>>, tensors: set<TensorId>, l: Label, id: TensorId)
    requires CountsBalance(counts, active, borrowed, owned, tensors) && l in active && id in tensors && id !in counts
    ensures BorrowsFit(active, Borrow(borrowed, l, id), owned, tensors)
  {
    assert CountOf(counts, id) == Owners(active, owned, id) + |BorrowingLabels(borrowed, id)|;
    if id in OwnedBy(owned, l) { OwnerCounts(active, l, owned, id); }
  }

  lemma BorrowCounts(counts: map<TensorId, nat>, active: seq<Label>, borrowed: map<Label, set<TensorId>>,
                     owned: map<Label, set<TensorId>>, tensors: set<TensorId>, l: Label, id: TensorId, other: TensorId)
    requires CountsBalance(counts, active, borrowed, owned, tensors) && id !in counts && id in tensors && other in tensors
    ensures CountOf(counts[id := 1], other) == Owners(active, owned, other) + |BorrowingLabels(Borrow(borrowed, l, id), other)|
  {
    assert CountOf(counts, other) == Owners(active, owned, other) + |BorrowingLabels(borrowed, other)|;
    hide CountsBalance, BorrowingLabels, Borrow;
    BorrowerJoins(borrowed, l, id, other);
  }

  function Borrow(borrowed: map<Label, set<TensorId>>, l: Label, id: TensorId): map<Label, set<TensorId>> {
    borrowed[l := (if l in borrowed then borrowed[l] else {}) + {id}]
  }

  lemma BorrowerJoins(borrowed: map<Label, set<TensorId>>, l: Label, id: TensorId, other: TensorId)
    ensures other != id ==> BorrowingLabels(Borrow(borrowed, l, id), other) == BorrowingLabels(borrowed, other)
    ensures |BorrowingLabels(borrowed, id)| == 0 ==> |BorrowingLabels(Borrow(borrowed, l, id), id)| == 1
  {
    if BorrowingLabels(borrowed, id) == {} { assert BorrowingLabels(Borrow(borrowed, l, id), id) == {l}; }
  }

  lemma NothingActive(owned: map<Label, set<TensorId>>, tensors: set<TensorId>)
    ensures CountsBalance(map[], [], map[], owned, tensors)
  {
    forall id ensures BorrowingLabels(map[], id) == {} {}
  }

  lemma EnterKeepsBalance(counts: map<TensorId, nat>, counts': map<TensorId, nat>, active: seq<Label>,
                          borrowed: map<Label, set<TensorId>>,
                          owned: map<Label, set<TensorId>>, tensors: set<TensorId>, l: Label)
    requires Raised(counts, counts', OwnedBy(owned, l) * tensors)
    ensures CountsBalance(counts, active, borrowed, owned, tensors) ==> CountsBalance(counts', active + [l], borrowed, owned, tensors)
  {
    if CountsBalance(counts, active, borrowed, owned, tensors) { EnterBalances(counts, counts', active, borrowed, owned, tensors, l); }
  }

  lemma BorrowKeepsBalance(counts: map<TensorId, nat>, active: seq<Label>, borrowed: map<Label, set<TensorId>>,
                           owned: map<Label, set<TensorId>>, tensors: set<TensorId>, l: Label, id: TensorId)
    requires l in active && id in tensors && id !in counts
    ensures CountsBalance(counts, active, borrowed, owned, tensors) ==>
              CountsBalance(counts[id := 1], active, Borrow(borrowed, l, id), owned, tensors)
  {
    if CountsBalance(counts, active, borrowed, owned, tensors) { BorrowBalances(counts, active, borrowed, owned, tensors, l, id); }
  }

  datatype Event = Enters(l: Label) | Exits(l: Label) | Gets(id: TensorId)

  function Next(active: seq<Label>, e: Event): seq<Label> {
    match e
    case Enters(l) => active + [l]
    case Exits(l) => Left(active, l)
    case Gets(_) => active
  }

  function ActiveAfter(events: seq<Event>): seq<Label> {
    if events == [] then [] else Next(ActiveAfter(events[..|events| - 1]), events[|events| - 1])
  }

  ghost predicate OnlyActiveLeave(events: seq<Event>) {
    forall i :: 0 <= i < |events| && events[i].Exits? ==> events[i].l in ActiveAfter(events[..i])
  }

  // ---------------------------------------------------------------------------
  // Which tensors a trap saw
  // ---------------------------------------------------------------------------

  function SeenBy(accessed: map<Label, set<TensorId>>, l: Label, id: TensorId): map<Label, set<TensorId>> {
    accessed[l := (if l in accessed then accessed[l] else {}) + {id}]
  }

  /** Reads count for the innermost trap, and a trap that leaves takes its own with it. */
  function NowAccessed(accessed: map<Label, set<TensorId>>, active: seq<Label>, e: Event): map<Label, set<TensorId>> {
    match e
    case Enters(_) => accessed
    case Exits(l) => accessed - {l}
    case Gets(id) => if active == [] then accessed else SeenBy(accessed, active[|active| - 1], id)
  }

  predicate Saw(accessed: map<Label, set<TensorId>>, l: Label, id: TensorId) { l in accessed && id in accessed[l] }

  /** Event i reads the tensor while l's is the innermost trap, and no trap of l leaves after it. */
  ghost predicate ReadAt(events: seq<Event>, i: nat, l: Label, id: TensorId)
    requires i < |events|
  {
    var active := ActiveAfter(events[..i]);
    events[i] == Gets(id) && active != [] && active[|active| - 1] == l && Exits(l) !in events[i..]
  }

  ghost predicate ReadUnder(events: seq<Event>, l: Label, id: TensorId) {
    exists i: nat :: i < |events| && ReadAt(events, i, l, id)
  }

  /** After the events, each trap's accesses are the tensors read under it. */
  ghost predicate AccessesAreReads(before: map<Label, set<TensorId>>, events: seq<Event>, accessed: map<Label, set<TensorId>>) {
    forall l, id :: Saw(accessed, l, id) <==> ReadUnder(events, l, id) || (Saw(before, l, id) && Exits(l) !in events)
  }

  lemma NoReadsYet(before: map<Label, set<TensorId>>)
    ensures AccessesAreReads(before, [], before)
  {
  }

  lemma AccessesStayReads(before: map<Label, set<TensorId>>, events: seq<Event>, accessed: map<Label, set<TensorId>>, e: Event)
    requires AccessesAreReads(before, events, accessed)
    ensures AccessesAreReads(before, events + [e], NowAccessed(accessed, ActiveAfter(events), e))
  {
    var accessed' := NowAccessed(accessed, ActiveAfter(events), e);
    forall l, id
      ensures Saw(accessed', l, id) <==> ReadUnder(events + [e], l, id) || (Saw(before, l, id) && Exits(l) !in events + [e])
    {
      hide ReadUnder, Saw, NowAccessed, ActiveAfter;
      assert Saw(accessed, l, id) <==> ReadUnder(events, l, id) || (Saw(before, l, id) && Exits(l) !in events);
      ReadNext(events, e, l, id);
      SawNext(accessed, ActiveAfter(events), e, l, id);
    }
  }

  lemma SawNext(accessed: map<Label, set<TensorId>>, active: seq<Label>, e: Event, l: Label, id: TensorId)
    ensures Saw(NowAccessed(accessed, active, e), l, id) <==>
            (Saw(accessed, l, id) && e != Exits(l)) || (e == Gets(id) && active != [] && active[|active| - 1] == l)
  {
  }

  lemma ReadNext(events: seq<Event>, e: Event, l: Label, id: TensorId)
    ensures ReadUnder(events + [e], l, id) <==>
            (ReadUnder(events, l, id) && e != Exits(l)) ||
            (e == Gets(id) && ActiveAfter(events) != [] && ActiveAfter(events)[|ActiveAfter(events)| - 1] == l)
  {
    hide ActiveAfter, ReadAt;
    var all := events + [e];
    forall i: nat | i < |events| ensures ReadAt(all, i, l, id) <==> ReadAt(events, i, l, id) && e != Exits(l) {
      ReadAtNext(events, e, i, l, id);
    }
    LastReadAt(events, e, l, id);
  }

  lemma LastReadAt(events: seq<Event>, e: Event, l: Label, id: TensorId)
    ensures ReadAt(events + [e], |events|, l, id) <==>
            e == Gets(id) && ActiveAfter(events) != [] && ActiveAfter(events)[|ActiveAfter(events)| - 1] == l
  {
    var all := events + [e];
    assert all[..|events|] == events && all[|events|..] == [e];
  }

  lemma ReadAtNext(events: seq<Event>, e: Event, i: nat, l: Label, id: TensorId)
    requires i < |events|
    ensures ReadAt(events + [e], i, l, id) <==> ReadAt(events, i, l, id) && e != Exits(l)
  {
    var all := events + [e];
    assert all[..i] == events[..i] && all[i..] == events[i..] + [e];
  }

  class WarmupDirectTensorLoader {
    const owned: map<Label, set<TensorId>>
    const tensors: set<TensorId>
    const overlapping: set<TensorId>
    var data: map<TensorId, Data>
    var materialized: map<TensorId, Data>
    var counts: map<TensorId, nat>
    var active: seq<Label>
    var borrowed: map<Label, set<TensorId>>
    var accessed: map<Label, set<TensorId>>
    var bound: map<TensorId, Data>

    /** The counted, the materialised and the bound tensors are the same, and every other tensor
        object has its own data. It holds even after a trap failed half-way. */
    ghost predicate Consistent()
      reads this`data, this`counts, this`materialized, this`bound
    {
      && data.Keys == tensors && counts.Keys <= tensors && counts.Keys == materialized.Keys == bound.Keys
      && (forall id :: id in counts ==> counts[id] > 0 && bound[id] == Home(id) && materialized[id] == Copy(id))
      && forall id :: id in data ==> data[id] == if id in counts then Copy(id) else Home(id)
    }

    ghost predicate Balanced()
      reads this`counts, this`active, this`borrowed
    {
      CountsBalance(counts, active, borrowed, owned, tensors)
    }

    constructor (owned: map<Label, set<TensorId>>, tensors: set<TensorId>, overlapping: set<TensorId>)
      ensures Consistent() && Balanced() && active == [] && this.owned == owned && this.tensors == tensors
      ensures this.overlapping == overlapping
    {
      this.owned, this.tensors, this.overlapping := owned, tensors, overlapping;
      data := map id | id in tensors :: Home(id);
      materialized, counts, active, borrowed, accessed, bound := map[], map[], [], map[], map[], map[];
    }

    /** Binding a tensor whose bytes overlap another's raises before anything is recorded. */
    method RetainTensor(id: TensorId) returns (ok: bool)
      requires Consistent()
      modifies this`data, this`materialized, this`counts, this`bound
      ensures Consistent()
      ensures !ok <==> id in tensors && id !in old(counts) && id in overlapping
      ensures counts == if ok && id in tensors then old(counts)[id := CountOf(old(counts), id) + 1] else old(counts)
    {
      if id !in tensors { return true; }
      if id in counts {
        counts := counts[id := counts[id] + 1];
        return true;
      }
      if id in overlapping { return false; }
      bound := bound[id := data[id]];
      data := data[id := Copy(id)];
      materialized, counts := materialized[id := Copy(id)], counts[id := 1];
      ok := true;
    }

    method ReleaseTensor(id: TensorId)
      requires Consistent()
      modifies this`data, this`materialized, this`counts, this`bound
      ensures Consistent()
      ensures forall other :: CountOf(counts, other) == Lowered(CountOf(old(counts), other), other == id)
    {
      if id !in counts { return; }
      if counts[id] > 1 {
        counts := counts[id := counts[id] - 1];
        return;
      }
      data := data[id := bound[id]];
      counts, bound, materialized := counts - {id}, bound - {id}, materialized - {id};
    }

    method RetainAll(ids: set<TensorId>) returns (ok: bool)
      requires Consistent()
      modifies this`data, this`materialized, this`counts, this`bound
      ensures Consistent()
      ensures ok ==> Raised(old(counts), counts, ids * tensors)
      ensures ok <==> ids * tensors * overlapping <= old(counts).Keys
    {
      var todo := ids;
      while todo != {}
        invariant todo <= ids && Consistent()
        invariant Raised(old(counts), counts, (ids - todo) * tensors)
        invariant (ids - todo) * tensors * overlapping <= old(counts).Keys
        decreases |todo|
      {
        var id :| id in todo;
        assert CountOf(counts, id) == CountOf(old(counts), id);
        ok := RetainTensor(id);
        if !ok { return; }
        todo := todo - {id};
      }
      ok := true;
    }

    method ReleaseAll(ids: set<TensorId>)
      requires Consistent()
      modifies this`data, this`materialized, this`counts, this`bound
      ensures Consistent()
      ensures AllLowered(old(counts), counts, ids)
    {
      var todo := ids;
      while todo != {}
        invariant todo <= ids && Consistent()
        invariant AllLowered(old(counts), counts, ids - todo)
        decreases |todo|
      {
        var id :| id in todo;
        ReleaseTensor(id);
        todo := todo - {id};
      }
    }

    /** Materialises what the trap owns; fails when that would bind overlapping tensors. */
    method Enter(l: Label) returns (ok: bool)
      requires Consistent()
      modifies this`data, this`materialized, this`counts, this`bound, this`active
      ensures Consistent() && active == old(active) + [l]
      ensures ok && old(Balanced()) ==> Balanced()
      ensures ok <==> OwnedBy(owned, l) * tensors * overlapping <= old(counts).Keys
    {
      ok := RetainOwned(l);
      if ok { EnterKeepsBalance(old(counts), counts, old(active), borrowed, owned, tensors, l); }
    }

    method RetainOwned(l: Label) returns (ok: bool)
      requires Consistent()
      modifies this`data, this`materialized, this`counts, this`bound, this`active
      ensures Consistent() && active == old(active) + [l]
      ensures ok ==> Raised(old(counts), counts, OwnedBy(owned, l) * tensors)
      ensures ok <==> OwnedBy(owned, l) * tensors * overlapping <= old(counts).Keys
    {
      active := active + [l];
      ok := RetainAll(OwnedBy(owned, l));
    }

    /** Releases what the trap owns and has borrowed; any active trap may leave. */
    method Exit(l: Label)
      requires Consistent()
      modifies this`data, this`materialized, this`counts, this`bound, this`active, this`borrowed, this`accessed
      ensures Consistent() && active == Left(old(active), l)
      ensures old(Balanced()) && l in old(active) ==> Balanced()
      ensures borrowed == old(borrowed) - {l} && accessed == old(accessed) - {l}
    {
      var ids := OwnedBy(owned, l) + if l in borrowed then borrowed[l] else {};
      borrowed := borrowed - {l};
      ReleaseAll(ids);
      accessed := accessed - {l};
      active := Left(active, l);
      if old(Balanced()) && l in old(active) {
        OthersStayActive(old(active), l);
        ExitBalances(old(counts), counts, old(active), old(borrowed), owned, tensors, l);
      }
    }

    /** What a read through a direct getter sees; inside a trap, a managed tensor is borrowed
        for it unless it is materialised already. */
    method Get(id: TensorId) returns (ok: bool, found: bool, tensor: Data)
      requires Consistent()
      modifies this`data, this`materialized, this`counts, this`bound, this`borrowed, this`accessed
      ensures Consistent() && active == old(active)
      ensures ok && old(Balanced()) ==> Balanced()
      ensures ok ==> (found <==> id in materialized) && (found ==> tensor == Copy(id))
      ensures ok && active != [] && id in tensors ==> found
      ensures !ok ==> id in overlapping
      ensures accessed == NowAccessed(old(accessed), old(active), Gets(id))
    {
      ok, found, tensor := true, false, Home(id);
      if active != [] {
        var l := active[|active| - 1];
        accessed := SeenBy(accessed, l, id);
        if id !in materialized && id in tensors {
          ok := BorrowFor(l, id);
          if !ok { return; }
        }
      }
      if id in materialized { found, tensor := true, materialized[id]; }
    }

    method BorrowFor(l: Label, id: TensorId) returns (ok: bool)
      requires Consistent() && l in active && id in tensors && id !in materialized
      modifies this`data, this`materialized, this`counts, this`bound, this`borrowed
      ensures Consistent() && (ok ==> id in materialized) && (!ok ==> id in overlapping)
      ensures ok && old(Balanced()) ==> Balanced()
    {
      borrowed := Borrow(borrowed, l, id);
      ok := RetainTensor(id);
      if ok { BorrowKeepsBalance(old(counts), active, old(borrowed), owned, tensors, l, id); }
    }

    /** Puts every tensor back, also after a trap failed half-way. */
    method ReleaseMemory()
      requires Consistent()
      modifies this
      ensures Consistent() && Balanced() && active == [] && AllHome()
    {
      data := map id | id in data :: if id in bound then bound[id] else data[id];
      bound, materialized, counts, active, borrowed, accessed := map[], map[], map[], [], map[], map[];
      NothingActive(owned, tensors);
    }

    ghost predicate AllHome()
      reads this
    {
      && data.Keys == tensors && (forall id :: id in data ==> data[id] == Home(id))
      && materialized == map[] && counts == map[] && bound == map[]
    }

    /** When every trap has left, no tensor is materialised and each has its own data back. */
    lemma AllLeftAllHome()
      requires Consistent() && Balanced() && active == []
      ensures AllHome()
    {
      forall id | id in tensors ensures id !in counts {
        assert BorrowingLabels(borrowed, id) == {};
      }
      assert counts.Keys == {};
    }

    method Handle(e: Event) returns (ok: bool)
      requires Consistent() && (e.Exits? ==> e.l in active)
      modifies this
      ensures Consistent() && (overlapping == {} ==> ok)
      ensures ok ==> active == Next(old(active), e) && (old(Balanced()) ==> Balanced())
      ensures accessed == NowAccessed(old(accessed), old(active), e)
    {
      match e
      case Enters(l) => ok := Enter(l);
      case Exits(l) => Exit(l); ok := true;
      case Gets(id) => var found, tensor; ok, found, tensor := Get(id);
    }

    /** Any run in which only active traps leave; it can only fail on overlapping tensors. */
    method RunTraps(events: seq<Event>) returns (ok: bool)
      requires Consistent() && Balanced() && active == [] && OnlyActiveLeave(events)
      modifies this
      ensures Consistent() && (overlapping == {} ==> ok)
      ensures ok ==> Balanced() && active == ActiveAfter(events) && (active == [] ==> AllHome())
      ensures ok ==> AccessesAreReads(old(accessed), events, accessed)
    {
      ok := true;
      NoReadsYet(accessed);
      for i := 0 to |events|
        invariant Consistent() && Balanced() && active == ActiveAfter(events[..i])
        invariant AccessesAreReads(old(accessed), events[..i], accessed)
      {
        assert events[..i + 1][..i] == events[..i] && events[..i + 1] == events[..i] + [events[i]];
        AccessesStayReads(old(accessed), events[..i], accessed, events[i]);
        ok := Handle(events[i]);
        if !ok { return; }
      }
      assert events[..|events|] == events;
      ok := true;
      if active == [] { AllLeftAllHome(); }
    }
  }
}
