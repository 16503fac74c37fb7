/** remap_strategy and create_allocation_ordered: the tables that follow the moved transfers. */
module StrategyRemap {
  import opened Timeline
  import opened Sorting

  ghost function Sources(moves: seq<(Label, Label)>): (r: set<Label>)
    ensures forall x :: x in r <==> exists i :: 0 <= i < |moves| && moves[i].0 == x
  {
    set i | 0 <= i < |moves| :: moves[i].0
  }

  ghost function Targets(moves: seq<(Label, Label)>): (r: set<Label>)
    ensures forall x :: x in r <==> exists i :: 0 <= i < |moves| && moves[i].1 == x
  {
    set i | 0 <= i < |moves| :: moves[i].1
  }

  /** Where a label ends up under remapped_layers. */
  function Dest(moves: seq<(Label, Label)>, x: Label): Label {
    if moves == [] then x else if moves[0].0 == x then moves[0].1 else Dest(moves[1..], x)
  }

  lemma {:induction false} NotASourceStays(moves: seq<(Label, Label)>, z: Label)
    requires z !in Sources(moves)
    ensures Dest(moves, z) == z
  {
    if moves != [] {
      assert forall i :: 0 <= i < |moves[1..]| ==> moves[1..][i] == moves[i + 1];
      NotASourceStays(moves[1..], z);
    }
  }

  /** The items of a dict: no key twice. */
  ghost predicate IsDict(moves: seq<(Label, Label)>) {
    forall i, j :: 0 <= i < j < |moves| ==> moves[i].0 != moves[j].0
  }

  lemma {:induction false} DestOfSource(moves: seq<(Label, Label)>, i: nat)
    requires IsDict(moves) && i < |moves|
    ensures Dest(moves, moves[i].0) == moves[i].1
  {
    if i > 0 {
      assert moves[1..][i - 1] == moves[i];
      DestOfSource(moves[1..], i - 1);
    }
  }

  /** The dict that remap_strategy has built after k items of key_remap. */
  function RemapUpTo<V>(strategy: map<Label, V>, moves: seq<(Label, Label)>, k: nat): map<Label, V>
    requires k <= |moves|
  {
    if k == 0 then strategy
    else
      var before, old_, new_ := RemapUpTo(strategy, moves, k - 1), moves[k - 1].0, moves[k - 1].1;
      if old_ !in strategy then before
      else if old_ != new_ then before[new_ := strategy[old_]] - {old_}
      else before[new_ := strategy[old_]]
  }

  method RemapStrategy<V>(strategy: map<Label, V>, moves: seq<(Label, Label)>) returns (r: map<Label, V>)
    requires IsDict(moves)
    ensures r == RemapUpTo(strategy, moves, |moves|)
  {
    r := strategy;
    if strategy == map[] {
      EmptyStaysEmpty(strategy, moves, |moves|);
      return;
    }
    for i := 0 to |moves|
      invariant r == RemapUpTo(strategy, moves, i)
    {
      var oldKey, newKey := moves[i].0, moves[i].1;
      if oldKey in strategy {
        r := r[newKey := strategy[oldKey]];
        if oldKey != newKey { r := r - {oldKey}; }
      }
    }
  }

  lemma {:induction false} EmptyStaysEmpty<V>(strategy: map<Label, V>, moves: seq<(Label, Label)>, k: nat)
    requires strategy == map[] && k <= |moves|
    ensures RemapUpTo(strategy, moves, k) == strategy
  {
    if k > 0 { EmptyStaysEmpty(strategy, moves, k - 1); }
  }

  /** Every list is under its new label, and there is no other label. */
  ghost predicate Lossless<V>(strategy: map<Label, V>, moves: seq<(Label, Label)>, r: map<Label, V>) {
    && (forall x :: x in strategy ==> Dest(moves, x) in r && r[Dest(moves, x)] == strategy[x])
    && (forall z :: z in r ==> exists x :: x in strategy && Dest(moves, x) == z)
  }

  /** A label that holds a list is reused only after its own list has moved away. */
  ghost predicate ReusedAfterMove(labels: set<Label>, moves: seq<(Label, Label)>) {
    forall i :: 0 <= i < |moves| && moves[i].0 in labels && moves[i].1 in labels ==>
      exists j :: 0 <= j <= i && moves[j].0 == moves[i].1
  }

  ghost predicate TargetsDiffer(labels: set<Label>, moves: seq<(Label, Label)>) {
    forall i, j :: 0 <= i < j < |moves| && moves[i].0 in labels && moves[j].0 in labels ==> moves[i].1 != moves[j].1
  }

  ghost predicate HadTurn(moves: seq<(Label, Label)>, k: nat, x: Label)
    requires k <= |moves|
  {
    exists i :: 0 <= i < k && moves[i].0 == x
  }

  // After k items: moved lists are at their targets, the others where they were.
  ghost predicate AtTargets<V>(strategy: map<Label, V>, moves: seq<(Label, Label)>, k: nat, r: map<Label, V>)
    requires k <= |moves|
  {
    forall i :: 0 <= i < k && moves[i].0 in strategy ==> moves[i].1 in r && r[moves[i].1] == strategy[moves[i].0]
  }

  ghost predicate Untouched<V>(strategy: map<Label, V>, moves: seq<(Label, Label)>, k: nat, r: map<Label, V>)
    requires k <= |moves|
  {
    forall x :: x in strategy && !HadTurn(moves, k, x) ==> x in r && r[x] == strategy[x]
  }

  ghost predicate IsTarget<V>(strategy: map<Label, V>, moves: seq<(Label, Label)>, k: nat, z: Label)
    requires k <= |moves|
  {
    exists i :: 0 <= i < k && moves[i].0 in strategy && moves[i].1 == z
  }

  ghost predicate NothingElse<V>(strategy: map<Label, V>, moves: seq<(Label, Label)>, k: nat, r: map<Label, V>)
    requires k <= |moves|
  {
    forall z :: z in r ==> (z in strategy && !HadTurn(moves, k, z)) || IsTarget(strategy, moves, k, z)
  }

  ghost predicate MovedSoFar<V>(strategy: map<Label, V>, moves: seq<(Label, Label)>, k: nat, r: map<Label, V>)
    requires k <= |moves|
  {
    AtTargets(strategy, moves, k, r) && Untouched(strategy, moves, k, r) && NothingElse(strategy, moves, k, r)
  }

  lemma TurnsAfter(moves: seq<(Label, Label)>, k: nat, x: Label)
    requires 0 < k <= |moves|
    ensures HadTurn(moves, k, x) <==> x == moves[k - 1].0 || HadTurn(moves, k - 1, x)
  {
  }

  lemma TargetsAfter<V>(strategy: map<Label, V>, moves: seq<(Label, Label)>, k: nat, z: Label)
    requires 0 < k <= |moves|
    ensures IsTarget(strategy, moves, k, z) <==>
              IsTarget(strategy, moves, k - 1, z) || (moves[k - 1].0 in strategy && z == moves[k - 1].1)
  {
  }

  /** The k-th target is no list still waiting, and neither end of the move is an earlier target. */
  ghost predicate Spares<V>(strategy: map<Label, V>, moves: seq<(Label, Label)>, k: nat)
    requires 0 < k <= |moves|
  {
    var old_, new_ := moves[k - 1].0, moves[k - 1].1;
    old_ in strategy ==>
      (new_ in strategy ==> new_ == old_ || HadTurn(moves, k - 1, new_)) &&
      !IsTarget(strategy, moves, k - 1, old_) && !IsTarget(strategy, moves, k - 1, new_)
  }

  lemma NoClobber<V>(strategy: map<Label, V>, moves: seq<(Label, Label)>, k: nat)
    requires IsDict(moves) && TargetsDiffer(strategy.Keys, moves) && ReusedAfterMove(strategy.Keys, moves)
    requires 0 < k <= |moves|
    ensures Spares(strategy, moves, k)
  {
  }

  /** So did the first k moves. */
  ghost predicate AllSpare<V>(strategy: map<Label, V>, moves: seq<(Label, Label)>, k: nat)
    requires k <= |moves|
  {
    k == 0 || (AllSpare(strategy, moves, k - 1) && Spares(strategy, moves, k))
  }

  lemma {:induction false} NoClobbers<V>(strategy: map<Label, V>, moves: seq<(Label, Label)>, k: nat)
    requires IsDict(moves) && TargetsDiffer(strategy.Keys, moves) && ReusedAfterMove(strategy.Keys, moves)
    requires k <= |moves|
    ensures AllSpare(strategy, moves, k)
  {
    if k > 0 {
      NoClobbers(strategy, moves, k - 1);
      NoClobber(strategy, moves, k);
    }
  }

  lemma {:induction false} RemapMoves<V>(strategy: map<Label, V>, moves: seq<(Label, Label)>, k: nat)
    requires k <= |moves| && AllSpare(strategy, moves, k)
    ensures MovedSoFar(strategy, moves, k, RemapUpTo(strategy, moves, k))
  {
    if k > 0 {
      RemapMoves(strategy, moves, k - 1);
      RemapMovesOne(strategy, moves, k, RemapUpTo(strategy, moves, k - 1));
    }
  }

  lemma RemapMovesOne<V>(strategy: map<Label, V>, moves: seq<(Label, Label)>, k: nat, before: map<Label, V>)
    requires 0 < k <= |moves| && Spares(strategy, moves, k)
    requires before == RemapUpTo(strategy, moves, k - 1) && MovedSoFar(strategy, moves, k - 1, before)
    ensures MovedSoFar(strategy, moves, k, RemapUpTo(strategy, moves, k))
  {
    MoveOne(strategy, moves, k, before, RemapUpTo(strategy, moves, k));
  }

  /** What one item of key_remap did, and that it clobbered nothing. */
  ghost predicate MovesOne<V>(strategy: map<Label, V>, moves: seq<(Label, Label)>, k: nat, before: map<Label, V>,
                              after: map<Label, V>)
    requires 0 < k <= |moves|
  {
    var old_, new_ := moves[k - 1].0, moves[k - 1].1;
    && Spares(strategy, moves, k)
    && after == if old_ !in strategy then before
                else if old_ != new_ then before[new_ := strategy[old_]] - {old_}
                else before[new_ := strategy[old_]]
  }

  lemma MoveOne<V>(strategy: map<Label, V>, moves: seq<(Label, Label)>, k: nat, before: map<Label, V>,
                   after: map<Label, V>)
    requires 0 < k <= |moves| && MovedSoFar(strategy, moves, k - 1, before)
    requires MovesOne(strategy, moves, k, before, after)
    ensures MovedSoFar(strategy, moves, k, after)
  {
    MoveOneAtTargets(strategy, moves, k, before, after);
    forall x ensures HadTurn(moves, k, x) <==> x == moves[k - 1].0 || HadTurn(moves, k - 1, x) { TurnsAfter(moves, k, x); }
    forall z | z in after
      ensures (z in strategy && !HadTurn(moves, k, z)) || IsTarget(strategy, moves, k, z)
    {
      TargetsAfter(strategy, moves, k, z);
    }
  }

  lemma MoveOneAtTargets<V>(strategy: map<Label, V>, moves: seq<(Label, Label)>, k: nat, before: map<Label, V>,
                            after: map<Label, V>)
    requires 0 < k <= |moves| && AtTargets(strategy, moves, k - 1, before)
    requires MovesOne(strategy, moves, k, before, after)
    ensures AtTargets(strategy, moves, k, after)
  {
    forall i | 0 <= i < k && moves[i].0 in strategy
      ensures moves[i].1 in after && after[moves[i].1] == strategy[moves[i].0]
    {
      if i < k - 1 { assert IsTarget(strategy, moves, k - 1, moves[i].1); }
    }
  }

  lemma LosslessWhenReusedAfterMove<V>(strategy: map<Label, V>, moves: seq<(Label, Label)>)
    requires IsDict(moves) && TargetsDiffer(strategy.Keys, moves) && ReusedAfterMove(strategy.Keys, moves)
    ensures Lossless(strategy, moves, RemapUpTo(strategy, moves, |moves|))
  {
    var r := RemapUpTo(strategy, moves, |moves|);
    NoClobbers(strategy, moves, |moves|);
    RemapMoves(strategy, moves, |moves|);
    forall x ensures HadTurn(moves, |moves|, x) <==> x in Sources(moves) {}
    forall x | x in strategy ensures Dest(moves, x) in r && r[Dest(moves, x)] == strategy[x] {
      if x in Sources(moves) {
        var i :| 0 <= i < |moves| && moves[i].0 == x;
        DestOfSource(moves, i);
      } else {
        NotASourceStays(moves, x);
      }
    }
    forall z | z in r ensures exists x :: x in strategy && Dest(moves, x) == z {
      if z in strategy && z !in Sources(moves) {
        NotASourceStays(moves, z);
        assert Dest(moves, z) == z;
      } else {
        assert IsTarget(strategy, moves, |moves|, z);
        var i :| 0 <= i < |moves| && moves[i].0 in strategy && moves[i].1 == z;
        DestOfSource(moves, i);
        assert Dest(moves, moves[i].0) == z;
      }
    }
  }

  /** A label taken over too early is deleted when its own turn comes. */
  lemma {:induction false} TakenLabelIsDeleted<V>(strategy: map<Label, V>, moves: seq<(Label, Label)>, i: nat, j: nat,
                                                  k: nat)
    requires IsDict(moves) && TargetsDiffer(strategy.Keys, moves) && i < j < k <= |moves|
    requires moves[i].0 in strategy && moves[i].1 in strategy && moves[j].0 == moves[i].1
    ensures moves[i].1 !in RemapUpTo(strategy, moves, k)
    decreases k
  {
    if k > j + 1 { TakenLabelIsDeleted(strategy, moves, i, j, k - 1); }
  }

  /** When no two labels hold the same list: nothing is lost exactly when no two labels that
      hold lists have one target, and each label that holds a list is reused only after its own
      list has moved. */
  lemma LosslessIff<V>(strategy: map<Label, V>, moves: seq<(Label, Label)>)
    requires IsDict(moves)
    requires forall x, y :: x in strategy && y in strategy && strategy[x] == strategy[y] ==> x == y
    ensures Lossless(strategy, moves, RemapUpTo(strategy, moves, |moves|)) <==>
              TargetsDiffer(strategy.Keys, moves) && ReusedAfterMove(strategy.Keys, moves)
  {
    if !TargetsDiffer(strategy.Keys, moves) {
      var i, j :| 0 <= i < j < |moves| && moves[i].0 in strategy && moves[j].0 in strategy && moves[i].1 == moves[j].1;
      DestOfSource(moves, i);
      DestOfSource(moves, j);
    } else if ReusedAfterMove(strategy.Keys, moves) {
      LosslessWhenReusedAfterMove(strategy, moves);
    } else {
      TakenTooEarlyLoses(strategy, moves);
    }
  }

  lemma TakenTooEarlyLoses<V>(strategy: map<Label, V>, moves: seq<(Label, Label)>)
    requires IsDict(moves) && TargetsDiffer(strategy.Keys, moves) && !ReusedAfterMove(strategy.Keys, moves)
    requires forall x, y :: x in strategy && y in strategy && strategy[x] == strategy[y] ==> x == y
    ensures !Lossless(strategy, moves, RemapUpTo(strategy, moves, |moves|))
  {
    var r := RemapUpTo(strategy, moves, |moves|);
    var i :| 0 <= i < |moves| && moves[i].0 in strategy && moves[i].1 in strategy &&
             forall j :: 0 <= j <= i ==> moves[j].0 != moves[i].1;
    var z := moves[i].1;
    DestOfSource(moves, i);
    if z in Sources(moves) {
      var j :| 0 <= j < |moves| && moves[j].0 == z;
      TakenLabelIsDeleted(strategy, moves, i, j, |moves|);
    } else {
      NotASourceStays(moves, z);
    }
  }

  /** Two labels that change places: one of the lists is lost. */
  lemma SwapLoses<V>(a: Label, b: Label, listA: V, listB: V)
    requires a != b && listA != listB
    ensures var moves := [(a, b), (b, a)];
            IsDict(moves) && !Lossless(map[a := listA, b := listB], moves, RemapUpTo(map[a := listA, b := listB], moves, 2))
  {
    var moves := [(a, b), (b, a)];
    assert moves[0].0 == a && moves[0].1 == b;
    LosslessIff(map[a := listA, b := listB], moves);
  }

  /** Two labels that move to one: one of the lists is lost, although no label is reused. */
  lemma MergeLoses<V>(a: Label, b: Label, c: Label, listA: V, listB: V)
    requires a != b && b != c && c != a && listA != listB
    ensures var moves := [(a, c), (b, c)];
            && IsDict(moves) && ReusedAfterMove({a, b}, moves)
            && !Lossless(map[a := listA, b := listB], moves, RemapUpTo(map[a := listA, b := listB], moves, 2))
  {
    var moves := [(a, c), (b, c)];
    assert moves[0].1 == moves[1].1;
    LosslessIff(map[a := listA, b := listB], moves);
  }

  /** The lists of the labels in `labels`. */
  function Within<V>(lists: map<Label, V>, labels: set<Label>): map<Label, V> {
    map x | x in lists && x in labels :: lists[x]
  }

  /** Labels that never move keep their lists, unless a list that moves lands on them. */
  lemma {:induction false} RemapWithin<V>(lists: map<Label, V>, moves: seq<(Label, Label)>, labels: set<Label>, k: nat)
    requires k <= |moves| && forall i :: 0 <= i < |moves| ==> moves[i].0 in labels
    ensures RemapUpTo(lists, moves, k) == (lists - labels) + RemapUpTo(Within(lists, labels), moves, k)
  {
    if k == 0 {
      assert lists == (lists - labels) + Within(lists, labels);
    } else {
      RemapWithin(lists, moves, labels, k - 1);
      var x, z := moves[k - 1].0, moves[k - 1].1;
      assert x in lists <==> x in Within(lists, labels);
      if x in lists { MergeThenMove(lists - labels, RemapUpTo(Within(lists, labels), moves, k - 1), x, z, lists[x]); }
    }
  }

  lemma MergeThenMove<V>(still: map<Label, V>, moving: map<Label, V>, x: Label, z: Label, v: V)
    requires x !in still
    ensures (still + moving)[z := v] == still + moving[z := v]
    ensures x != z ==> (still + moving)[z := v] - {x} == still + (moving[z := v] - {x})
  {
  }

  /** The layer order by which labels of a block are sorted; unknown labels come last. */
  function Place(s: Schedule, l: Label): int {
    if l in s.stats then s.Pos(l) else |s.stats|
  }

  /** The dict b -> labels holds exactly the labels of each block, each once. */
  ghost predicate Groups(block: map<Label, int>, blocks: seq<int>, allocation: map<int, seq<Label>>) {
    && Distinct(blocks)
    && (forall b :: b in blocks <==> b in allocation)
    && (forall l :: l in block ==> block[l] in allocation)
    && (forall b :: b in allocation ==> allocation[b] != [] && Distinct(allocation[b]))
    && (forall b, l :: b in allocation ==> (l in allocation[b] <==> l in block && block[l] == b))
  }

  /** Every label but those still to do is in the group of its block, once. */
  ghost predicate GroupedBut(block: map<Label, int>, todo: set<Label>, blocks: seq<int>, allocation: map<int, seq<Label>>) {
    && Distinct(blocks) && (forall b :: b in blocks <==> b in allocation)
    && (forall b :: b in allocation ==> IsGroup(block, todo, b, allocation[b]))
    && forall l :: l in block && l !in todo ==> block[l] in allocation
  }

  ghost predicate IsGroup(block: map<Label, int>, todo: set<Label>, b: int, labels: seq<Label>) {
    labels != [] && Distinct(labels) && forall l :: l in labels <==> l in block && l !in todo && block[l] == b
  }

  lemma JoinsGroup(block: map<Label, int>, todo: set<Label>, b: int, labels: seq<Label>, l: Label)
    requires l in todo && l in block && block[l] == b
    requires IsGroup(block, todo, b, labels) || (labels == [] && forall m :: m in block && m !in todo ==> block[m] != b)
    ensures IsGroup(block, todo - {l}, b, labels + [l])
  {
  }

  method GroupLabels(block: map<Label, int>) returns (blocks: seq<int>, allocation: map<int, seq<Label>>)
    ensures Groups(block, blocks, allocation)
  {
    var todo := block.Keys;
    blocks, allocation := [], map[];
    while todo != {}
      invariant todo <= block.Keys && GroupedBut(block, todo, blocks, allocation)
      decreases |todo|
    {
      var l :| l in todo;
      var b := block[l];
      GroupNext(block, todo, blocks, allocation, l);
      if b !in allocation { blocks, allocation := blocks + [b], allocation[b := []]; }
      allocation := allocation[b := allocation[b] + [l]];
      todo := todo - {l};
    }
  }

  lemma GroupNext(block: map<Label, int>, todo: set<Label>, blocks: seq<int>, allocation: map<int, seq<Label>>, l: Label)
    requires GroupedBut(block, todo, blocks, allocation) && l in todo && l in block
    ensures var b := block[l];
            GroupedBut(block, todo - {l}, if b in allocation then blocks else blocks + [b],
                       allocation[b := (if b in allocation then allocation[b] else []) + [l]])
  {
    var b := block[l];
    JoinsGroup(block, todo, b, if b in allocation then allocation[b] else [], l);
    forall c | c in allocation && c != b ensures IsGroup(block, todo - {l}, c, allocation[c]) {
      assert IsGroup(block, todo, c, allocation[c]);
    }
  }

  method CreateAllocationOrdered(s: Schedule) returns (blocks: seq<int>, allocation: map<int, seq<Label>>)
    ensures Groups(s.block, blocks, allocation)
    ensures forall b :: b in allocation ==> Sorted(allocation[b], (l, m) => Place(s, l) < Place(s, m))
  {
    var grouped;
    blocks, grouped := GroupLabels(s.block);
    var less := (l, m) => Place(s, l) < Place(s, m);
    allocation := SortGroups(blocks, grouped, labels => Sort(labels, less));
    AllSorted(blocks, grouped, labels => Sort(labels, less));
    SortedGroups(s.block, blocks, grouped, allocation, less);
  }

  lemma AllSorted(blocks: seq<int>, grouped: map<int, seq<Label>>, sort: seq<Label> -> seq<Label>)
    requires Distinct(blocks) && forall b :: b in blocks <==> b in grouped
    ensures var allocation := SortedFirst(blocks, grouped, sort, |blocks|);
            allocation.Keys == grouped.Keys && forall b :: b in grouped ==> allocation[b] == sort(grouped[b])
  {
    assert blocks[..|blocks|] == blocks;
    forall b | b in grouped ensures SortedFirst(blocks, grouped, sort, |blocks|)[b] == sort(grouped[b]) {
      SortedFirstAt(blocks, grouped, sort, |blocks|, b);
    }
  }

  method SortGroups(blocks: seq<int>, grouped: map<int, seq<Label>>, sort: seq<Label> -> seq<Label>)
    returns (allocation: map<int, seq<Label>>)
    requires forall b :: b in blocks ==> b in grouped
    ensures allocation == SortedFirst(blocks, grouped, sort, |blocks|)
  {
    allocation := grouped;
    for i := 0 to |blocks|
      invariant allocation == SortedFirst(blocks, grouped, sort, i)
    {
      var b := blocks[i];
      assert b in blocks && b in allocation.Keys;
      allocation := allocation[b := sort(allocation[b])];
    }
  }

  /** The groups of the first i blocks sorted. */
  function SortedFirst(blocks: seq<int>, grouped: map<int, seq<Label>>, sort: seq<Label> -> seq<Label>, i: nat)
    : (r: map<int, seq<Label>>)
    requires i <= |blocks| && forall b :: b in blocks ==> b in grouped
    ensures r.Keys == grouped.Keys
  {
    if i == 0 then grouped
    else
      var before, b := SortedFirst(blocks, grouped, sort, i - 1), blocks[i - 1];
      assert b in blocks && b in before.Keys;
      before[b := sort(before[b])]
  }

  lemma {:induction false} SortedFirstAt(blocks: seq<int>, grouped: map<int, seq<Label>>, sort: seq<Label> -> seq<Label>,
                                         i: nat, b: int)
    requires i <= |blocks| && Distinct(blocks) && (forall c :: c in blocks ==> c in grouped) && b in grouped
    ensures SortedFirst(blocks, grouped, sort, i)[b] == if b in blocks[..i] then sort(grouped[b]) else grouped[b]
  {
    if i > 0 {
      SortedFirstAt(blocks, grouped, sort, i - 1, b);
      assert blocks[..i] == blocks[..i - 1] + [blocks[i - 1]];
    }
  }

  lemma SortedGroups(block: map<Label, int>, blocks: seq<int>, grouped: map<int, seq<Label>>,
                     allocation: map<int, seq<Label>>, less: (Label, Label) -> bool)
    requires StrictOrder(less) && Groups(block, blocks, grouped) && allocation.Keys == grouped.Keys
    requires forall b :: b in grouped ==> allocation[b] == Sort(grouped[b], less)
    ensures Groups(block, blocks, allocation) && forall b :: b in allocation ==> Sorted(allocation[b], less)
  {
    forall b | b in grouped
      ensures allocation[b] != [] && Distinct(allocation[b]) && Sorted(allocation[b], less)
      ensures forall l :: l in allocation[b] <==> l in grouped[b]
    {
      SortSorts(grouped[b], less);
      SortKeepsDistinct(grouped[b], less);
      assert grouped[b][0] in allocation[b];
    }
  }

  lemma SortKeepsDistinct(s: seq<Label>, less: (Label, Label) -> bool)
    requires Distinct(s)
    ensures Distinct(Sort(s, less)) && forall l :: l in Sort(s, less) <==> l in s
  {
    var r := Sort(s, less);
    forall l ensures l in r <==> l in s { assert l in multiset(r) <==> l in multiset(s); }
    forall l ensures multiset(s)[l] <= 1 { DistinctCounts(s, l); }
    forall i, j | 0 <= i < j < |r| ensures r[i] != r[j] {
      assert multiset(r) == multiset(r[..j]) + multiset(r[j..]) by { assert r == r[..j] + r[j..]; }
      assert r[..j][i] in multiset(r[..j]) && r[j..][0] in multiset(r[j..]);
      assert multiset(s)[r[j]] <= 1;
    }
  }

  lemma {:induction false} DistinctCounts(s: seq<Label>, l: Label)
    requires Distinct(s)
    ensures multiset(s)[l] <= 1
  {
    if s != [] {
      assert s == [s[0]] + s[1..];
      DistinctCounts(s[1..], l);
      assert s[0] !in multiset(s[1..]);
    }
  }
}
