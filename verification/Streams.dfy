/** Two device streams: operations of one stream run in issue order, and an event recorded on
  one stream orders what the other does after waiting for it. */
module Streams {
  import opened Timeline

  datatype Stream = ComputeStream | TransferStream

  /** Operations in the order the host issues them; an event is the index of its Record. */
  datatype Op =
    | Copy(slot: Label, block: int)
    | Compute(layer: Label)
    | Record(on: Stream)
    | Wait(on: Stream, event: nat)

  type Trace = seq<Op>

  function StreamOf(op: Op): Stream {
    match op
    case Copy(_, _) => TransferStream
    case Compute(_) => ComputeStream
    case Record(on) => on
    case Wait(on, _) => on
  }

  /** Program order on a stream, or a recorded event and a wait for it. */
  ghost predicate Edge(tr: Trace, i: nat, j: nat)
    requires i < j < |tr|
  {
    StreamOf(tr[i]) == StreamOf(tr[j]) || (tr[i].Record? && tr[j] == Wait(StreamOf(tr[j]), i))
  }

  /** The reflexive transitive closure of the edges. */
  ghost predicate HappensBefore(tr: Trace, i: nat, j: nat)
    requires i < |tr| && j < |tr|
    decreases j
  {
    i == j || exists k: nat :: i <= k < j && Edge(tr, k, j) && HappensBefore(tr, i, k)
  }

  /** The stream `waiter` has waited, no later than j, for an event of the other stream that was
      recorded no earlier than i. */
  ghost predicate Awaited(tr: Trace, i: nat, j: nat, waiter: Stream) {
    exists w: nat :: i < w <= j && w < |tr| && IsWaitPast(tr, i, w, waiter)
  }

  ghost predicate IsWaitPast(tr: Trace, i: nat, w: nat, waiter: Stream)
    requires w < |tr|
  {
    tr[w].Wait? && tr[w].on == waiter && i <= tr[w].event < w && tr[tr[w].event].Record? && tr[tr[w].event].on != waiter
  }

  /** Across streams, happens-before is one wait for a late enough event. */
  lemma {:induction false} HappensBeforeAcross(tr: Trace, i: nat, j: nat)
    requires i < j < |tr| && StreamOf(tr[i]) != StreamOf(tr[j])
    ensures HappensBefore(tr, i, j) <==> Awaited(tr, i, j, StreamOf(tr[j]))
    decreases j
  {
    if HappensBefore(tr, i, j) {
      var k: nat :| i <= k < j && Edge(tr, k, j) && HappensBefore(tr, i, k);
      if StreamOf(tr[k]) == StreamOf(tr[j]) {
        HappensBeforeAcross(tr, i, k);
      } else {
        assert IsWaitPast(tr, i, j, StreamOf(tr[j]));
      }
    }
    if Awaited(tr, i, j, StreamOf(tr[j])) {
      var w: nat :| i < w <= j && IsWaitPast(tr, i, w, StreamOf(tr[j]));
      var e := tr[w].event;
      assert HappensBefore(tr, i, e) by { assert i == e || Edge(tr, i, e); assert HappensBefore(tr, i, i); }
      assert HappensBefore(tr, i, w) by { assert Edge(tr, e, w); }
      if w < j { assert Edge(tr, w, j); }
    }
  }
}
