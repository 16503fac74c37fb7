/** The policy that watches joins for prefetches that were scheduled but not yet waited for. */
module PrefetchPolicy {
  import opened Timeline

  /** `outstanding` maps a compute label to the label its copy was scheduled at. */
  datatype Policy = Policy(enabled: bool, strict: bool, outstanding: map<Label, Label>, waited: set<Label>,
                           warned: set<(Label, Label)>)
  {
    function Reset(): Policy { this.(outstanding := map[], waited := {}) }

    function OnSchedule(scheduleLabel: Label, computeLabel: Label): Policy {
      if enabled then this.(outstanding := outstanding[computeLabel := scheduleLabel]) else this
    }

    function OnWait(computeLabel: Label): Policy {
      if enabled then this.(outstanding := outstanding - {computeLabel}, waited := waited + {computeLabel}) else this
    }

    /** The outstanding prefetches a join reports: compute label to schedule label. */
    function Broken(atLastLayer: bool): map<Label, Label> {
      map c | c in outstanding && !(atLastLayer && c in waited) :: outstanding[c]
    }

    function AfterJoin(atLastLayer: bool): Policy {
      if enabled then this.(outstanding := map[], warned := warned + Broken(atLastLayer).Items) else this
    }

    predicate Raises(atLastLayer: bool) { enabled && strict && Broken(atLastLayer) != map[] }

    predicate Warns(atLastLayer: bool) { enabled && !strict && !(Broken(atLastLayer).Items <= warned) }

    function After(e: Event): Policy {
      match e
      case PassStarted => Reset()
      case CopyScheduled(l, c) => OnSchedule(l, c)
      case CopyAwaited(c) => OnWait(c)
      case PieceJoined(atLastLayer) => AfterJoin(atLastLayer)
    }

    /** After the events of any number of forwards. */
    function Run(events: seq<Event>): Policy {
      if events == [] then this else Run(events[..|events| - 1]).After(events[|events| - 1])
    }
  }

  /** What a loader tells its policy. */
  datatype Event =
    | PassStarted
    | CopyScheduled(scheduleLabel: Label, computeLabel: Label)
    | CopyAwaited(computeLabel: Label)
    | PieceJoined(atLastLayer: bool)

  /** Event i schedules the copy, and nothing since has waited for it, scheduled another for the
      same compute label, joined or started a pass. */
  ghost predicate StillOut(events: seq<Event>, i: nat, l: Label, c: Label)
    requires i < |events|
  {
    events[i] == CopyScheduled(l, c) && forall j :: i < j < |events| ==>
      !events[j].PassStarted? && !events[j].PieceJoined? && events[j] != CopyAwaited(c) &&
      !(events[j].CopyScheduled? && events[j].computeLabel == c)
  }

  ghost predicate WaitedThisPass(events: seq<Event>, i: nat, c: Label)
    requires i < |events|
  {
    events[i] == CopyAwaited(c) && forall j :: i < j < |events| ==> !events[j].PassStarted?
  }

  /** What is outstanding, and what was waited for in this pass, by what happened. */
  lemma {:induction false} RememberedIff(p: Policy, events: seq<Event>, l: Label, c: Label)
    requires p.enabled && p.outstanding == map[] && p.waited == {}
    ensures p.Run(events).enabled
    ensures (c, l) in p.Run(events).outstanding.Items <==> exists i: nat :: i < |events| && StillOut(events, i, l, c)
    ensures c in p.Run(events).waited <==> exists i: nat :: i < |events| && WaitedThisPass(events, i, c)
  {
    if events != [] {
      var last := |events| - 1;
      var before, e := events[..last], events[last];
      RememberedIff(p, before, l, c);
      StillOutNext(before, e, l, c);
      assert events == before + [e];
    }
  }

  lemma StillOutNext(before: seq<Event>, e: Event, l: Label, c: Label)
    ensures var events := before + [e];
            (exists i: nat :: i < |events| && StillOut(events, i, l, c)) <==>
            e == CopyScheduled(l, c) ||
            (!e.PassStarted? && !e.PieceJoined? && e != CopyAwaited(c) && !(e.CopyScheduled? && e.computeLabel == c) &&
             exists i: nat :: i < |before| && StillOut(before, i, l, c))
    ensures var events := before + [e];
            (exists i: nat :: i < |events| && WaitedThisPass(events, i, c)) <==>
            e == CopyAwaited(c) || (!e.PassStarted? && exists i: nat :: i < |before| && WaitedThisPass(before, i, c))
  {
    var events := before + [e];
    forall i: nat | i < |before|
      ensures StillOut(events, i, l, c) <==>
              (StillOut(before, i, l, c) && !e.PassStarted? && !e.PieceJoined? && e != CopyAwaited(c) &&
               !(e.CopyScheduled? && e.computeLabel == c))
      ensures WaitedThisPass(events, i, c) <==> WaitedThisPass(before, i, c) && !e.PassStarted?
    {
      assert forall j :: 0 <= j < |before| ==> events[j] == before[j];
      assert events[|before|] == e;
    }
    assert StillOut(events, |before|, l, c) <==> e == CopyScheduled(l, c);
    assert WaitedThisPass(events, |before|, c) <==> e == CopyAwaited(c);
  }

  /** Event i is a join that finds the pair broken: a compute label and its schedule label. */
  ghost predicate Reports(p: Policy, events: seq<Event>, i: nat, pair: (Label, Label))
    requires i < |events|
  {
    events[i].PieceJoined? && pair in p.Run(events[..i]).Broken(events[i].atLastLayer).Items
  }

  /** The pairs remembered are those some join found broken. */
  lemma {:induction false} RemembersReports(p: Policy, events: seq<Event>, pair: (Label, Label))
    requires p.enabled
    ensures p.Run(events).enabled && p.Run(events).strict == p.strict
    ensures pair in p.Run(events).warned <==> pair in p.warned || exists i: nat :: i < |events| && Reports(p, events, i, pair)
  {
    if events != [] {
      var last := |events| - 1;
      var before := events[..last];
      RemembersReports(p, before, pair);
      forall i: nat | i < last ensures Reports(p, events, i, pair) <==> Reports(p, before, i, pair) {
        assert before[..i] == events[..i];
      }
      assert pair in p.Run(events).warned <==> pair in p.Run(before).warned || Reports(p, events, last, pair);
    }
  }

  /** Over any number of forwards and joins, a policy that only warns does so at a join exactly
      when that join breaks a prefetch that no earlier join broke. */
  lemma WarnsOnceIff(p: Policy, events: seq<Event>, i: nat)
    requires p.enabled && !p.strict && p.warned == {} && i < |events| && events[i].PieceJoined?
    ensures p.Run(events[..i]).Warns(events[i].atLastLayer) <==>
            exists pair :: Reports(p, events, i, pair) && forall k: nat :: k < i ==> !Reports(p, events, k, pair)
  {
    var before := events[..i];
    forall k: nat, pair | k < i ensures Reports(p, before, k, pair) <==> Reports(p, events, k, pair) {
      assert before[..k] == events[..k];
    }
    forall pair ensures pair in p.Run(before).warned <==> exists k: nat :: k < i && Reports(p, events, k, pair) {
      RemembersReports(p, before, pair);
    }
    RemembersReports(p, before, ("", ""));
    var broken := p.Run(before).Broken(events[i].atLastLayer).Items;
    if p.Run(before).Warns(events[i].atLastLayer) {
      var pair :| pair in broken && pair !in p.Run(before).warned;
      assert Reports(p, events, i, pair);
    }
  }

  class PiecewisePrefetchPolicy {
    const enabled: bool
    const strict: bool
    var outstanding: map<Label, Label>
    var waitedThisPass: set<Label>
    var warnedKeys: set<(Label, Label)>

    constructor (enabled: bool, strict: bool)
      ensures State() == Policy(enabled, strict, map[], {}, {})
    {
      this.enabled, this.strict := enabled, strict;
      outstanding, waitedThisPass, warnedKeys := map[], {}, {};
    }

    function State(): Policy
      reads this
    {
      Policy(enabled, strict, outstanding, waitedThisPass, warnedKeys)
    }

    method Reset()
      modifies this
      ensures State() == old(State()).Reset()
    {
      outstanding, waitedThisPass := map[], {};
    }

    method OnSchedule(scheduleLabel: Label, computeLabel: Label)
      modifies this
      ensures State() == old(State()).OnSchedule(scheduleLabel, computeLabel)
    {
      if !enabled { return; }
      outstanding := outstanding[computeLabel := scheduleLabel];
    }

    method OnWait(computeLabel: Label)
      modifies this
      ensures State() == old(State()).OnWait(computeLabel)
    {
      if !enabled { return; }
      outstanding := outstanding - {computeLabel};
      waitedThisPass := waitedThisPass + {computeLabel};
    }

    method BrokenPrefetches(atLastLayer: bool) returns (broken: map<Label, Label>)
      ensures broken == State().Broken(atLastLayer)
    {
      var todo := outstanding.Keys;
      broken := map[];
      while todo != {}
        invariant todo <= outstanding.Keys
        invariant broken == map c | c in outstanding && c !in todo && !(atLastLayer && c in waitedThisPass) :: outstanding[c]
        decreases |todo|
      {
        var c :| c in todo;
        todo := todo - {c};
        if !atLastLayer || c !in waitedThisPass { broken := broken[c := outstanding[c]]; }
      }
    }

    /** `raised` stands for PiecewisePrefetchPolicyError; a pair is warned about once. */
    method OnPieceJoin(atLastLayer: bool) returns (broken: map<Label, Label>, warns: bool, raised: bool)
      modifies this
      ensures State() == old(State()).AfterJoin(atLastLayer)
      ensures raised == old(State()).Raises(atLastLayer)
      ensures broken == if enabled then old(State()).Broken(atLastLayer) else map[]
      ensures warns == old(State()).Warns(atLastLayer)
    {
      broken, warns, raised := map[], false, false;
      if !enabled { return; }
      broken := BrokenPrefetches(atLastLayer);
      outstanding := map[];
      var newItems := broken.Items - warnedKeys;
      assert warnedKeys + newItems == warnedKeys + broken.Items;
      if broken == map[] {
        assert warnedKeys + broken.Items == warnedKeys;
        return;
      }
      warnedKeys := warnedKeys + newItems;
      if newItems == {} && !strict { return; }
      raised, warns := strict, !strict;
    }
  }
}
