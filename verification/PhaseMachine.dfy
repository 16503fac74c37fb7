/** From discovery over profiling to inference: how many forwards it takes. */
module PhaseMachine {
  datatype Phase = NotInitialized | Discovery | Profiling | Inference

  /** The part of the configuration that counts forwards. */
  datatype Config = Config(skipDiscovery: bool, discoveryIters: nat, profilingIters: nat)

  datatype State = State(phase: Phase, count: nat)

  function AtLeastOne(n: nat): nat { if n == 0 then 1 else n }

  /** Where the warmup starts: skipping discovery is honoured only if patched modules are reachable. */
  function Started(config: Config, patched: bool): State {
    State(if config.skipDiscovery && patched then Profiling else Discovery, 0)
  }

  /** One forward; `suspended` tells whether profiling is suspended during it. */
  function Updated(config: Config, st: State, suspended: bool): State {
    if st.phase.Inference? || st.phase.NotInitialized? then st
    else if suspended && st.phase.Profiling? then st
    else
      var count := st.count + 1;
      if st.phase.Discovery? && count >= config.discoveryIters then State(Profiling, 0)
      else if st.phase.Profiling? && count >= config.profilingIters then State(Inference, 0)
      else st.(count := count)
  }

  function After(config: Config, patched: bool, forwards: seq<bool>): State {
    if forwards == [] then Started(config, patched)
    else Updated(config, After(config, patched, forwards[..|forwards| - 1]), forwards[|forwards| - 1])
  }

  /** Forwards that discovery takes, suspended or not. */
  function DiscoveryForwards(config: Config, patched: bool): nat {
    if config.skipDiscovery && patched then 0 else AtLeastOne(config.discoveryIters)
  }

  function ItersBeforeInference(config: Config, patched: bool): nat {
    DiscoveryForwards(config, patched) + AtLeastOne(config.profilingIters)
  }

  function Measured(forwards: seq<bool>): nat {
    if forwards == [] then 0 else Measured(forwards[..|forwards| - 1]) + if forwards[|forwards| - 1] then 0 else 1
  }

  /** What the counter means in each phase. */
  lemma {:induction false} Progress(config: Config, patched: bool, forwards: seq<bool>)
    ensures var d, n, st := DiscoveryForwards(config, patched), |forwards|, After(config, patched, forwards);
            match st.phase
            case NotInitialized => false
            case Discovery => n < d && st.count == n
            case Profiling => n >= d && st.count == Measured(forwards[d..]) < AtLeastOne(config.profilingIters)
            case Inference => n >= d && Measured(forwards[d..]) >= AtLeastOne(config.profilingIters)
  {
    var d, n := DiscoveryForwards(config, patched), |forwards|;
    if forwards != [] {
      Progress(config, patched, forwards[..n - 1]);
      if n - 1 >= d {
        assert forwards[d..][..n - 1 - d] == forwards[..n - 1][d..];
      }
    }
  }

  /** Inference is reached exactly when discovery has had its forwards and, of those since, as
      many as profiling asks for ran with profiling not suspended. */
  lemma InferenceReachedIff(config: Config, patched: bool, forwards: seq<bool>)
    ensures After(config, patched, forwards).phase.Inference? <==>
              var d := DiscoveryForwards(config, patched);
              |forwards| >= d && Measured(forwards[d..]) >= AtLeastOne(config.profilingIters)
  {
    Progress(config, patched, forwards);
  }

  /** Without suspensions: exactly after the announced number of forwards. */
  lemma AnnouncedForwardsSuffice(config: Config, patched: bool, forwards: seq<bool>)
    requires true !in forwards
    ensures After(config, patched, forwards).phase.Inference? <==> |forwards| >= ItersBeforeInference(config, patched)
  {
    var d := DiscoveryForwards(config, patched);
    InferenceReachedIff(config, patched, forwards);
    if |forwards| >= d { AllMeasured(forwards[d..]); }
  }

  lemma {:induction false} AllMeasured(forwards: seq<bool>)
    requires true !in forwards
    ensures Measured(forwards) == |forwards|
  {
    if forwards != [] {
      assert forwards[|forwards| - 1] in forwards;
      AllMeasured(forwards[..|forwards| - 1]);
    }
  }

  /** Suspended forwards never bring inference closer than the announced number. */
  lemma NeverEarlier(config: Config, patched: bool, forwards: seq<bool>)
    requires After(config, patched, forwards).phase.Inference?
    ensures |forwards| >= ItersBeforeInference(config, patched)
  {
    InferenceReachedIff(config, patched, forwards);
    MeasuredAtMost(forwards[DiscoveryForwards(config, patched)..]);
  }

  lemma {:induction false} MeasuredAtMost(forwards: seq<bool>)
    ensures Measured(forwards) <= |forwards|
  {
    if forwards != [] { MeasuredAtMost(forwards[..|forwards| - 1]); }
  }

  /** The manager's phase fields. */
  class OffloadManager {
    const config: Config
    var phase: Phase
    var count: nat
    var skipHonored: bool

    function View(): State
      reads this
    {
      State(phase, count)
    }

    constructor (config: Config)
      ensures this.config == config && phase.NotInitialized? && count == 0 && !skipHonored
    {
      this.config := config;
      phase, count, skipHonored := NotInitialized, 0, false;
    }

    /** offload(): start the warmup. */
    method StartWarmup(patched: bool)
      modifies this
      ensures View() == Started(config, patched) && SkipFlagOf(patched)
    {
      phase, count := Discovery, 0;
      if config.skipDiscovery {
        if patched {
          skipHonored := true;
          phase, count := Profiling, 0;
        } else {
          skipHonored := false;
        }
      } else {
        skipHonored := true;
      }
    }

    method UpdateState(suspended: bool)
      modifies this
      ensures View() == Updated(config, old(View()), suspended) && skipHonored == old(skipHonored)
    {
      if phase.Inference? || phase.NotInitialized? { return; }
      if suspended && phase.Profiling? { return; }
      count := count + 1;
      if phase.Discovery? && count >= config.discoveryIters {
        phase, count := Profiling, 0;
      } else if phase.Profiling? && count >= config.profilingIters {
        phase, count := Inference, 0;
      }
    }

    /** Warmup and then one update for every forward. */
    method Drive(patched: bool, forwards: seq<bool>)
      modifies this
      ensures View() == After(config, patched, forwards) && SkipFlagOf(patched)
    {
      StartWarmup(patched);
      for i := 0 to |forwards|
        invariant View() == After(config, patched, forwards[..i]) && SkipFlagOf(patched)
      {
        assert forwards[..i + 1][..i] == forwards[..i];
        UpdateState(forwards[i]);
      }
      assert forwards[..|forwards|] == forwards;
    }

    /** The flag as a warmup leaves it. */
    ghost predicate SkipFlagOf(patched: bool)
      reads this
    {
      skipHonored == (!config.skipDiscovery || patched)
    }

    /** iters_before_inference: the least number of forwards, counted from the warmup that left
        the flag, after which this configuration can be in inference. */
    method ItersBeforeInference() returns (n: nat)
      ensures forall patched, forwards :: SkipFlagOf(patched) ==>
                After(config, patched, forwards).phase.Inference? ==> |forwards| >= n
      ensures forall patched, forwards :: SkipFlagOf(patched) && true !in forwards ==>
                (After(config, patched, forwards).phase.Inference? <==> |forwards| >= n)
    {
      var discoveryActive := !(config.skipDiscovery && skipHonored);
      n := (if discoveryActive then AtLeastOne(config.discoveryIters) else 0) + AtLeastOne(config.profilingIters);
      forall patched, forwards | SkipFlagOf(patched) && After(config, patched, forwards).phase.Inference?
        ensures |forwards| >= n
      {
        NeverEarlier(config, patched, forwards);
      }
      forall patched, forwards | SkipFlagOf(patched) && true !in forwards
        ensures After(config, patched, forwards).phase.Inference? <==> |forwards| >= n
      {
        AnnouncedForwardsSuffice(config, patched, forwards);
      }
    }

    /** The loop the number is for: warm up, then run the announced number of forwards. */
    method WarmUp(patched: bool)
      modifies this
      ensures phase.Inference? && SkipFlagOf(patched)
    {
      StartWarmup(patched);
      var n := ItersBeforeInference();
      for i := 0 to n
        invariant View() == After(config, patched, Unsuspended(i)) && SkipFlagOf(patched)
      {
        assert Unsuspended(i + 1)[..i] == Unsuspended(i);
        UpdateState(false);
        assert View() == After(config, patched, Unsuspended(i + 1));
      }
    }
  }

  function Unsuspended(n: nat): (r: seq<bool>)
    ensures |r| == n && true !in r
  {
    seq(n, _ => false)
  }
}
