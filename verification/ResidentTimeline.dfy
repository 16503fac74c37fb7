/** The strategy loader's GPU bytes told by when tensors are loaded, used and released. */
module ResidentTimeline {
  import opened Timeline
  import opened StateTransition
  import opened ResidentBytes
  import ProfileRequirements

  ghost predicate ActsAt(strategy: map<Label, seq<string>>, layers: seq<Label>, k: int, name: string) {
    0 <= k < |layers| && name in Lookup(strategy, layers[k])
  }

  /** No layer in [k, n) releases the tensor. */
  ghost predicate Kept(release: map<Label, seq<string>>, layers: seq<Label>, k: int, n: int, name: string) {
    forall j :: k <= j < n ==> !ActsAt(release, layers, j, name)
  }

  /** On the GPU once n layers have loaded and released: loaded by one of them, or there at the
      start, and not released since. A layer releases after it loads. */
  ghost predicate OnGpu(start: Names, layers: seq<Label>, load: map<Label, seq<string>>,
                        release: map<Label, seq<string>>, n: nat, name: string) {
    (name in start && Kept(release, layers, 0, n, name)) ||
    exists k :: 0 <= k < n && ActsAt(load, layers, k, name) && Kept(release, layers, k, n, name)
  }

  /** On the GPU while layer n runs. */
  ghost predicate OnGpuDuring(start: Names, layers: seq<Label>, load: map<Label, seq<string>>,
                              release: map<Label, seq<string>>, n: nat, name: string) {
    OnGpu(start, layers, load, release, n, name) || ActsAt(load, layers, n, name)
  }

  lemma {:induction false} ResidentMeans(start: Names, layers: seq<Label>, load: map<Label, seq<string>>,
                                         release: map<Label, seq<string>>, name: string)
    ensures name in ResidentAfter(start, layers, load, release) <==> OnGpu(start, layers, load, release, |layers|, name)
  {
    if layers != [] {
      var last := |layers| - 1;
      ResidentMeans(start, layers[..last], load, release, name);
      NextMeans(start, layers, load, release, name);
    }
  }

  lemma NextMeans(start: Names, layers: seq<Label>, load: map<Label, seq<string>>, release: map<Label, seq<string>>, name: string)
    requires layers != []
    ensures var last := |layers| - 1;
            OnGpu(start, layers, load, release, |layers|, name) <==>
            (OnGpu(start, layers[..last], load, release, last, name) || ActsAt(load, layers, last, name)) &&
            !ActsAt(release, layers, last, name)
  {
    var n := |layers| - 1;
    PrefixMeans(start, layers, load, release, n, name);
    forall k | 0 <= k <= n ensures Kept(release, layers, k, n + 1, name) <==> Kept(release, layers, k, n, name) && !ActsAt(release, layers, n, name) {}
    if ActsAt(load, layers, n, name) && !ActsAt(release, layers, n, name) {
      assert ActsAt(load, layers, n, name) && Kept(release, layers, n, n + 1, name);
    }
  }

  lemma PrefixMeans(start: Names, layers: seq<Label>, load: map<Label, seq<string>>, release: map<Label, seq<string>>,
                    n: nat, name: string)
    requires n <= |layers|
    ensures OnGpu(start, layers[..n], load, release, n, name) <==> OnGpu(start, layers, load, release, n, name)
  {
    forall k | 0 <= k < n ensures ActsAt(load, layers[..n], k, name) <==> ActsAt(load, layers, k, name) {}
    forall k | 0 <= k ensures Kept(release, layers[..n], k, n, name) <==> Kept(release, layers, k, n, name) {
      KeptInPrefix(release, layers, k, n, name);
    }
  }

  lemma KeptInPrefix(release: map<Label, seq<string>>, layers: seq<Label>, k: nat, n: nat, name: string)
    requires n <= |layers|
    ensures Kept(release, layers[..n], k, n, name) <==> Kept(release, layers, k, n, name)
  {
    forall j | 0 <= j < n ensures ActsAt(release, layers[..n], j, name) <==> ActsAt(release, layers, j, name) {}
  }

  ghost predicate AreDuring(start: Names, layers: seq<Label>, load: map<Label, seq<string>>,
                            release: map<Label, seq<string>>, n: nat, names: Names) {
    forall name :: name in names <==> OnGpuDuring(start, layers, load, release, n, name)
  }

  /** What layer n has on the GPU. */
  function During(start: Names, layers: seq<Label>, load: map<Label, seq<string>>, release: map<Label, seq<string>>, n: nat): Names
    requires n < |layers|
  {
    ResidentAfter(start, layers[..n], load, release) + AsSet(Lookup(load, layers[n]))
  }

  lemma DuringMeans(start: Names, layers: seq<Label>, load: map<Label, seq<string>>, release: map<Label, seq<string>>, n: nat)
    requires n < |layers|
    ensures AreDuring(start, layers, load, release, n, During(start, layers, load, release, n))
  {
    forall name ensures name in During(start, layers, load, release, n) <==> OnGpuDuring(start, layers, load, release, n, name) {
      ResidentMeans(start, layers[..n], load, release, name);
      PrefixMeans(start, layers, load, release, n, name);
    }
  }

  /** What is on the GPU at the start, or else while layer n - 1 runs. */
  function Moment(start: Names, layers: seq<Label>, load: map<Label, seq<string>>, release: map<Label, seq<string>>, n: nat): Names
    requires n <= |layers|
  {
    if n == 0 then start else During(start, layers, load, release, n - 1)
  }

  lemma {:induction false} LevelIs(bytes: map<string, int>, start: Names, layers: seq<Label>,
                                   load: map<Label, seq<string>>, release: map<Label, seq<string>>, n: nat)
    requires start <= bytes.Keys && KnownNames(bytes, load) && n <= |layers|
    ensures var levels, names := ResidentLevels(bytes, start, layers, load, release), Moment(start, layers, load, release, n);
            |levels| == |layers| + 1 && names <= bytes.Keys && levels[n] == SumOf(bytes, names)
  {
    if layers != [] {
      var last := |layers| - 1;
      ResidentIsKnown(bytes, start, layers[..last], load, release);
      LevelIs(bytes, start, layers[..last], load, release, if n < |layers| then n else 0);
      if 0 < n < |layers| { assert layers[..last][..n - 1] == layers[..n - 1]; }
    }
  }

  /** At moment n, the start or while layer n - 1 runs, exactly these tensors are on the GPU. */
  ghost predicate AreAt(start: Names, layers: seq<Label>, load: map<Label, seq<string>>, release: map<Label, seq<string>>,
                        n: nat, names: Names) {
    if n == 0 then names == start else AreDuring(start, layers, load, release, n - 1, names)
  }

  ghost predicate BytesAt(bytes: map<string, int>, start: Names, layers: seq<Label>, load: map<Label, seq<string>>,
                          release: map<Label, seq<string>>, n: nat, total: int) {
    n <= |layers| && exists names :: names <= bytes.Keys && AreAt(start, layers, load, release, n, names) && total == SumOf(bytes, names)
  }

  lemma MomentMeans(start: Names, layers: seq<Label>, load: map<Label, seq<string>>, release: map<Label, seq<string>>, n: nat, names: Names)
    requires n <= |layers|
    ensures AreAt(start, layers, load, release, n, names) <==> names == Moment(start, layers, load, release, n)
  {
    if n > 0 { DuringMeans(start, layers, load, release, n - 1); }
  }

  lemma BytesAreLevel(bytes: map<string, int>, start: Names, layers: seq<Label>, load: map<Label, seq<string>>,
                      release: map<Label, seq<string>>, n: nat, total: int)
    requires start <= bytes.Keys && KnownNames(bytes, load) && n <= |layers|
    ensures |ResidentLevels(bytes, start, layers, load, release)| == |layers| + 1
    ensures BytesAt(bytes, start, layers, load, release, n, total) <==> total == ResidentLevels(bytes, start, layers, load, release)[n]
  {
    LevelIs(bytes, start, layers, load, release, n);
    hide ResidentLevels, AreAt, Moment;
    forall names ensures AreAt(start, layers, load, release, n, names) <==> names == Moment(start, layers, load, release, n) {
      MomentMeans(start, layers, load, release, n, names);
    }
  }

  /** The peak is the most bytes on the GPU at the start or while any layer runs. */
  lemma PeakIsMostOnGpu(bytes: map<string, int>, start: Names, layers: seq<Label>, load: map<Label, seq<string>>,
                        release: map<Label, seq<string>>, peak: int)
    requires start <= bytes.Keys && KnownNames(bytes, load) && forall name :: name in bytes ==> bytes[name] >= 0
    requires IsPeak(peak, ResidentLevels(bytes, start, layers, load, release))
    ensures forall n: nat, total :: BytesAt(bytes, start, layers, load, release, n, total) ==> total <= peak
    ensures exists n: nat :: BytesAt(bytes, start, layers, load, release, n, peak)
  {
    var levels := ResidentLevels(bytes, start, layers, load, release);
    LevelIs(bytes, start, layers, load, release, 0);
    SumNonNegative(bytes, start);
    hide ResidentLevels, BytesAt;
    assert levels[0] in levels && peak in levels;
    var at: nat :| at < |levels| && levels[at] == peak;
    BytesAreLevel(bytes, start, layers, load, release, at, peak);
    forall n: nat, total | BytesAt(bytes, start, layers, load, release, n, total) ensures total <= peak {
      AtIsMoment(bytes, start, layers, load, release, n, total);
      BytesAreLevel(bytes, start, layers, load, release, n, total);
      assert levels[n] in levels;
    }
  }

  lemma AtIsMoment(bytes: map<string, int>, start: Names, layers: seq<Label>, load: map<Label, seq<string>>,
                   release: map<Label, seq<string>>, n: nat, total: int)
    requires BytesAt(bytes, start, layers, load, release, n, total)
    ensures n <= |layers|
  {
  }

  // ---------------------------------------------------------------------------
  // What is there at the start
  // ---------------------------------------------------------------------------

  lemma {:induction false} ScheduledMeans(layers: ProfileRequirements.Layers, load: map<Label, seq<string>>, name: string)
    ensures name in ProfileRequirements.ScheduledBy(layers, load) <==>
            exists j :: 0 <= j < |layers| && name in Lookup(load, layers[j].0)
  {
    if layers != [] { ScheduledMeans(layers[..|layers| - 1], load, name); }
  }

  lemma {:induction false} UsedMeans(layers: ProfileRequirements.Layers, name: string)
    ensures name in ProfileRequirements.UsedBy(layers) <==> exists j :: 0 <= j < |layers| && name in layers[j].1
  {
    if layers != [] { UsedMeans(layers[..|layers| - 1], name); }
  }

  /** Some layer uses the tensor, and neither it nor a layer before it loads the tensor. */
  ghost predicate UsedFirst(layers: ProfileRequirements.Layers, load: map<Label, seq<string>>, name: string) {
    exists k :: 0 <= k < |layers| && name in layers[k].1 && LoadedAfter(layers, load, name, k)
  }

  ghost predicate LoadedAfter(layers: ProfileRequirements.Layers, load: map<Label, seq<string>>, name: string, k: int) {
    forall j :: 0 <= j <= k && j < |layers| ==> name !in Lookup(load, layers[j].0)
  }

  /** On the GPU before the first layer: the managed tensors that some layer uses before it is
      loaded, and those that no layer uses. */
  lemma StartMeans(layers: ProfileRequirements.Layers, load: map<Label, seq<string>>, managed: Names, name: string)
    ensures name in ProfileRequirements.Start(layers, load, managed) <==>
            name in managed && (UsedFirst(layers, load, name) || !exists j :: 0 <= j < |layers| && name in layers[j].1)
  {
    ProfileRequirements.PreloadedMeans(name, layers, load);
    UsedMeans(layers, name);
    forall k | 0 <= k < |layers| ensures name !in ProfileRequirements.ScheduledBy(layers[..k + 1], load) <==> LoadedAfter(layers, load, name, k) {
      ScheduledMeans(layers[..k + 1], load, name);
      assert forall j :: 0 <= j <= k ==> layers[..k + 1][j] == layers[j];
    }
  }
}
