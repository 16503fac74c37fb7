/** How many bytes of managed tensors a load and release schedule keeps on the GPU. */
module ResidentBytes {
  import opened Timeline
  import opened StateTransition

  type Names = set<string>

  /** Total bytes of a set of tensors. */
  ghost function SumOf(bytes: map<string, int>, names: Names): int
    requires names <= bytes.Keys
  {
    if names == {} then 0
    else
      var name :| name in names;
      bytes[name] + SumOf(bytes, names - {name})
  }

  lemma {:induction false} SumWithout(bytes: map<string, int>, names: Names, name: string)
    requires names <= bytes.Keys && name in names
    ensures SumOf(bytes, names) == bytes[name] + SumOf(bytes, names - {name})
    decreases names
  {
    var first :| first in names && SumOf(bytes, names) == bytes[first] + SumOf(bytes, names - {first});
    if first != name {
      SumWithout(bytes, names - {first}, name);
      SumWithout(bytes, names - {name}, first);
      assert names - {first} - {name} == names - {name} - {first};
    }
  }

  lemma SumWith(bytes: map<string, int>, names: Names, name: string)
    requires names <= bytes.Keys && name in bytes && name !in names
    ensures SumOf(bytes, names + {name}) == bytes[name] + SumOf(bytes, names)
  {
    SumWithout(bytes, names + {name}, name);
    assert names + {name} - {name} == names;
  }

  lemma {:induction false} SumNonNegative(bytes: map<string, int>, names: Names)
    requires names <= bytes.Keys && forall name :: name in bytes ==> bytes[name] >= 0
    ensures SumOf(bytes, names) >= 0
    decreases names
  {
    if names != {} {
      var name :| name in names;
      SumWithout(bytes, names, name);
      SumNonNegative(bytes, names - {name});
    }
  }

  function Lookup(strategy: map<Label, seq<string>>, l: Label): seq<string> {
    if l in strategy then strategy[l] else []
  }

  function AsSet(names: seq<string>): Names { set name | name in names }

  /** What is resident after each of the first k layers has loaded and then released. */
  function ResidentAfter(start: Names, layers: seq<Label>, load: map<Label, seq<string>>,
                         release: map<Label, seq<string>>): Names {
    if layers == [] then start
    else
      var last := |layers| - 1;
      ResidentAfter(start, layers[..last], load, release) + AsSet(Lookup(load, layers[last])) - AsSet(Lookup(release, layers[last]))
  }

  ghost predicate KnownNames(bytes: map<string, int>, strategy: map<Label, seq<string>>) {
    forall l :: l in strategy ==> AsSet(strategy[l]) <= bytes.Keys
  }

  lemma {:induction false} ResidentIsKnown(bytes: map<string, int>, start: Names, layers: seq<Label>,
                                           load: map<Label, seq<string>>, release: map<Label, seq<string>>)
    requires start <= bytes.Keys && KnownNames(bytes, load)
    ensures ResidentAfter(start, layers, load, release) <= bytes.Keys
  {
    if layers != [] { ResidentIsKnown(bytes, start, layers[..|layers| - 1], load, release); }
  }

  /** Resident bytes before the first layer, and at each layer between its loads and its releases. */
  ghost function ResidentLevels(bytes: map<string, int>, start: Names, layers: seq<Label>,
                                load: map<Label, seq<string>>, release: map<Label, seq<string>>): seq<int>
    requires start <= bytes.Keys && KnownNames(bytes, load)
  {
    if layers == [] then [SumOf(bytes, start)]
    else
      var last := |layers| - 1;
      ResidentIsKnown(bytes, start, layers[..last], load, release);
      ResidentLevels(bytes, start, layers[..last], load, release) +
      [SumOf(bytes, ResidentAfter(start, layers[..last], load, release) + AsSet(Lookup(load, layers[last])))]
  }

  method LoadNames(bytes: map<string, int>, names: seq<string>, resident: Names,
                   current: int) returns (resident': Names, current': int)
    requires resident <= bytes.Keys && AsSet(names) <= bytes.Keys && current == SumOf(bytes, resident)
    ensures resident' == resident + AsSet(names) && resident' <= bytes.Keys && current' == SumOf(bytes, resident')
  {
    resident', current' := resident, current;
    for i := 0 to |names|
      invariant resident' == resident + AsSet(names[..i]) && resident' <= bytes.Keys && current' == SumOf(bytes, resident')
    {
      assert names[i] in AsSet(names);
      assert AsSet(names[..i + 1]) == AsSet(names[..i]) + {names[i]} by { assert names[..i + 1] == names[..i] + [names[i]]; }
      if names[i] !in resident' {
        SumWith(bytes, resident', names[i]);
        resident', current' := resident' + {names[i]}, current' + bytes[names[i]];
      }
    }
    assert names[..|names|] == names;
  }

  method ReleaseNames(bytes: map<string, int>, names: seq<string>, resident: Names,
                      current: int) returns (resident': Names, current': int)
    requires resident <= bytes.Keys && current == SumOf(bytes, resident)
    ensures resident' == resident - AsSet(names) && current' == SumOf(bytes, resident')
  {
    resident', current' := resident, current;
    for i := 0 to |names|
      invariant resident' == resident - AsSet(names[..i]) && current' == SumOf(bytes, resident')
    {
      assert AsSet(names[..i + 1]) == AsSet(names[..i]) + {names[i]} by { assert names[..i + 1] == names[..i] + [names[i]]; }
      if names[i] in resident' {
        SumWithout(bytes, resident', names[i]);
        resident', current' := resident' - {names[i]}, current' - bytes[names[i]];
      }
    }
    assert names[..|names|] == names;
  }

  method SumBytes(bytes: map<string, int>, names: Names) returns (total: int)
    requires names <= bytes.Keys
    ensures total == SumOf(bytes, names)
  {
    total := 0;
    var todo := names;
    while todo != {}
      invariant todo <= names && total + SumOf(bytes, todo) == SumOf(bytes, names)
      decreases |todo|
    {
      var name :| name in todo;
      SumWithout(bytes, todo, name);
      total, todo := total + bytes[name], todo - {name};
    }
  }

  /** The peak is reached, and at no layer is more resident. */
  method PeakResidentBytes(bytes: map<string, int>, start: Names, layers: seq<Label>,
                           load: map<Label, seq<string>>, release: map<Label, seq<string>>)
    returns (peak: int)
    requires start <= bytes.Keys && KnownNames(bytes, load) && forall name :: name in bytes ==> bytes[name] >= 0
    ensures IsPeak(peak, ResidentLevels(bytes, start, layers, load, release))
  {
    var resident, current := start, 0;
    current := SumBytes(bytes, start);
    SumNonNegative(bytes, start);
    peak := current;
    for i := 0 to |layers|
      invariant resident == ResidentAfter(start, layers[..i], load, release) && resident <= bytes.Keys
      invariant current == SumOf(bytes, resident) && IsPeak(peak, ResidentLevels(bytes, start, layers[..i], load, release))
    {
      assert layers[..i + 1][..i] == layers[..i];
      resident, current := LoadNames(bytes, Lookup(load, layers[i]), resident, current);
      PeakNext(peak, ResidentLevels(bytes, start, layers[..i], load, release), current);
      peak := MaxOf(peak, current);
      resident, current := ReleaseNames(bytes, Lookup(release, layers[i]), resident, current);
    }
    assert layers[..|layers|] == layers;
  }
}
