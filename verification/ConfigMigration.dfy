/** Where project policy is read from, and its migration to the canonical file. The directory holds
    a canonical file, two legacy spellings and a backup of each; parsing and validation of a file are
    parameters, digests are free constructors. */
module ConfigMigration {
  import opened Common
  import Yaml = SimpleYaml

  datatype Spelling = Yml | Yaml

  datatype Place = Canonical | Legacy(name: Spelling) | Backup(name: Spelling)

  type Files = map<Place, string>

  type Values = map<string, string>

  datatype Syntax = Syntax(parse: string -> Option<Values>, valid: Values -> bool)

  datatype Digest = OfBytes(raw: string) | OfValues(values: Values)

  datatype ConfigError =
    | Malformed(place: Place)
    | Conflict(places: seq<Place>, keys: set<string>)
    | BadSource
    | SelectSource
    | NotPresent(name: Spelling)
    | NothingToMigrate
    | BackupExists(name: Spelling)
    | Invalid(place: Place)
    | NotEquivalent(name: Spelling)

  // ----- agreement of two policies -----

  /** A Go map lookup: a missing key reads as the empty string. */
  function Lookup(m: Values, key: string): string {
    if key in m then m[key] else ""
  }

  function DifferingKeys(a: Values, b: Values): set<string> {
    (set key | key in a && Lookup(b, key) != a[key]) + (set key | key in b && Lookup(a, key) != b[key])
  }

  predicate Agree(a: Values, b: Values) {
    DifferingKeys(a, b) == {}
  }

  /** The entries that carry a value. */
  function Significant(m: Values): Values {
    map key | key in m && m[key] != "" :: m[key]
  }

  predicate NoEmpty(m: Values) {
    forall key :: key in m ==> m[key] != ""
  }

  /** Two policies agree exactly when they are the same up to keys with an empty value. */
  lemma AgreeIsSignificant(a: Values, b: Values)
    ensures Agree(a, b) <==> Significant(a) == Significant(b)
    ensures NoEmpty(a) && NoEmpty(b) ==> (Agree(a, b) <==> a == b)
  {
    if Agree(a, b) {
      forall key ensures Lookup(a, key) == Lookup(b, key) {
        assert key !in DifferingKeys(a, b);
      }
      forall key ensures key in Significant(a) <==> key in Significant(b) {
        assert Lookup(a, key) == Lookup(b, key);
      }
      assert forall key :: key in Significant(a) ==> Lookup(a, key) == Lookup(b, key);
    }
    if Significant(a) == Significant(b) {
      forall key ensures key !in DifferingKeys(a, b) {
        assert key in Significant(a) <==> key in Significant(b);
      }
    }
    assert NoEmpty(a) ==> Significant(a) == a;
    assert NoEmpty(b) ==> Significant(b) == b;
  }

  // ----- resolution -----

  const CANDIDATES: seq<Place> := [Canonical, Legacy(Yml), Legacy(Yaml)]

  datatype Resolution = Resolution(selected: Option<Place>, source: Option<Digest>, effective: Option<Digest>,
                                   duplicates: seq<Place>, deprecated: seq<Place>)

  function Among(fs: Files, places: seq<Place>): (r: seq<Place>)
    ensures forall p :: p in r <==> p in places && p in fs
    ensures |r| <= |places|
  {
    if places == [] then []
    else
      assert places == [places[0]] + places[1..];
      if places[0] in fs then [places[0]] + Among(fs, places[1..]) else Among(fs, places[1..])
  }

  function Present(fs: Files): seq<Place> {
    Among(fs, CANDIDATES)
  }

  predicate Parses(syntax: Syntax, fs: Files, place: Place) {
    place in fs && syntax.parse(fs[place]).Some?
  }

  function ValuesAt(syntax: Syntax, fs: Files, place: Place): Values
    requires Parses(syntax, fs, place)
  {
    syntax.parse(fs[place]).value
  }

  function FirstMalformed(syntax: Syntax, fs: Files, places: seq<Place>): (r: Option<Place>)
    ensures r.None? <==> forall p :: p in places && p in fs ==> Parses(syntax, fs, p)
    ensures r.Some? ==> r.value in places && r.value in fs && !Parses(syntax, fs, r.value)
  {
    if places == [] then None
    else
      assert places == [places[0]] + places[1..];
      if places[0] in fs && !Parses(syntax, fs, places[0]) then Some(places[0])
      else FirstMalformed(syntax, fs, places[1..])
  }

  /** What reading one more candidate adds. */
  lemma OneMore(syntax: Syntax, fs: Files, places: seq<Place>, i: nat)
    requires i < |places|
    ensures FirstMalformed(syntax, fs, places[i..]) ==
            if places[i] in fs && !Parses(syntax, fs, places[i]) then Some(places[i])
            else FirstMalformed(syntax, fs, places[i + 1..])
    ensures Among(fs, places[i..]) == (if places[i] in fs then [places[i]] else []) + Among(fs, places[i + 1..])
  {
  }

  /** The reading loop from candidate `i` on. */
  function ReadFrom(syntax: Syntax, fs: Files, places: seq<Place>, i: nat, sofar: seq<Place>): Result<seq<Place>, ConfigError>
    requires i <= |places|
    decreases |places| - i
  {
    if i == |places| then Ok(sofar)
    else if places[i] !in fs then ReadFrom(syntax, fs, places, i + 1, sofar)
    else if !Parses(syntax, fs, places[i]) then Err(Malformed(places[i]))
    else ReadFrom(syntax, fs, places, i + 1, sofar + [places[i]])
  }

  lemma {:induction false} ReadingIs(syntax: Syntax, fs: Files, places: seq<Place>, i: nat, sofar: seq<Place>)
    requires i <= |places|
    ensures ReadFrom(syntax, fs, places, i, sofar) ==
            if FirstMalformed(syntax, fs, places[i..]).Some?
            then Err(Malformed(FirstMalformed(syntax, fs, places[i..]).value))
            else Ok(sofar + Among(fs, places[i..]))
    decreases |places| - i
  {
    if i < |places| {
      OneMore(syntax, fs, places, i);
      if places[i] in fs {
        ReadingIs(syntax, fs, places, i + 1, sofar + [places[i]]);
        Regroup(sofar, places[i], Among(fs, places[i + 1..]));
      } else {
        ReadingIs(syntax, fs, places, i + 1, sofar);
        Regroup([], places[i], Among(fs, places[i + 1..]));
      }
    } else {
      assert sofar + [] == sofar;
    }
  }

  lemma Regroup(a: seq<Place>, x: Place, b: seq<Place>)
    ensures a + ([x] + b) == a + [x] + b && [] + b == b
  {
  }

  /** The keys at which some of the other sources disagrees with the selected one. */
  function Conflicts(syntax: Syntax, fs: Files, selected: Place, others: seq<Place>): (r: set<string>)
    requires Parses(syntax, fs, selected) && forall p :: p in others ==> Parses(syntax, fs, p)
    ensures r == {} <==>
            forall p :: p in others ==> Agree(ValuesAt(syntax, fs, selected), ValuesAt(syntax, fs, p))
  {
    if others == [] then {}
    else
      assert others == [others[0]] + others[1..];
      DifferingKeys(ValuesAt(syntax, fs, selected), ValuesAt(syntax, fs, others[0]))
      + Conflicts(syntax, fs, selected, others[1..])
  }

  predicate IsLegacy(place: Place) {
    place.Legacy?
  }

  function LegacyOnly(places: seq<Place>): seq<Place> {
    if places == [] then []
    else if IsLegacy(places[0]) then [places[0]] + LegacyOnly(places[1..])
    else LegacyOnly(places[1..])
  }

  function Resolve(syntax: Syntax, fs: Files): Result<Resolution, ConfigError> {
    var bad := FirstMalformed(syntax, fs, CANDIDATES);
    if bad.Some? then Err(Malformed(bad.value))
    else
      var sources := Present(fs);
      if sources == [] then Ok(Resolution(None, None, None, [], []))
      else
        var keys := Conflicts(syntax, fs, sources[0], sources[1..]);
        if keys != {} then Err(Conflict(sources, keys))
        else Ok(Resolution(Some(sources[0]), Some(OfBytes(fs[sources[0]])),
                           Some(OfValues(ValuesAt(syntax, fs, sources[0]))), sources[1..], LegacyOnly(sources)))
  }

  /** Every source present parses, and any two of them agree. */
  ghost predicate Consistent(syntax: Syntax, fs: Files) {
    && (forall p :: p in CANDIDATES && p in fs ==> Parses(syntax, fs, p))
    && (forall p, q :: p in CANDIDATES && q in CANDIDATES && Parses(syntax, fs, p) && Parses(syntax, fs, q) ==>
          Agree(ValuesAt(syntax, fs, p), ValuesAt(syntax, fs, q)))
  }

  /** What a resolution tells: the first file there is taken, the others are duplicates, and every legacy one
      is deprecated, all in the order of the candidates. */
  lemma ResolutionTells(syntax: Syntax, fs: Files)
    requires Resolve(syntax, fs).Ok?
    ensures var r := Resolve(syntax, fs).value;
            var yml := if Legacy(Yml) in fs then [Legacy(Yml)] else [];
            var yaml := if Legacy(Yaml) in fs then [Legacy(Yaml)] else [];
            var all := (if Canonical in fs then [Canonical] else []) + yml + yaml;
            && r.deprecated == yml + yaml
            && (if all == [] then r.selected.None? && r.source.None? && r.effective.None? && r.duplicates == []
                else
                  && r.selected == Some(all[0]) && r.duplicates == all[1..] && Parses(syntax, fs, all[0])
                  && r.source == Some(OfBytes(fs[all[0]])) && r.effective == Some(OfValues(ValuesAt(syntax, fs, all[0]))))
  {
    PresentIs(fs);
    var canonical := if Canonical in fs then [Canonical] else [];
    var yml := if Legacy(Yml) in fs then [Legacy(Yml)] else [];
    var yaml := if Legacy(Yaml) in fs then [Legacy(Yaml)] else [];
    LegacyAppend(canonical + yml, yaml);
    LegacyAppend(canonical, yml);
    LegacyOfOne(Canonical);
    LegacyOfOne(Legacy(Yml));
    LegacyOfOne(Legacy(Yaml));
  }

  lemma PresentIs(fs: Files)
    ensures Present(fs) == (if Canonical in fs then [Canonical] else [])
                           + (if Legacy(Yml) in fs then [Legacy(Yml)] else [])
                           + (if Legacy(Yaml) in fs then [Legacy(Yaml)] else [])
  {
    assert CANDIDATES[1..] == [Legacy(Yml), Legacy(Yaml)];
    assert CANDIDATES[1..][1..] == [Legacy(Yaml)];
    assert CANDIDATES[1..][1..][1..] == [];
    assert Among(fs, CANDIDATES[1..][1..]) == if Legacy(Yaml) in fs then [Legacy(Yaml)] else [];
    assert Among(fs, CANDIDATES[1..]) ==
           (if Legacy(Yml) in fs then [Legacy(Yml)] else []) + Among(fs, CANDIDATES[1..][1..]);
  }

  lemma {:induction false} LegacyAppend(a: seq<Place>, b: seq<Place>)
    ensures LegacyOnly(a + b) == LegacyOnly(a) + LegacyOnly(b)
  {
    if a == [] {
      assert a + b == b;
    } else {
      assert (a + b)[1..] == a[1..] + b;
      LegacyAppend(a[1..], b);
    }
  }

  lemma LegacyOfOne(place: Place)
    ensures LegacyOnly([place]) == (if place.Legacy? then [place] else []) && LegacyOnly([]) == []
  {
    assert [place][1..] == [];
  }

  /** What a refused resolution tells: the first file that does not parse, or else all the files there and
      every key at which one of them differs from the first. */
  lemma ConflictTells(syntax: Syntax, fs: Files, key: string)
    requires Resolve(syntax, fs).Err?
    ensures var e, all := Resolve(syntax, fs).error, Present(fs);
            if forall p :: p in all ==> Parses(syntax, fs, p) then
              && e.Conflict? && e.places == all && all != []
              && (key in e.keys <==>
                    exists p :: p in all[1..]
                                && Lookup(ValuesAt(syntax, fs, p), key) != Lookup(ValuesAt(syntax, fs, all[0]), key))
            else e.Malformed? && e.place in all && !Parses(syntax, fs, e.place)
  {
    PresentIs(fs);
    var all := Present(fs);
    if (forall p :: p in all ==> Parses(syntax, fs, p)) && all != [] {
      ConflictKeysAre(syntax, fs, all[0], all[1..], key);
    }
  }

  lemma {:induction false} ConflictKeysAre(syntax: Syntax, fs: Files, selected: Place, others: seq<Place>, key: string)
    requires Parses(syntax, fs, selected) && forall p :: p in others ==> Parses(syntax, fs, p)
    ensures key in Conflicts(syntax, fs, selected, others) <==>
            exists p :: p in others && Lookup(ValuesAt(syntax, fs, p), key) != Lookup(ValuesAt(syntax, fs, selected), key)
  {
    if others != [] {
      assert others == [others[0]] + others[1..];
      ConflictKeysAre(syntax, fs, selected, others[1..], key);
    }
  }

  lemma AgreeTransitive(a: Values, b: Values, c: Values)
    requires Agree(a, b) && (Agree(a, c) || Agree(c, a))
    ensures Agree(b, c) && Agree(c, b) && Agree(b, a)
  {
  }

  /** Comparing the first source with the others settles all pairs: resolution succeeds exactly when
      no two sources disagree, whichever file is looked at. */
  lemma ResolvesExactlyWhenConsistent(syntax: Syntax, fs: Files)
    ensures Resolve(syntax, fs).Ok? <==> Consistent(syntax, fs)
  {
    var sources := Present(fs);
    if Resolve(syntax, fs).Ok? && sources != [] {
      forall p, q | p in CANDIDATES && q in CANDIDATES && Parses(syntax, fs, p) && Parses(syntax, fs, q)
        ensures Agree(ValuesAt(syntax, fs, p), ValuesAt(syntax, fs, q))
      {
        SelectedAgrees(syntax, fs, p);
        SelectedAgrees(syntax, fs, q);
        var a := ValuesAt(syntax, fs, sources[0]);
        AgreeTransitive(a, ValuesAt(syntax, fs, p), ValuesAt(syntax, fs, q));
      }
    }
    if Consistent(syntax, fs) && sources != [] {
      forall p | p in sources ensures Parses(syntax, fs, p) && p in CANDIDATES {
      }
      assert sources[0] in sources;
      forall p | p in sources[1..] ensures Agree(ValuesAt(syntax, fs, sources[0]), ValuesAt(syntax, fs, p)) {
        assert p in sources;
      }
    }
  }

  lemma SelectedAgrees(syntax: Syntax, fs: Files, p: Place)
    requires Resolve(syntax, fs).Ok? && p in CANDIDATES && Parses(syntax, fs, p)
    ensures Present(fs) != [] && Parses(syntax, fs, Present(fs)[0])
    ensures Agree(ValuesAt(syntax, fs, Present(fs)[0]), ValuesAt(syntax, fs, p))
  {
  }

  // ----- the plan -----

  datatype Step = WriteCanonical | BackupLegacy

  datatype Plan = Plan(source: Spelling, sourceDigest: Digest, effective: Digest, steps: seq<Step>, completed: bool)

  function MigrationSource(requested: string): Result<Option<Spelling>, ConfigError> {
    if requested == "" then Ok(None)
    else if requested == "project.yml" then Ok(Some(Yml))
    else if requested == "project.yaml" then Ok(Some(Yaml))
    else Err(BadSource)
  }

  function Other(name: Spelling): Spelling {
    if name == Yml then Yaml else Yml
  }

  /** The legacy spelling to migrate; `Ok(None)` when it is not there any more. */
  function Choose(fs: Files, requested: string): Result<Option<Spelling>, ConfigError> {
    var source := MigrationSource(requested);
    if source.Err? then Err(source.error)
    else if Legacy(Yml) in fs && Legacy(Yaml) in fs && source.value == None then Err(SelectSource)
    else if source.value.Some? then Ok(if Legacy(source.value.value) in fs then source.value else None)
    else if Legacy(Yml) in fs then Ok(Some(Yml))
    else if Legacy(Yaml) in fs then Ok(Some(Yaml))
    else Ok(None)
  }

  function CompletedMigration(syntax: Syntax, fs: Files, name: Spelling): Result<Plan, ConfigError> {
    if Canonical !in fs || Backup(name) !in fs then Err(NotPresent(name))
    else if !Parses(syntax, fs, Canonical) then Err(Malformed(Canonical))
    else if !Parses(syntax, fs, Backup(name)) then Err(Malformed(Backup(name)))
    else
      var a, b := ValuesAt(syntax, fs, Canonical), ValuesAt(syntax, fs, Backup(name));
      if !Agree(a, b) then Err(Conflict([Canonical, Backup(name)], DifferingKeys(a, b)))
      else Ok(Plan(name, OfBytes(fs[Backup(name)]), OfValues(a), [], true))
  }

  function AlreadyDone(syntax: Syntax, fs: Files, requested: string): Result<Plan, ConfigError> {
    if requested == "project.yml" then CompletedMigration(syntax, fs, Yml)
    else if requested == "project.yaml" then CompletedMigration(syntax, fs, Yaml)
    else if CompletedMigration(syntax, fs, Yml).Ok? then CompletedMigration(syntax, fs, Yml)
    else if CompletedMigration(syntax, fs, Yaml).Ok? then CompletedMigration(syntax, fs, Yaml)
    else Err(NothingToMigrate)
  }

  /** What stands against migrating a source that is present. */
  function Obstacle(syntax: Syntax, fs: Files, name: Spelling): Option<ConfigError>
    requires Legacy(name) in fs
  {
    var source, other := Legacy(name), Legacy(Other(name));
    if !Parses(syntax, fs, source) then Some(Malformed(source))
    else if other in fs && !Parses(syntax, fs, other) then Some(Malformed(other))
    else
      var values := ValuesAt(syntax, fs, source);
      if other in fs && !Agree(values, ValuesAt(syntax, fs, other))
      then Some(Conflict([source, other], DifferingKeys(values, ValuesAt(syntax, fs, other))))
      else if !syntax.valid(values) then Some(Invalid(source))
      else if Backup(name) in fs then Some(BackupExists(name))
      else if Canonical !in fs then None
      else if !Parses(syntax, fs, Canonical) then Some(Malformed(Canonical))
      else if !Agree(values, ValuesAt(syntax, fs, Canonical))
      then Some(Conflict([source, Canonical], DifferingKeys(values, ValuesAt(syntax, fs, Canonical))))
      else if !syntax.valid(ValuesAt(syntax, fs, Canonical)) then Some(Invalid(Canonical))
      else None
  }

  function PlanConfigMigration(syntax: Syntax, fs: Files, requested: string): Result<Plan, ConfigError> {
    var chosen := Choose(fs, requested);
    if chosen.Err? then Err(chosen.error)
    else if chosen.value.None? then AlreadyDone(syntax, fs, requested)
    else
      var name := chosen.value.value;
      var obstacle := Obstacle(syntax, fs, name);
      if obstacle.Some? then Err(obstacle.value)
      else Ok(Plan(name, OfBytes(fs[Legacy(name)]), OfValues(ValuesAt(syntax, fs, Legacy(name))),
                   (if Canonical in fs then [] else [WriteCanonical]) + [BackupLegacy], false))
  }

  // ----- the migration -----

  function WithCanonical(fs: Files, name: Spelling): Files
    requires Legacy(name) in fs
  {
    if Canonical in fs then fs else fs[Canonical := fs[Legacy(name)]]
  }

  function Renamed(fs: Files, name: Spelling): Files
    requires Legacy(name) in fs
  {
    fs[Backup(name) := fs[Legacy(name)]] - {Legacy(name)}
  }

  /** Every state the directory passes through, first to last, and what the caller is told. */
  function Migration(syntax: Syntax, fs: Files, requested: string): (seq<Files>, Result<Plan, ConfigError>) {
    var plan := PlanConfigMigration(syntax, fs, requested);
    if plan.Err? || plan.value.completed then ([fs], plan)
    else
      var name := plan.value.source;
      var written := WithCanonical(fs, name);
      var before := if Canonical in fs then [fs] else [fs, written];
      if OfValues(ValuesAt(syntax, written, Canonical)) != plan.value.effective
      then (before, Err(NotEquivalent(name)))
      else (before + [Renamed(written, name)], Ok(plan.value.(completed := true)))
  }

  /** The directory a migration works on, with every state it has been in. */
  class ConfigDir {
    const syntax: Syntax
    var files: Files
    ghost var trace: seq<Files>

    constructor (syntax: Syntax, files: Files)
      ensures this.syntax == syntax && this.files == files && trace == [files]
    {
      this.syntax, this.files, trace := syntax, files, [files];
    }

    method Install(place: Place, raw: string)
      modifies this
      ensures files == old(files)[place := raw] && trace == old(trace) + [files]
    {
      files := files[place := raw];
      trace := trace + [files];
    }

    method Rename(from: Place, to: Place)
      requires from in files && from != to
      modifies this
      ensures files == old(files)[to := old(files)[from]] - {from} && trace == old(trace) + [files]
    {
      files := files[to := files[from]] - {from};
      trace := trace + [files];
    }

    /** Reads every candidate present, in order; the first that does not parse ends the reading. */
    method ReadSources(candidates: seq<Place>) returns (r: Result<seq<Place>, ConfigError>)
      ensures FirstMalformed(syntax, files, candidates).Some? ==>
                r == Err(Malformed(FirstMalformed(syntax, files, candidates).value))
      ensures FirstMalformed(syntax, files, candidates).None? ==> r == Ok(Among(files, candidates))
    {
      ReadingIs(syntax, files, candidates, 0, []);
      assert candidates[0..] == candidates && [] + Among(files, candidates) == Among(files, candidates);
      var sources: seq<Place> := [];
      for i := 0 to |candidates|
        invariant ReadFrom(syntax, files, candidates, 0, []) == ReadFrom(syntax, files, candidates, i, sources)
      {
        var place := candidates[i];
        if place in files {
          if syntax.parse(files[place]).None? {
            return Err(Malformed(place));
          }
          sources := sources + [place];
        }
      }
      return Ok(sources);
    }

    /** The keys at which the selected source disagrees with another. */
    method ConflictKeys(sources: seq<Place>) returns (keys: set<string>)
      requires sources != [] && forall p :: p in sources ==> Parses(syntax, files, p)
      ensures keys == Conflicts(syntax, files, sources[0], sources[1..])
    {
      var selected := ValuesAt(syntax, files, sources[0]);
      keys := {};
      for i := 1 to |sources|
        invariant keys + Conflicts(syntax, files, sources[0], sources[i..])
               == Conflicts(syntax, files, sources[0], sources[1..])
      {
        assert sources[i..][1..] == sources[i + 1..];
        keys := keys + DifferingKeys(selected, ValuesAt(syntax, files, sources[i]));
      }
    }

    method Deprecated(sources: seq<Place>) returns (r: seq<Place>)
      ensures r == LegacyOnly(sources)
    {
      r := [];
      for i := 0 to |sources|
        invariant r + LegacyOnly(sources[i..]) == LegacyOnly(sources)
      {
        assert sources[i..][1..] == sources[i + 1..];
        if sources[i].Legacy? {
          r := r + [sources[i]];
        }
      }
    }

    method ResolveConfigSource() returns (r: Result<Resolution, ConfigError>)
      ensures r == Resolve(syntax, files)
    {
      var read := ReadSources(CANDIDATES);
      if read.Err? {
        return Err(read.error);
      }
      var sources := read.value;
      if sources == [] {
        return Ok(Resolution(None, None, None, [], []));
      }
      var keys := ConflictKeys(sources);
      if keys != {} {
        return Err(Conflict(sources, keys));
      }
      var deprecated := Deprecated(sources);
      return Ok(Resolution(Some(sources[0]), Some(OfBytes(files[sources[0]])),
                           Some(OfValues(ValuesAt(syntax, files, sources[0]))), sources[1..], deprecated));
    }

    method MigrateConfig(requested: string) returns (r: Result<Plan, ConfigError>)
      modifies this
      ensures trace == old(trace) + Migration(syntax, old(files), requested).0[1..]
      ensures files == Last(Migration(syntax, old(files), requested).0)
      ensures r == Migration(syntax, old(files), requested).1
    {
      var plan := PlanConfigMigration(syntax, files, requested);
      if plan.Err? || plan.value.completed {
        return plan;
      }
      var name := plan.value.source;
      var raw := files[Legacy(name)];
      if Canonical !in files {
        Install(Canonical, raw);
      }
      var target := syntax.parse(files[Canonical]);
      if target.None? {
        return Err(Malformed(Canonical));
      }
      if OfValues(target.value) != plan.value.effective {
        return Err(NotEquivalent(name));
      }
      Rename(Legacy(name), Backup(name));
      return Ok(plan.value.(completed := true));
    }
  }

  function Last(states: seq<Files>): Files
    requires states != []
  {
    states[|states| - 1]
  }

  // ----- what a migration keeps -----

  /** The state after the canonical file has been written resolves to the source's own policy. */
  lemma ObstacleFree(syntax: Syntax, fs: Files, name: Spelling)
    requires Legacy(name) in fs && Obstacle(syntax, fs, name) == None
    ensures Consistent(syntax, fs) && Consistent(syntax, WithCanonical(fs, name))
    ensures Consistent(syntax, Renamed(WithCanonical(fs, name), name))
  {
    var written := WithCanonical(fs, name);
    var source := ValuesAt(syntax, fs, Legacy(name));
    AgreeIsSignificant(source, source);
    forall p | p in CANDIDATES && p in written
      ensures Parses(syntax, written, p) && Agree(source, ValuesAt(syntax, written, p))
    {
      assert p == Canonical || p == Legacy(name) || p == Legacy(Other(name));
    }
    forall p, q | p in CANDIDATES && q in CANDIDATES && Parses(syntax, written, p) && Parses(syntax, written, q)
      ensures Agree(ValuesAt(syntax, written, p), ValuesAt(syntax, written, q))
    {
      AgreeTransitive(source, ValuesAt(syntax, written, p), ValuesAt(syntax, written, q));
    }
    Fewer(syntax, written, fs);
    Fewer(syntax, written, Renamed(written, name));
  }

  /** Removing sources keeps the rest consistent. */
  lemma Fewer(syntax: Syntax, fs: Files, less: Files)
    requires Consistent(syntax, fs)
    requires forall p :: p in CANDIDATES && p in less ==> p in fs && fs[p] == less[p]
    ensures Consistent(syntax, less)
  {
    forall p, q | p in CANDIDATES && q in CANDIDATES && Parses(syntax, less, p) && Parses(syntax, less, q)
      ensures Agree(ValuesAt(syntax, less, p), ValuesAt(syntax, less, q))
    {
      assert Parses(syntax, fs, p) && Parses(syntax, fs, q);
    }
  }

  /** The directory states of a migration. */
  function States(syntax: Syntax, fs: Files, requested: string): (r: seq<Files>)
    ensures r != [] && r[0] == fs
  {
    Migration(syntax, fs, requested).0
  }

  /** Once a migration has written anything, a crash after any step leaves a directory that resolves,
      and the directory it started from resolved too. */
  lemma EveryStepResolves(syntax: Syntax, fs: Files, requested: string, k: nat)
    requires 1 < |States(syntax, fs, requested)| && k < |States(syntax, fs, requested)|
    ensures Resolve(syntax, States(syntax, fs, requested)[k]).Ok?
  {
    ObstacleFree(syntax, fs, PlanConfigMigration(syntax, fs, requested).value.source);
    ResolvesExactlyWhenConsistent(syntax, States(syntax, fs, requested)[k]);
  }

  /** The digest of the policy in force. */
  function InForce(syntax: Syntax, fs: Files): Option<Digest> {
    var r := Resolve(syntax, fs);
    if r.Ok? then r.value.effective else None
  }

  ghost predicate DigestKept(syntax: Syntax, fs: Files, requested: string) {
    forall k :: 0 <= k < |States(syntax, fs, requested)| ==>
      InForce(syntax, States(syntax, fs, requested)[k]) == InForce(syntax, fs)
  }

  lemma InForceIs(syntax: Syntax, fs: Files, place: Place)
    requires Consistent(syntax, fs) && place in fs && place in CANDIDATES
    requires place == Canonical || (Canonical !in fs && (place == Legacy(Yml) || Legacy(Yml) !in fs))
    ensures InForce(syntax, fs) == Some(OfValues(ValuesAt(syntax, fs, place)))
  {
    ResolvesExactlyWhenConsistent(syntax, fs);
    assert CANDIDATES[1..] == [Legacy(Yml), Legacy(Yaml)];
    assert CANDIDATES[1..][1..] == [Legacy(Yaml)];
    if place != Canonical {
      assert Present(fs) == Among(fs, CANDIDATES[1..]);
      assert place == Legacy(Yaml) ==> Present(fs) == Among(fs, CANDIDATES[1..][1..]);
    }
    assert Present(fs)[0] == place;
  }

  /** The policy digest is the same at every step exactly when a canonical file was there already, or
      the plan's digest is the one in force: both known before anything is written. */
  lemma DigestKeptExactlyWhen(syntax: Syntax, fs: Files, requested: string)
    requires PlanConfigMigration(syntax, fs, requested).Ok?
    requires !PlanConfigMigration(syntax, fs, requested).value.completed
    ensures DigestKept(syntax, fs, requested) <==>
            Canonical in fs || InForce(syntax, fs) == Some(PlanConfigMigration(syntax, fs, requested).value.effective)
  {
    var plan := PlanConfigMigration(syntax, fs, requested).value;
    var states := States(syntax, fs, requested);
    var written := WithCanonical(fs, plan.source);
    AfterFirstWrite(syntax, fs, plan.source);
    forall k | 0 < k < |states| ensures InForce(syntax, states[k]) == InForce(syntax, written) {
      LaterStates(syntax, fs, requested, k);
    }
    if Canonical !in fs {
      LaterStates(syntax, fs, requested, 1);
    }
  }

  lemma LaterStates(syntax: Syntax, fs: Files, requested: string, k: nat)
    requires PlanConfigMigration(syntax, fs, requested).Ok?
    requires !PlanConfigMigration(syntax, fs, requested).value.completed
    requires 0 < k && (k < |States(syntax, fs, requested)| || (k == 1 && Canonical !in fs))
    ensures var name := PlanConfigMigration(syntax, fs, requested).value.source;
            && k < |States(syntax, fs, requested)|
            && (States(syntax, fs, requested)[k] == WithCanonical(fs, name)
                || States(syntax, fs, requested)[k] == Renamed(WithCanonical(fs, name), name))
            && (k == 1 && Canonical !in fs ==> States(syntax, fs, requested)[k] == WithCanonical(fs, name))
  {
  }

  /** From the first write on the canonical file is the policy in force. */
  lemma AfterFirstWrite(syntax: Syntax, fs: Files, name: Spelling)
    requires Legacy(name) in fs && Obstacle(syntax, fs, name) == None
    ensures var written := WithCanonical(fs, name);
            && Parses(syntax, written, Canonical)
            && InForce(syntax, written) == Some(OfValues(ValuesAt(syntax, written, Canonical)))
            && InForce(syntax, Renamed(written, name)) == InForce(syntax, written)
  {
    var written := WithCanonical(fs, name);
    ObstacleFree(syntax, fs, name);
    InForceIs(syntax, written, Canonical);
    InForceIs(syntax, Renamed(written, name), Canonical);
  }

  /** The policy in force never changes by more than empty values, at any step. */
  lemma PolicyKept(syntax: Syntax, fs: Files, requested: string, k: nat)
    requires 1 < |States(syntax, fs, requested)| && k < |States(syntax, fs, requested)|
    ensures var before, now := InForce(syntax, fs), InForce(syntax, States(syntax, fs, requested)[k]);
            && before.Some? && now.Some? && before.value.OfValues? && now.value.OfValues?
            && Significant(before.value.values) == Significant(now.value.values)
  {
    PolicyKeptThrough(syntax, fs, PlanConfigMigration(syntax, fs, requested).value.source);
    if k > 0 {
      LaterStates(syntax, fs, requested, k);
    }
  }

  lemma PolicyKeptThrough(syntax: Syntax, fs: Files, name: Spelling)
    requires Legacy(name) in fs && Obstacle(syntax, fs, name) == None
    ensures var written := WithCanonical(fs, name);
            var before, after, last := InForce(syntax, fs), InForce(syntax, written), InForce(syntax, Renamed(written, name));
            && before.Some? && after.Some? && last == after && before.value.OfValues? && after.value.OfValues?
            && Significant(before.value.values) == Significant(after.value.values)
  {
    ObstacleFree(syntax, fs, name);
    AfterFirstWrite(syntax, fs, name);
    InForceAgrees(syntax, fs, Legacy(name));
    InForceAgrees(syntax, WithCanonical(fs, name), Legacy(name));
  }

  lemma InForceAgrees(syntax: Syntax, fs: Files, place: Place)
    requires Consistent(syntax, fs) && place in fs && place in CANDIDATES
    ensures InForce(syntax, fs).Some? && InForce(syntax, fs).value.OfValues?
    ensures Significant(InForce(syntax, fs).value.values) == Significant(ValuesAt(syntax, fs, place))
  {
    var first := if Canonical in fs then Canonical else if Legacy(Yml) in fs then Legacy(Yml) else Legacy(Yaml);
    InForceIs(syntax, fs, first);
    AgreeIsSignificant(ValuesAt(syntax, fs, first), ValuesAt(syntax, fs, place));
  }

  /** Without empty values the digest never changes, and a plan that is made is carried out. */
  lemma FullValuesMigrate(syntax: Syntax, fs: Files, requested: string)
    requires PlanConfigMigration(syntax, fs, requested).Ok?
    requires forall p :: p in CANDIDATES && Parses(syntax, fs, p) ==> NoEmpty(ValuesAt(syntax, fs, p))
    ensures Migration(syntax, fs, requested).1.Ok? && Migration(syntax, fs, requested).1.value.completed
    ensures DigestKept(syntax, fs, requested)
  {
    var plan := PlanConfigMigration(syntax, fs, requested).value;
    if !plan.completed {
      var source := ValuesAt(syntax, fs, Legacy(plan.source));
      ObstacleFree(syntax, fs, plan.source);
      if Canonical in fs {
        AgreeIsSignificant(source, ValuesAt(syntax, fs, Canonical));
      } else {
        var first := if Legacy(Yml) in fs then Legacy(Yml) else Legacy(Yaml);
        InForceIs(syntax, fs, first);
        AgreeIsSignificant(source, ValuesAt(syntax, fs, first));
      }
      DigestKeptExactlyWhen(syntax, fs, requested);
    }
  }

  /** No file is ever overwritten: at every step each file is where it was with its bytes, or is the
      migrated source and its bytes are in the backup. */
  lemma NothingIsLost(syntax: Syntax, fs: Files, requested: string, k: nat, place: Place)
    requires k < |States(syntax, fs, requested)| && place in fs
    ensures var now := States(syntax, fs, requested)[k];
            || (place in now && now[place] == fs[place])
            || (place.Legacy? && Backup(place.name) in now && now[Backup(place.name)] == fs[place])
  {
  }

  /** A migration is refused exactly by its plan, or because the canonical file differs from the
      source in empty values only; a refusal writes nothing. */
  lemma RefusedExactlyWhen(syntax: Syntax, fs: Files, requested: string)
    ensures var plan := PlanConfigMigration(syntax, fs, requested);
            Migration(syntax, fs, requested).1.Err? <==>
            || plan.Err?
            || (!plan.value.completed && Parses(syntax, fs, Canonical) && Parses(syntax, fs, Legacy(plan.value.source))
                && ValuesAt(syntax, fs, Canonical) != ValuesAt(syntax, fs, Legacy(plan.value.source)))
    ensures Migration(syntax, fs, requested).1.Err? ==> States(syntax, fs, requested) == [fs]
  {
  }

  // ----- when a migration is carried out -----

  function FileName(name: Spelling): string {
    if name == Yml then "project.yml" else "project.yaml"
  }

  /** The source is named and there, or nothing is named and it is the only one. */
  predicate Selects(fs: Files, requested: string, name: Spelling) {
    Legacy(name) in fs && (requested == FileName(name) || (requested == "" && Legacy(Other(name)) !in fs))
  }

  /** Every file policy could be read from can be read, and says what the source says, a canonical file down
      to the empty values; the source and the canonical file are valid policies; the place of the backup is
      free. */
  predicate Movable(syntax: Syntax, fs: Files, name: Spelling)
    requires Legacy(name) in fs
  {
    && (forall p :: p in CANDIDATES && p in fs ==> Parses(syntax, fs, p))
    && Parses(syntax, fs, Legacy(name)) && Backup(name) !in fs &&
    var policy := ValuesAt(syntax, fs, Legacy(name));
    && syntax.valid(policy)
    && (forall p :: p in CANDIDATES && p in fs ==> Significant(ValuesAt(syntax, fs, p)) == Significant(policy))
    && (Canonical in fs ==> ValuesAt(syntax, fs, Canonical) == policy)
  }

  /** The source moved aside, its bytes canonical unless a canonical file was there. */
  function MovedAside(fs: Files, name: Spelling): Files
    requires Legacy(name) in fs
  {
    map p | p in fs.Keys - {Legacy(name)} + {Canonical, Backup(name)} ::
      if p == Backup(name) || (p == Canonical && Canonical !in fs) then fs[Legacy(name)] else fs[p]
  }

  /** Main result: a migration moves a source aside if and only if it is selected and movable, and this is
      what the directory is at each step and what the caller is told. */
  lemma CarriedOutExactlyWhen(syntax: Syntax, fs: Files, requested: string, name: Spelling)
    ensures var (states, r) := Migration(syntax, fs, requested);
            r.Ok? && 1 < |states| && r.value.source == name <==> Selects(fs, requested, name) && Movable(syntax, fs, name)
    ensures Selects(fs, requested, name) && Movable(syntax, fs, name) ==>
              var (states, r) := Migration(syntax, fs, requested);
              var raw, last := fs[Legacy(name)], MovedAside(fs, name);
              && states == (if Canonical in fs then [fs, last] else [fs, fs[Canonical := raw], last])
              && r.value == Plan(name, OfBytes(raw), OfValues(ValuesAt(syntax, fs, Legacy(name))),
                                 if Canonical in fs then [BackupLegacy] else [WriteCanonical, BackupLegacy], true)
  {
    ChosenExactlyWhen(fs, requested, name);
    if Selects(fs, requested, name) {
      FreeExactlyWhen(syntax, fs, name);
      if Obstacle(syntax, fs, name).None? {
        assert Renamed(WithCanonical(fs, name), name) == MovedAside(fs, name);
      }
    }
  }

  lemma ChosenExactlyWhen(fs: Files, requested: string, name: Spelling)
    ensures Choose(fs, requested) == Ok(Some(name)) <==> Selects(fs, requested, name)
  {
  }

  /** Nothing stands against a source exactly when it is movable, a canonical file that differs in empty
      values aside. */
  lemma FreeExactlyWhen(syntax: Syntax, fs: Files, name: Spelling)
    requires Legacy(name) in fs
    ensures Movable(syntax, fs, name) <==>
            && Obstacle(syntax, fs, name).None?
            && (Canonical in fs ==> ValuesAt(syntax, fs, Canonical) == ValuesAt(syntax, fs, Legacy(name)))
  {
    if Parses(syntax, fs, Legacy(name)) {
      var policy := ValuesAt(syntax, fs, Legacy(name));
      if Parses(syntax, fs, Canonical) {
        AgreeIsSignificant(policy, ValuesAt(syntax, fs, Canonical));
      }
      if Parses(syntax, fs, Legacy(Other(name))) {
        AgreeIsSignificant(policy, ValuesAt(syntax, fs, Legacy(Other(name))));
      }
    }
    assert forall p :: p in CANDIDATES <==> p == Canonical || p == Legacy(name) || p == Legacy(Other(name));
  }

  /** The other way to succeed: the source is gone, and its backup says what the canonical file says. */
  predicate Finished(syntax: Syntax, fs: Files, requested: string, name: Spelling) {
    && Legacy(name) !in fs
    && (requested == FileName(name) || (requested == "" && Legacy(Other(name)) !in fs))
    && Parses(syntax, fs, Canonical) && Parses(syntax, fs, Backup(name))
    && Significant(ValuesAt(syntax, fs, Canonical)) == Significant(ValuesAt(syntax, fs, Backup(name)))
  }

  /** A migration reports completion without touching the directory exactly then. */
  lemma DoneExactlyWhen(syntax: Syntax, fs: Files, requested: string)
    ensures var (states, r) := Migration(syntax, fs, requested);
            var done := Finished(syntax, fs, requested, Yml) || Finished(syntax, fs, requested, Yaml);
            && (r.Ok? && |states| == 1 <==> done)
            && (done ==>
                  var name := if Finished(syntax, fs, requested, Yml) then Yml else Yaml;
                  r.value == Plan(name, OfBytes(fs[Backup(name)]), OfValues(ValuesAt(syntax, fs, Canonical)), [], true))
  {
    CompletedExactlyWhen(syntax, fs, Yml);
    CompletedExactlyWhen(syntax, fs, Yaml);
  }

  lemma CompletedExactlyWhen(syntax: Syntax, fs: Files, name: Spelling)
    ensures CompletedMigration(syntax, fs, name).Ok? <==>
            && Parses(syntax, fs, Canonical) && Parses(syntax, fs, Backup(name))
            && Significant(ValuesAt(syntax, fs, Canonical)) == Significant(ValuesAt(syntax, fs, Backup(name)))
  {
    if Parses(syntax, fs, Canonical) && Parses(syntax, fs, Backup(name)) {
      AgreeIsSignificant(ValuesAt(syntax, fs, Canonical), ValuesAt(syntax, fs, Backup(name)));
    }
  }

  /** What is told when no source is selected and nothing is done already. */
  lemma UnselectedTells(syntax: Syntax, fs: Files, requested: string)
    requires forall name :: !Selects(fs, requested, name) && !Finished(syntax, fs, requested, name)
    ensures var r := Migration(syntax, fs, requested).1;
            if requested == "" then r == Err(if Legacy(Yml) in fs then SelectSource else NothingToMigrate)
            else if forall name :: requested != FileName(name) then r == Err(BadSource)
            else
              var name := if requested == FileName(Yml) then Yml else Yaml;
              if Canonical !in fs || Backup(name) !in fs then r == Err(NotPresent(name))
              else if !Parses(syntax, fs, Canonical) then r == Err(Malformed(Canonical))
              else if !Parses(syntax, fs, Backup(name)) then r == Err(Malformed(Backup(name)))
              else r.Err? && r.error.Conflict? && r.error.places == [Canonical, Backup(name)]
  {
    assert !Selects(fs, requested, Yml) && !Selects(fs, requested, Yaml);
    assert !Finished(syntax, fs, requested, Yml) && !Finished(syntax, fs, requested, Yaml);
    assert requested != FileName(Yml) && requested != FileName(Yaml) <==> forall name :: requested != FileName(name);
    CompletedExactlyWhen(syntax, fs, Yml);
    CompletedExactlyWhen(syntax, fs, Yaml);
  }

  /** Whenever a migration has changed the directory, the policy it installed is valid. */
  lemma InstalledIsValid(syntax: Syntax, fs: Files, requested: string, k: nat)
    requires 0 < k < |States(syntax, fs, requested)|
    ensures var now := States(syntax, fs, requested)[k];
            Parses(syntax, now, Canonical) && syntax.valid(ValuesAt(syntax, now, Canonical))
  {
    LaterStates(syntax, fs, requested, k);
  }

  /** What is told of a selected source that stays, in the order it is found out. */
  lemma ObstaclesComeInOrder(syntax: Syntax, fs: Files, requested: string, name: Spelling)
    requires Selects(fs, requested, name)
    ensures var r := Migration(syntax, fs, requested).1;
            var source, other := Legacy(name), Legacy(Other(name));
            var clear := Parses(syntax, fs, source) && (other in fs ==> Parses(syntax, fs, other));
            var single := clear && (other in fs ==> SamePolicy(syntax, fs, source, other));
            var proper := single && syntax.valid(ValuesAt(syntax, fs, source));
            var spare := proper && Backup(name) !in fs;
            var legible := spare && (Canonical in fs ==> Parses(syntax, fs, Canonical));
            var agreed := legible && (Canonical in fs ==> SamePolicy(syntax, fs, source, Canonical));
            var sound := agreed && (Canonical in fs ==> syntax.valid(ValuesAt(syntax, fs, Canonical)));
            && (!Parses(syntax, fs, source) ==> r == Err(Malformed(source)))
            && (Parses(syntax, fs, source) && !clear ==> r == Err(Malformed(other)))
            && (clear && !single ==> r.Err? && r.error.Conflict? && r.error.places == [source, other])
            && (single && !proper ==> r == Err(Invalid(source)))
            && (proper && !spare ==> r == Err(BackupExists(name)))
            && (spare && !legible ==> r == Err(Malformed(Canonical)))
            && (legible && !agreed ==> r.Err? && r.error.Conflict? && r.error.places == [source, Canonical])
            && (agreed && !sound ==> r == Err(Invalid(Canonical)))
            && (sound ==> r.Ok? || r == Err(NotEquivalent(name)))
  {
    if Parses(syntax, fs, Legacy(name)) {
      if Parses(syntax, fs, Canonical) {
        AgreeIsSignificant(ValuesAt(syntax, fs, Legacy(name)), ValuesAt(syntax, fs, Canonical));
      }
      if Parses(syntax, fs, Legacy(Other(name))) {
        AgreeIsSignificant(ValuesAt(syntax, fs, Legacy(name)), ValuesAt(syntax, fs, Legacy(Other(name))));
      }
    }
  }

  predicate SamePolicy(syntax: Syntax, fs: Files, a: Place, b: Place) {
    && Parses(syntax, fs, a) && Parses(syntax, fs, b)
    && Significant(ValuesAt(syntax, fs, a)) == Significant(ValuesAt(syntax, fs, b))
  }

  /** A crash anywhere followed by the same command ends where the uninterrupted run ends, reporting
      completion; and once there the command changes nothing. */
  lemma RerunConverges(syntax: Syntax, fs: Files, requested: string, k: nat)
    requires Migration(syntax, fs, requested).1.Ok? && k < |States(syntax, fs, requested)|
    ensures var again := Migration(syntax, States(syntax, fs, requested)[k], requested);
            again.1.Ok? && again.1.value.completed && Last(again.0) == Last(States(syntax, fs, requested))
    ensures States(syntax, Last(States(syntax, fs, requested)), requested) == [Last(States(syntax, fs, requested))]
  {
    var states := States(syntax, fs, requested);
    if |states| > 1 {
      var name := PlanConfigMigration(syntax, fs, requested).value.source;
      var written := WithCanonical(fs, name);
      FinalIsCompleted(syntax, fs, requested);
      if Canonical !in fs && k == 1 {
        WrittenMigrates(syntax, fs, requested);
      }
    }
  }

  lemma FinalIsCompleted(syntax: Syntax, fs: Files, requested: string)
    requires 1 < |States(syntax, fs, requested)|
    ensures var final := Last(States(syntax, fs, requested));
            PlanConfigMigration(syntax, final, requested).Ok? && PlanConfigMigration(syntax, final, requested).value.completed
  {
    var name := PlanConfigMigration(syntax, fs, requested).value.source;
    var values := ValuesAt(syntax, fs, Legacy(name));
    AgreeIsSignificant(values, values);
  }

  lemma WrittenMigrates(syntax: Syntax, fs: Files, requested: string)
    requires 1 < |States(syntax, fs, requested)| && Canonical !in fs
    ensures var written := States(syntax, fs, requested)[1];
            Migration(syntax, written, requested).1.Ok?
            && Migration(syntax, written, requested).1.value.completed
            && Last(States(syntax, written, requested)) == Last(States(syntax, fs, requested))
  {
    var name := PlanConfigMigration(syntax, fs, requested).value.source;
    var values := ValuesAt(syntax, fs, Legacy(name));
    AgreeIsSignificant(values, values);
    var written := States(syntax, fs, requested)[1];
    assert Choose(written, requested) == Choose(fs, requested);
    assert Obstacle(syntax, written, name) == None;
  }

  lemma MovesDigest(syntax: Syntax, fs: Files, a: Values, b: Values)
    requires fs.Keys == {Legacy(Yml), Legacy(Yaml)} && Agree(b, a) && a != b
    requires syntax.parse(fs[Legacy(Yml)]) == Some(a) && syntax.parse(fs[Legacy(Yaml)]) == Some(b) && syntax.valid(b)
    ensures Migration(syntax, fs, "project.yaml").1.Ok? && !DigestKept(syntax, fs, "project.yaml")
  {
    assert Obstacle(syntax, fs, Yaml) == None;
    ObstacleFree(syntax, fs, Yaml);
    InForceIs(syntax, fs, Legacy(Yml));
    DigestKeptExactlyWhen(syntax, fs, "project.yaml");
  }

  // ----- texts as the reader takes them -----

  /** The code's own reader, with any validation. */
  function YamlSyntax(valid: Values -> bool): Syntax {
    Syntax(raw => var r := Yaml.Parsed(raw); if r.Ok? then Some(r.value) else None, valid)
  }

  /** As long as no text gives a key two quotes with nothing between them, a plan that is made is carried
      out and the digest never changes. */
  lemma UnlessNothingIsQuoted(valid: Values -> bool, fs: Files, requested: string)
    requires PlanConfigMigration(YamlSyntax(valid), fs, requested).Ok?
    requires forall p :: p in CANDIDATES && p in fs ==> !Yaml.QuotesNothing(fs[p])
    ensures Migration(YamlSyntax(valid), fs, requested).1.Ok? && DigestKept(YamlSyntax(valid), fs, requested)
  {
    var syntax := YamlSyntax(valid);
    forall p | p in CANDIDATES && Parses(syntax, fs, p) ensures NoEmpty(ValuesAt(syntax, fs, p)) {
      Yaml.EmptyValueExactlyWhen(fs[p]);
    }
    FullValuesMigrate(syntax, fs, requested);
  }

  /** One such line is enough: the plan promises an equivalent policy, and the migration refuses it every
      time. */
  lemma EmptyValueBlocksMigration(valid: Values -> bool, key: string) returns (fs: Files)
    requires Yaml.PlainKey(key) && valid(map[key := ""]) && valid(map[])
    ensures fs == map[Legacy(Yml) := Yaml.QuotedNothing(key), Canonical := ""]
    ensures PlanConfigMigration(YamlSyntax(valid), fs, "").Ok?
    ensures Migration(YamlSyntax(valid), fs, "") == ([fs], Err(NotEquivalent(Yml)))
  {
    var syntax := YamlSyntax(valid);
    fs := map[Legacy(Yml) := Yaml.QuotedNothing(key), Canonical := ""];
    Yaml.QuotedNothingIsEmpty(key);
    Yaml.NothingIsRead();
    var quoted, nothing := ValuesAt(syntax, fs, Legacy(Yml)), ValuesAt(syntax, fs, Canonical);
    assert key in quoted && key !in nothing;
    AgreeIsSignificant(quoted, nothing);
    assert Significant(quoted) == map[];
  }

  /** And enough to move the digest: the second spelling is migrated while the first was in force. */
  lemma EmptyValueMovesDigest(valid: Values -> bool, key: string) returns (fs: Files)
    requires Yaml.PlainKey(key) && valid(map[])
    ensures fs == map[Legacy(Yml) := Yaml.QuotedNothing(key), Legacy(Yaml) := ""]
    ensures Migration(YamlSyntax(valid), fs, "project.yaml").1.Ok?
    ensures !DigestKept(YamlSyntax(valid), fs, "project.yaml")
  {
    var syntax := YamlSyntax(valid);
    fs := map[Legacy(Yml) := Yaml.QuotedNothing(key), Legacy(Yaml) := ""];
    Yaml.QuotedNothingIsEmpty(key);
    Yaml.NothingIsRead();
    var quoted, nothing := ValuesAt(syntax, fs, Legacy(Yml)), ValuesAt(syntax, fs, Legacy(Yaml));
    assert key in quoted && quoted[key] == "" && key !in nothing;
    AgreeIsSignificant(nothing, quoted);
    assert Significant(quoted) == map[];
    MovesDigest(syntax, fs, quoted, nothing);
  }

  /** For example a file of the one line `agent: ""`. */
  lemma AgentIsPlain()
    ensures Yaml.PlainKey("agent") && Yaml.QuotedNothing("agent") == "agent: \"\""
  {
  }
}
