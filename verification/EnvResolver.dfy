/** The environment of a session, built layer by layer. */
module EnvResolver {
  import opened Common
  import EnvFile

  datatype Source = DaemonInherited | BootstrapShell | ServiceManager | File | ProviderConfig | SessionOverride

  datatype Binding = Binding(value: string, source: Source)

  datatype Entry = Entry(key: string, binding: Binding)

  type Layer = map<string, Binding>

  type Values = map<string, string>

  // ----- entries and the layer they amount to -----

  predicate HasKey(entries: seq<Entry>, key: string) { exists i :: 0 <= i < |entries| && entries[i].key == key }

  /** The entries have unique keys and bind each of them as the layer does, and no others. */
  ghost predicate Shows(entries: seq<Entry>, layer: Layer) {
    && (forall i, j :: 0 <= i < j < |entries| ==> entries[i].key != entries[j].key)
    && (forall i :: 0 <= i < |entries| ==> entries[i].key in layer && layer[entries[i].key] == entries[i].binding)
    && (forall key :: key in layer ==> HasKey(entries, key))
  }

  function Tagged(values: Values, source: Source): Layer { map key | key in values :: Binding(values[key], source) }

  lemma {:induction false} Updated(entries: seq<Entry>, layer: Layer, i: nat, b: Binding)
    requires Shows(entries, layer) && i < |entries|
    ensures var key := entries[i].key; Shows(entries[i := Entry(key, b)], layer[key := b])
  {
    var r := entries[i := Entry(entries[i].key, b)];
    forall key | key in layer ensures HasKey(r, key) {
      var k :| 0 <= k < |entries| && entries[k].key == key;
      assert r[k].key == key;
    }
  }

  lemma {:induction false} Appended(entries: seq<Entry>, layer: Layer, key: string, b: Binding)
    requires Shows(entries, layer) && key !in layer
    ensures Shows(entries + [Entry(key, b)], layer[key := b])
  {
    var r := entries + [Entry(key, b)];
    assert r[|entries|].key == key;
    forall k | k in layer ensures HasKey(r, k) {
      var i :| 0 <= i < |entries| && entries[i].key == k;
      assert r[i].key == k;
    }
  }

  /** Updates the entry with the key, or appends one. */
  method Put(entries: seq<Entry>, ghost layer: Layer, key: string, b: Binding) returns (r: seq<Entry>)
    requires Shows(entries, layer)
    ensures Shows(r, layer[key := b])
  {
    for i := 0 to |entries|
      invariant forall k :: 0 <= k < i ==> entries[k].key != key
    {
      if entries[i].key == key {
        Updated(entries, layer, i, b);
        return entries[i := Entry(key, b)];
      }
    }
    Appended(entries, layer, key, b);
    r := entries + [Entry(key, b)];
  }

  /** Where each key is. */
  type Index = map<string, nat>

  ghost predicate Indexed(entries: seq<Entry>, index: Index) {
    && (forall i :: 0 <= i < |entries| ==> entries[i].key in index)
    && (forall key :: key in index ==> index[key] < |entries| && entries[index[key]].key == key)
  }

  /** Overrides are applied in no particular order. */
  method ApplyOverrides(entries: seq<Entry>, ghost layer: Layer, overrides: Values, source: Source)
    returns (r: seq<Entry>)
    requires Shows(entries, layer)
    ensures Shows(r, layer + Tagged(overrides, source))
  {
    var keyIndex: Index := BuildIndex(entries);
    r := entries;
    var todo := overrides.Keys;
    ghost var shown := layer;
    TagNone(layer, overrides, source);
    while todo != {}
      invariant todo <= overrides.Keys && Shows(r, shown) && Indexed(r, keyIndex)
      invariant shown == TaggedBut(layer, overrides, todo, source)
      decreases |todo|
    {
      var key :| key in todo;
      TagOneMore(layer, overrides, todo, key, source);
      r, keyIndex := ApplyOne(r, keyIndex, shown, key, Binding(overrides[key], source));
      shown := shown[key := Binding(overrides[key], source)];
      todo := todo - {key};
    }
    TagAll(layer, overrides, source);
  }

  /** The layer once all overrides but those still to do are applied. */
  function TaggedBut(layer: Layer, overrides: Values, todo: set<string>, source: Source): Layer {
    layer + Tagged(overrides - todo, source)
  }

  lemma {:induction false} TagNone(layer: Layer, overrides: Values, source: Source)
    ensures TaggedBut(layer, overrides, overrides.Keys, source) == layer
  {}

  lemma {:induction false} TagAll(layer: Layer, overrides: Values, source: Source)
    ensures TaggedBut(layer, overrides, {}, source) == layer + Tagged(overrides, source)
  {
    assert overrides - {} == overrides;
  }

  lemma {:induction false} TagOneMore(layer: Layer, overrides: Values, todo: set<string>, key: string, source: Source)
    requires key in todo && key in overrides
    ensures TaggedBut(layer, overrides, todo - {key}, source)
         == TaggedBut(layer, overrides, todo, source)[key := Binding(overrides[key], source)]
  {}

  method ApplyOne(entries: seq<Entry>, keyIndex: Index, ghost layer: Layer, key: string, b: Binding)
    returns (r: seq<Entry>, grown: Index)
    requires Shows(entries, layer) && Indexed(entries, keyIndex)
    ensures Shows(r, layer[key := b]) && Indexed(r, grown)
  {
    if key in keyIndex {
      Updated(entries, layer, keyIndex[key], b);
      return entries[keyIndex[key] := Entry(key, b)], keyIndex;
    }
    assert key in layer ==> HasKey(entries, key);
    Appended(entries, layer, key, b);
    return entries + [Entry(key, b)], keyIndex[key := |entries|];
  }

  method BuildIndex(entries: seq<Entry>) returns (r: Index)
    ensures Indexed(entries, r)
  {
    r := map[];
    for i := 0 to |entries|
      invariant forall k :: 0 <= k < i ==> entries[k].key in r
      invariant forall key :: key in r ==> r[key] < i && entries[r[key]].key == key
    {
      r := r[entries[i].key := i];
    }
  }

  // ----- layers that are lists -----

  /** The layer that a list of assignments amounts to: the last one to a key counts. */
  function Assigned(pairs: EnvFile.Pairs, source: Source): Layer {
    if pairs == [] then map[]
    else
      var last := pairs[|pairs| - 1];
      Assigned(pairs[..|pairs| - 1], source)[last.key := Binding(last.value, source)]
  }

  lemma {:induction false} AssignedStep(layer: Layer, pairs: EnvFile.Pairs, i: nat, source: Source)
    requires i < |pairs|
    ensures layer + Assigned(pairs[..i + 1], source)
         == (layer + Assigned(pairs[..i], source))[pairs[i].key := Binding(pairs[i].value, source)]
  {
    assert pairs[..i + 1][..i] == pairs[..i];
  }

  function Plain(layer: Layer): Values { map key | key in layer :: layer[key].value }

  method PutAll(entries: seq<Entry>, ghost layer: Layer, pairs: EnvFile.Pairs, source: Source)
    returns (r: seq<Entry>)
    requires Shows(entries, layer)
    ensures Shows(r, layer + Assigned(pairs, source))
  {
    r := entries;
    ghost var shown := layer;
    assert layer + map[] == layer;
    for i := 0 to |pairs|
      invariant Shows(r, shown) && shown == layer + Assigned(pairs[..i], source)
    {
      AssignedStep(layer, pairs, i, source);
      r := Put(r, shown, pairs[i].key, Binding(pairs[i].value, source));
      shown := shown[pairs[i].key := Binding(pairs[i].value, source)];
    }
    assert pairs[..|pairs|] == pairs;
  }

  method EntriesToMap(entries: seq<Entry>, ghost layer: Layer) returns (m: Values)
    requires Shows(entries, layer)
    ensures m == Plain(layer)
  {
    m := map[];
    for i := 0 to |entries|
      invariant forall k :: 0 <= k < i ==> entries[k].key in m
      invariant forall key :: key in m ==> key in layer && m[key] == layer[key].value
    {
      m := m[entries[i].key := entries[i].binding.value];
    }
    forall key | key in layer ensures key in m { assert HasKey(entries, key); }
  }

  // ----- the layers of a configuration -----

  datatype Mode = Shell | Clean | BootstrapFromShell

  /** What resolution depends on.  An explicit environment file replaces the two of the workspace; a
      file that cannot be read counts as empty.  `bootstrap` is what the shell reported, if it did. */
  datatype Config = Config(
    mode: Mode, overrides: Values, provider: Values,
    explicitFile: Option<string>, templateFile: Option<string>, workspaceFile: Option<string>,
    bootstrap: Option<Values>, importServiceManager: bool, allowlist: seq<string>, daemon: Values)

  const MINIMAL_PATH := "/usr/bin:/bin:/usr/sbin:/sbin"

  function Present(file: Option<string>): seq<string> { if file.Some? then [file.value] else [] }

  function Files(c: Config): seq<string> {
    if c.explicitFile.Some? then [c.explicitFile.value] else Present(c.templateFile) + Present(c.workspaceFile)
  }

  function Getenv(daemon: Values, key: string): string { if key in daemon then daemon[key] else "" }

  function SetIfAny(layer: Layer, daemon: Values, key: string): Layer {
    if Getenv(daemon, key) == "" then layer else layer[key := Binding(Getenv(daemon, key), DaemonInherited)]
  }

  /** A minimal path, and the daemon's own variables where they are set and not empty. */
  function Inherited(daemon: Values): Layer {
    var path := map["PATH" := Binding(MINIMAL_PATH, DaemonInherited)];
    SetIfAny(SetIfAny(SetIfAny(path, daemon, "HOME"), daemon, "USER"), daemon, "TMPDIR")
  }

  /** The allowed variables that the daemon has. */
  function Imported(daemon: Values, allowlist: seq<string>): Layer {
    map key | key in daemon && key in allowlist :: Binding(daemon[key], ServiceManager)
  }

  /** The layers below the environment files, lowest first. */
  function Base(c: Config): Option<seq<Layer>> {
    match c.mode
    case Shell => Some([])
    case Clean => Some([Inherited(c.daemon)])
    case BootstrapFromShell =>
      if c.bootstrap.None? then None
      else Some([Tagged(c.bootstrap.value, BootstrapShell),
                 if c.importServiceManager then Imported(c.daemon, c.allowlist) else map[]])
  }

  /** Later layers override earlier ones. */
  function Merge(layers: seq<Layer>): Layer {
    if layers == [] then map[] else Merge(layers[..|layers| - 1]) + layers[|layers| - 1]
  }

  /** A layer per file; each is read with the variables of the layers below it. */
  function WithFiles(layers: seq<Layer>, files: seq<string>): seq<Layer>
    decreases |files|
  {
    if files == [] then layers
    else WithFiles(layers + [Assigned(EnvFile.Parsed(files[0], Plain(Merge(layers))), File)], files[1..])
  }

  /** All layers, lowest first; none if the shell could not be asked. */
  function Layers(c: Config): Option<seq<Layer>> {
    if Base(c).None? then None
    else
      var below := WithFiles(Base(c).value, Files(c));
      Some(below + [Tagged(c.provider, ProviderConfig)] + [Tagged(c.overrides, SessionOverride)])
  }

  lemma {:induction false} MergeSnoc(layers: seq<Layer>, layer: Layer)
    ensures Merge(layers + [layer]) == Merge(layers) + layer
  {
    assert (layers + [layer])[..|layers|] == layers;
  }

  // ----- resolution -----

  method PushIfSet(entries: seq<Entry>, ghost layer: Layer, daemon: Values, key: string)
    returns (r: seq<Entry>)
    requires Shows(entries, layer) && key !in layer
    ensures Shows(r, SetIfAny(layer, daemon, key))
  {
    r := entries;
    var value := Getenv(daemon, key);
    if value != "" { r := PushOne(entries, layer, key, Binding(value, DaemonInherited)); }
  }

  method PushInherited(daemon: Values) returns (r: seq<Entry>)
    ensures Shows(r, Inherited(daemon))
  {
    ghost var path: Layer := map["PATH" := Binding(MINIMAL_PATH, DaemonInherited)];
    r := [Entry("PATH", Binding(MINIMAL_PATH, DaemonInherited))];
    assert r[0].key == "PATH";
    r := PushThree(r, path, daemon, "HOME", "USER", "TMPDIR");
  }

  method PushThree(
    entries: seq<Entry>, ghost layer: Layer, daemon: Values, k1: string, k2: string, k3: string)
    returns (r: seq<Entry>)
    requires Shows(entries, layer) && k1 !in layer && k2 !in layer && k3 !in layer
    requires k1 != k2 && k1 != k3 && k2 != k3
    ensures Shows(r, SetIfAny(SetIfAny(SetIfAny(layer, daemon, k1), daemon, k2), daemon, k3))
  {
    r := PushIfSet(entries, layer, daemon, k1);
    r := PushIfSet(r, SetIfAny(layer, daemon, k1), daemon, k2);
    r := PushIfSet(r, SetIfAny(SetIfAny(layer, daemon, k1), daemon, k2), daemon, k3);
  }

  method PushOne(entries: seq<Entry>, ghost layer: Layer, key: string, b: Binding)
    returns (r: seq<Entry>)
    requires Shows(entries, layer) && key !in layer
    ensures Shows(r, layer[key := b])
  {
    Appended(entries, layer, key, b);
    r := entries + [Entry(key, b)];
  }

  /** The captured variables, in no particular order. */
  method PushAll(values: Values, source: Source) returns (r: seq<Entry>)
    ensures Shows(r, map[] + Tagged(values, source))
  {
    r := [];
    var todo := values.Keys;
    ghost var shown: Layer := map[];
    TagNone(map[], values, source);
    while todo != {}
      invariant todo <= values.Keys && Shows(r, shown) && shown == TaggedBut(map[], values, todo, source)
      decreases |todo|
    {
      var key :| key in todo;
      TagOneMore(map[], values, todo, key, source);
      r := PushOne(r, shown, key, Binding(values[key], source));
      shown := shown[key := Binding(values[key], source)];
      todo := todo - {key};
    }
    TagAll(map[], values, source);
  }

  lemma {:induction false} ImportedStep(layer: Layer, daemon: Values, allowlist: seq<string>, i: nat)
    requires i < |allowlist|
    ensures layer + Imported(daemon, allowlist[..i + 1])
         == var key, before := allowlist[i], layer + Imported(daemon, allowlist[..i]);
            if key in daemon then before[key := Binding(daemon[key], ServiceManager)] else before
  {
    assert allowlist[..i + 1] == allowlist[..i] + [allowlist[i]];
  }

  method PutImported(entries: seq<Entry>, ghost layer: Layer, daemon: Values, allowlist: seq<string>)
    returns (r: seq<Entry>)
    requires Shows(entries, layer)
    ensures Shows(r, layer + Imported(daemon, allowlist))
  {
    r := entries;
    ghost var shown := layer;
    assert layer + Imported(daemon, []) == layer;
    for i := 0 to |allowlist|
      invariant Shows(r, shown) && shown == layer + Imported(daemon, allowlist[..i])
    {
      ImportedStep(layer, daemon, allowlist, i);
      if allowlist[i] !in daemon { continue; }
      var b := Binding(daemon[allowlist[i]], ServiceManager);
      r := Put(r, shown, allowlist[i], b);
      shown := shown[allowlist[i] := b];
    }
    assert allowlist[..|allowlist|] == allowlist;
  }

  method PutFiles(entries: seq<Entry>, ghost layers: seq<Layer>, files: seq<string>)
    returns (r: seq<Entry>)
    requires Shows(entries, Merge(layers))
    ensures Shows(r, Merge(WithFiles(layers, files)))
  {
    r := entries;
    ghost var below := layers;
    assert files[0..] == files;
    for i := 0 to |files|
      invariant Shows(r, Merge(below)) && WithFiles(below, files[i..]) == WithFiles(layers, files)
    {
      var current := EntriesToMap(r, Merge(below));
      var pairs := EnvFile.ParseEnvFile(files[i], current);
      r := PutAll(r, Merge(below), pairs, File);
      MergeSnoc(below, Assigned(pairs, File));
      assert files[i..][1..] == files[i + 1..];
      below := below + [Assigned(pairs, File)];
    }
  }

  method BaseEntries(c: Config) returns (r: Option<seq<Entry>>)
    ensures r.None? <==> Base(c).None?
    ensures r.Some? ==> Shows(r.value, Merge(Base(c).value))
  {
    match c.mode {
      case Shell =>
        r := Some([]);
      case Clean =>
        var entries;
        entries := PushInherited(c.daemon);
        MergeSnoc([], Inherited(c.daemon));
        assert [] + [Inherited(c.daemon)] == [Inherited(c.daemon)];
        assert map[] + Inherited(c.daemon) == Inherited(c.daemon);
        r := Some(entries);
      case BootstrapFromShell =>
        if c.bootstrap.None? { return None; }
        var entries;
        entries := PushAll(c.bootstrap.value, BootstrapShell);
        ghost var first := Tagged(c.bootstrap.value, BootstrapShell);
        assert map[] + first == first;
        if c.importServiceManager && c.allowlist != [] {
          entries := PutImported(entries, first, c.daemon, c.allowlist);
        } else {
          assert first + map[] == first;
          assert c.importServiceManager ==> Imported(c.daemon, c.allowlist) == map[];
        }
        ghost var second: Layer := if c.importServiceManager then Imported(c.daemon, c.allowlist) else map[];
        MergeTwo(first, second);
        r := Some(entries);
    }
  }

  lemma {:induction false} MergeTwo(first: Layer, second: Layer)
    ensures Merge([first, second]) == first + second
  {
    MergeSnoc([], first);
    MergeSnoc([first], second);
    assert [] + [first] == [first] && [first] + [second] == [first, second] && map[] + first == first;
  }

  /** Fails exactly when the shell could not be asked; otherwise the entries have unique keys and amount
      to all layers merged. */
  method ResolveEnvironment(c: Config) returns (r: Option<seq<Entry>>)
    ensures r.None? <==> c.mode == BootstrapFromShell && c.bootstrap.None?
    ensures r.Some? ==> Layers(c).Some? && Shows(r.value, Merge(Layers(c).value))
  {
    var base;
    base := BaseEntries(c);
    if base.None? { return None; }
    ghost var layers := WithFiles(Base(c).value, Files(c));
    var entries;
    entries := PutFiles(base.value, Base(c).value, Files(c));
    entries := ApplyOverrides(entries, Merge(layers), c.provider, ProviderConfig);
    MergeSnoc(layers, Tagged(c.provider, ProviderConfig));
    layers := layers + [Tagged(c.provider, ProviderConfig)];
    entries := ApplyOverrides(entries, Merge(layers), c.overrides, SessionOverride);
    MergeSnoc(layers, Tagged(c.overrides, SessionOverride));
    r := Some(entries);
  }

  // ----- priorities -----

  /** Layer `i` is the highest that defines the key. */
  ghost predicate IsHighest(layers: seq<Layer>, key: string, i: nat) {
    i < |layers| && key in layers[i] && forall j :: i < j < |layers| ==> key !in layers[j]
  }

  /** Merged layers bind a key as the highest layer that defines it, and only if one does. */
  lemma {:induction false} MergeIsHighest(layers: seq<Layer>, key: string, i: nat)
    requires IsHighest(layers, key, i)
    ensures key in Merge(layers) && Merge(layers)[key] == layers[i][key]
  {
    var n := |layers| - 1;
    if i >= n {
    } else {
      assert key !in layers[n];
      MergeIsHighest(layers[..n], key, i);
    }
  }

  lemma {:induction false} MergeLacks(layers: seq<Layer>, key: string)
    requires forall i :: 0 <= i < |layers| ==> key !in layers[i]
    ensures key !in Merge(layers)
  {
    if layers == [] {
    } else {
      assert key !in layers[|layers| - 1];
      MergeLacks(layers[..|layers| - 1], key);
    }
  }

  function Rank(source: Source): nat {
    match source
    case DaemonInherited => 0
    case BootstrapShell => 1
    case ServiceManager => 2
    case File => 3
    case ProviderConfig => 4
    case SessionOverride => 5
  }

  /** A layer's bindings all come from the source. */
  ghost predicate From(layer: Layer, source: Source) { forall key :: key in layer ==> layer[key].source == source }

  /** Layers of ranks that never decrease, up to a bound. */
  ghost predicate Ranked(layers: seq<Layer>, sources: seq<Source>) {
    && |layers| == |sources|
    && (forall i :: 0 <= i < |layers| ==> From(layers[i], sources[i]))
    && forall i, j :: 0 <= i < j < |sources| ==> Rank(sources[i]) <= Rank(sources[j])
  }

  lemma {:induction false} RankedSnoc(layers: seq<Layer>, sources: seq<Source>, layer: Layer, source: Source)
    requires Ranked(layers, sources) && From(layer, source)
    requires forall i :: 0 <= i < |sources| ==> Rank(sources[i]) <= Rank(source)
    ensures Ranked(layers + [layer], sources + [source])
  {}

  lemma {:induction false} AssignedFrom(pairs: EnvFile.Pairs, source: Source)
    ensures From(Assigned(pairs, source), source)
  {
    if pairs == [] {
    } else {
      AssignedFrom(pairs[..|pairs| - 1], source);
    }
  }

  lemma {:induction false} FilesRanked(layers: seq<Layer>, sources: seq<Source>, files: seq<string>)
    returns (r: seq<Source>)
    requires Ranked(layers, sources) && forall i :: 0 <= i < |sources| ==> Rank(sources[i]) <= Rank(File)
    ensures Ranked(WithFiles(layers, files), r) && forall i :: 0 <= i < |r| ==> Rank(r[i]) <= Rank(File)
    decreases |files|
  {
    r := sources;
    if files == [] {
    } else {
      var pairs := EnvFile.Parsed(files[0], Plain(Merge(layers)));
      AssignedFrom(pairs, File);
      RankedSnoc(layers, sources, Assigned(pairs, File), File);
      r := FilesRanked(layers + [Assigned(pairs, File)], sources + [File], files[1..]);
    }
  }

  function BaseSources(mode: Mode): seq<Source> {
    match mode
    case Shell => []
    case Clean => [DaemonInherited]
    case BootstrapFromShell => [BootstrapShell, ServiceManager]
  }

  lemma {:induction false} InheritedFrom(daemon: Values)
    ensures From(Inherited(daemon), DaemonInherited)
  {}

  lemma {:induction false} BaseRanked(c: Config)
    requires Base(c).Some?
    ensures Ranked(Base(c).value, BaseSources(c.mode))
    ensures forall i :: 0 <= i < |BaseSources(c.mode)| ==> Rank(BaseSources(c.mode)[i]) <= Rank(File)
  {
    InheritedFrom(c.daemon);
  }

  lemma {:induction false} LayersRanked(c: Config) returns (r: seq<Source>)
    requires Layers(c).Some?
    ensures Ranked(Layers(c).value, r)
  {
    BaseRanked(c);
    var files := FilesRanked(Base(c).value, BaseSources(c.mode), Files(c));
    var layers, provider := WithFiles(Base(c).value, Files(c)), Tagged(c.provider, ProviderConfig);
    RankedSnoc(layers, files, provider, ProviderConfig);
    RankedSnoc(layers + [provider], files + [ProviderConfig], Tagged(c.overrides, SessionOverride), SessionOverride);
    r := files + [ProviderConfig] + [SessionOverride];
  }

  /** A key that some layer defines has the value and source of the highest such layer, and no layer
      that defines it has a source of higher priority. */
  lemma {:induction false} HighestPriorityWins(c: Config, entries: seq<Entry>, key: string, i: nat)
    requires Layers(c).Some? && Shows(entries, Merge(Layers(c).value))
    requires IsHighest(Layers(c).value, key, i)
    ensures Entry(key, Layers(c).value[i][key]) in entries
    ensures forall j :: 0 <= j < |Layers(c).value| && key in Layers(c).value[j] ==>
              Rank(Layers(c).value[j][key].source) <= Rank(Layers(c).value[i][key].source)
  {
    var layers := Layers(c).value;
    MergeIsHighest(layers, key, i);
    assert HasKey(entries, key);
    var n :| 0 <= n < |entries| && entries[n].key == key;
    assert entries[n] == Entry(key, layers[i][key]);
    var sources := LayersRanked(c);
    RanksOf(layers, sources, key, i);
  }

  lemma {:induction false} RanksOf(layers: seq<Layer>, sources: seq<Source>, key: string, i: nat)
    requires Ranked(layers, sources) && IsHighest(layers, key, i)
    ensures forall j :: 0 <= j < |layers| && key in layers[j] ==>
              Rank(layers[j][key].source) <= Rank(layers[i][key].source)
  {
    forall j | 0 <= j < |layers| && key in layers[j]
      ensures Rank(layers[j][key].source) <= Rank(layers[i][key].source)
    {
      assert From(layers[i], sources[i]) && From(layers[j], sources[j]);
      if j < i { assert Rank(sources[j]) <= Rank(sources[i]); }
    }
  }

  /** A key that no layer defines has no entry. */
  lemma {:induction false} UndefinedIsAbsent(c: Config, entries: seq<Entry>, key: string)
    requires Layers(c).Some? && Shows(entries, Merge(Layers(c).value))
    requires forall i :: 0 <= i < |Layers(c).value| ==> key !in Layers(c).value[i]
    ensures forall i :: 0 <= i < |entries| ==> entries[i].key != key
  {
    MergeLacks(Layers(c).value, key);
  }

  // ----- which binding a key has, source by source -----

  function Get(layer: Layer, key: string): Option<Binding> { if key in layer then Some(layer[key]) else None }

  function OrElse(a: Option<Binding>, b: Option<Binding>): Option<Binding> { if a.Some? then a else b }

  /** The last assignment to the key. */
  function LastAssigned(pairs: EnvFile.Pairs, key: string): Option<Binding> {
    if pairs == [] then None
    else if pairs[|pairs| - 1].key == key then Some(Binding(pairs[|pairs| - 1].value, File))
    else LastAssigned(pairs[..|pairs| - 1], key)
  }

  /** What the mode provides before any file: nothing; a minimal path and three variables of the daemon;
      or what the shell reported, under the variables imported from the service manager. */
  function FromMode(c: Config, key: string): Option<Binding> {
    match c.mode
    case Shell => None
    case Clean =>
      if key == "PATH" then Some(Binding(MINIMAL_PATH, DaemonInherited))
      else if (key == "HOME" || key == "USER" || key == "TMPDIR") && key in c.daemon && c.daemon[key] != ""
      then Some(Binding(c.daemon[key], DaemonInherited))
      else None
    case BootstrapFromShell =>
      if c.importServiceManager && key in c.allowlist && key in c.daemon
      then Some(Binding(c.daemon[key], ServiceManager))
      else if c.bootstrap.Some? && key in c.bootstrap.value
      then Some(Binding(c.bootstrap.value[key], BootstrapShell))
      else None
  }

  /** The value a file gives the key, read with these variables. */
  function FromFile(file: Option<string>, below: Layer, key: string): Option<Binding> {
    if file.None? then None else LastAssigned(EnvFile.Parsed(file.value, Plain(below)), key)
  }

  function FileLayer(file: Option<string>, below: Layer): Layer {
    if file.None? then map[] else Assigned(EnvFile.Parsed(file.value, Plain(below)), File)
  }

  /** The explicit file alone, or the workspace's file before its template. */
  function FromFiles(c: Config, base: Layer, key: string): Option<Binding> {
    if c.explicitFile.Some? then FromFile(c.explicitFile, base, key)
    else OrElse(FromFile(c.workspaceFile, base + FileLayer(c.templateFile, base), key),
                FromFile(c.templateFile, base, key))
  }

  /** Session overrides, then the provider's, then files, then the mode. */
  function Chosen(c: Config, key: string): Option<Binding>
    requires Base(c).Some?
  {
    if key in c.overrides then Some(Binding(c.overrides[key], SessionOverride))
    else if key in c.provider then Some(Binding(c.provider[key], ProviderConfig))
    else OrElse(FromFiles(c, Merge(Base(c).value), key), FromMode(c, key))
  }

  lemma {:induction false} GetAssigned(pairs: EnvFile.Pairs, key: string)
    ensures Get(Assigned(pairs, File), key) == LastAssigned(pairs, key)
  {
    if pairs == [] {
    } else {
      GetAssigned(pairs[..|pairs| - 1], key);
    }
  }

  lemma {:induction false} GetBase(c: Config, key: string)
    requires Base(c).Some?
    ensures Get(Merge(Base(c).value), key) == FromMode(c, key)
  {
    match c.mode
    case Shell =>
    case Clean =>
      MergeSnoc([], Inherited(c.daemon));
      assert [] + [Inherited(c.daemon)] == [Inherited(c.daemon)];
      GetInherited(c.daemon, key);
    case BootstrapFromShell =>
      MergeTwo(Tagged(c.bootstrap.value, BootstrapShell),
               if c.importServiceManager then Imported(c.daemon, c.allowlist) else map[]);
  }

  lemma {:induction false} GetInherited(daemon: Values, key: string)
    ensures Get(Inherited(daemon), key)
         == if key == "PATH" then Some(Binding(MINIMAL_PATH, DaemonInherited))
            else if (key == "HOME" || key == "USER" || key == "TMPDIR") && key in daemon && daemon[key] != ""
            then Some(Binding(daemon[key], DaemonInherited))
            else None
  {
    assert "PATH"[0] != "HOME"[0] && "PATH"[0] != "USER"[0] && "PATH"[0] != "TMPDIR"[0];
  }

  lemma {:induction false} WithOneFile(layers: seq<Layer>, file: string)
    ensures WithFiles(layers, [file]) == layers + [Assigned(EnvFile.Parsed(file, Plain(Merge(layers))), File)]
  {
    assert [file][1..] == [];
  }

  lemma {:induction false} WithTwoFiles(layers: seq<Layer>, first: string, second: string)
    ensures var below := layers + [Assigned(EnvFile.Parsed(first, Plain(Merge(layers))), File)];
            WithFiles(layers, [first, second]) == WithFiles(below, [second])
  {
    assert [first, second][1..] == [second];
  }

  lemma {:induction false} GetAfterOneFile(layers: seq<Layer>, file: string, key: string)
    ensures Merge(WithFiles(layers, [file])) == Merge(layers) + FileLayer(Some(file), Merge(layers))
    ensures Get(Merge(WithFiles(layers, [file])), key)
         == OrElse(FromFile(Some(file), Merge(layers), key), Get(Merge(layers), key))
  {
    var pairs := EnvFile.Parsed(file, Plain(Merge(layers)));
    WithOneFile(layers, file);
    MergeSnoc(layers, Assigned(pairs, File));
    GetAssigned(pairs, key);
  }

  lemma {:induction false} GetAfterFiles(c: Config, layers: seq<Layer>, key: string)
    ensures Get(Merge(WithFiles(layers, Files(c))), key)
         == OrElse(FromFiles(c, Merge(layers), key), Get(Merge(layers), key))
  {
    var base := Merge(layers);
    if c.explicitFile.Some? {
      GetAfterOneFile(layers, c.explicitFile.value, key);
    } else if c.templateFile.None? && c.workspaceFile.None? {
      assert Files(c) == [];
    } else if c.templateFile.None? {
      assert Files(c) == [c.workspaceFile.value] && base + map[] == base;
      GetAfterOneFile(layers, c.workspaceFile.value, key);
    } else if c.workspaceFile.None? {
      assert Files(c) == [c.templateFile.value];
      GetAfterOneFile(layers, c.templateFile.value, key);
    } else {
      GetAfterTwoFiles(layers, c.templateFile.value, c.workspaceFile.value, key);
      assert Files(c) == [c.templateFile.value, c.workspaceFile.value];
    }
  }

  lemma {:induction false} GetAfterTwoFiles(layers: seq<Layer>, first: string, second: string, key: string)
    ensures var base := Merge(layers);
            Get(Merge(WithFiles(layers, [first, second])), key)
            == OrElse(FromFile(Some(second), base + FileLayer(Some(first), base), key),
                      OrElse(FromFile(Some(first), base, key), Get(base, key)))
  {
    var below := layers + [Assigned(EnvFile.Parsed(first, Plain(Merge(layers))), File)];
    WithTwoFiles(layers, first, second);
    WithOneFile(layers, first);
    GetAfterOneFile(layers, first, key);
    GetAfterOneFile(below, second, key);
  }

  lemma {:induction false} GetLayers(c: Config, key: string)
    requires Layers(c).Some?
    ensures Get(Merge(Layers(c).value), key) == Chosen(c, key)
  {
    var files := WithFiles(Base(c).value, Files(c));
    var provider, overrides := Tagged(c.provider, ProviderConfig), Tagged(c.overrides, SessionOverride);
    MergeSnoc(files, provider);
    MergeSnoc(files + [provider], overrides);
    GetAfterFiles(c, Base(c).value, key);
    GetBase(c, key);
  }

  /** The resolved entries bind a key exactly as the sources say. */
  lemma {:induction false} ResolvedExactly(c: Config, entries: seq<Entry>, key: string, b: Binding)
    requires Layers(c).Some? && Shows(entries, Merge(Layers(c).value))
    ensures Entry(key, b) in entries <==> Chosen(c, key) == Some(b)
  {
    GetLayers(c, key);
    if key in Merge(Layers(c).value) {
      assert HasKey(entries, key);
      var n :| 0 <= n < |entries| && entries[n].key == key;
      assert entries[n].binding == Merge(Layers(c).value)[key];
    }
  }
}
