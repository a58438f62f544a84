/**
 * The default-merge loop of `load_config`: every section and key of the
 * defaults that the stored configuration lacks is added with its default value;
 * whatever the stored configuration already holds is kept.
 */
module Config {
  import opened Filenames

  /** A configuration: section name to (key to value). */
  type Settings = map<string, map<string, string>>

  /** One section of the default configuration, its keys in declaration order. */
  datatype DefaultSection = DefaultSection(name: string, options: seq<(string, string)>)

  /** The keys and values of `options`; where a key repeats, its first value wins. */
  function OptionMap(options: seq<(string, string)>): map<string, string> {
    if options == [] then map[]
    else
      var last := options[|options| - 1];
      map[last.0 := last.1] + OptionMap(options[..|options| - 1])
  }

  /** The default keys of section `s`; where a section repeats, its first occurrence wins. */
  function SectionDefaults(defaults: seq<DefaultSection>, s: string): map<string, string> {
    if defaults == [] then map[]
    else
      var last := defaults[|defaults| - 1];
      (if last.name == s then OptionMap(last.options) else map[])
        + SectionDefaults(defaults[..|defaults| - 1], s)
  }

  /** The names of the default sections. */
  function SectionNames(defaults: seq<DefaultSection>): set<string> {
    if defaults == [] then {} else SectionNames(defaults[..|defaults| - 1]) + {defaults[|defaults| - 1].name}
  }

  /** Section `s` of a configuration, or an empty section when it has none. */
  function Existing(config: Settings, s: string): map<string, string> {
    if s in config then config[s] else map[]
  }

  /**
   * The merged configuration: the stored sections and the default sections, each
   * holding the default keys overridden by whatever the stored section holds.
   */
  function Merged(config: Settings, defaults: seq<DefaultSection>): Settings {
    map s | s in config.Keys + SectionNames(defaults) :: SectionDefaults(defaults, s) + Existing(config, s)
  }

  /** The merge as the source performs it: a loop over the sections, then over their keys. */
  method MergeDefaults(config: Settings, defaults: seq<DefaultSection>) returns (merged: Settings)
    ensures merged == Merged(config, defaults)
  {
    merged := config;
    assert defaults[..0] == [];
    for i := 0 to |defaults|
      invariant merged == Folded(config, defaults[..i])
    {
      var section := defaults[i];
      ghost var before := merged;
      if section.name !in merged {
        merged := merged[section.name := map[]];
      }
      assert merged[section.name] == Existing(before, section.name);
      var filled := AddMissingKeys(merged[section.name], section.options);
      merged := merged[section.name := filled];
      assert merged == before[section.name := filled];
      FoldedStep(config, defaults, i);
    }
    assert defaults[..|defaults|] == defaults;
    FoldedIsMerged(config, defaults);
  }

  /** The inner loop: each default key the section lacks is added with its default value. */
  method AddMissingKeys(section: map<string, string>, options: seq<(string, string)>) returns (filled: map<string, string>)
    ensures filled == OptionMap(options) + section
  {
    filled := section;
    assert options[..0] == [];
    for j := 0 to |options|
      invariant filled == OptionMap(options[..j]) + section
    {
      var key, value := options[j].0, options[j].1;
      AddIfAbsent(options[..j], (key, value), section);
      assert options[..j + 1] == options[..j] + [(key, value)];
      if key !in filled {
        filled := filled[key := value];
      }
    }
    assert options[..|options|] == options;
  }

  /** The merge one default section at a time, in declaration order. */
  function Folded(config: Settings, defaults: seq<DefaultSection>): Settings {
    if defaults == [] then config
    else
      var m := Folded(config, defaults[..|defaults| - 1]);
      var section := defaults[|defaults| - 1];
      m[section.name := OptionMap(section.options) + Existing(m, section.name)]
  }

  lemma FoldedStep(config: Settings, defaults: seq<DefaultSection>, i: nat)
    requires i < |defaults|
    ensures var m := Folded(config, defaults[..i]);
      Folded(config, defaults[..i + 1]) == m[defaults[i].name := OptionMap(defaults[i].options) + Existing(m, defaults[i].name)]
  {
    assert defaults[..i + 1][..i] == defaults[..i];
  }

  /** Merging section by section gives the merged configuration. */
  lemma {:induction false} FoldedIsMerged(config: Settings, defaults: seq<DefaultSection>)
    ensures Folded(config, defaults) == Merged(config, defaults)
    decreases |defaults|
  {
    if defaults == [] {
      MergedNothing(config);
    } else {
      var init := defaults[..|defaults| - 1];
      FoldedIsMerged(config, init);
      MergeStep(config, init, defaults[|defaults| - 1]);
      assert init + [defaults[|defaults| - 1]] == defaults;
    }
  }

  /** With no defaults, the merge leaves the configuration as it is. */
  lemma MergedNothing(config: Settings)
    ensures Merged(config, []) == config
  {
    forall s | s in config ensures SectionDefaults([], s) + Existing(config, s) == config[s] {
      assert map[] + config[s] == config[s];
    }
  }

  /** One step of the inner loop: adding a key only when absent extends the option map by that key. */
  lemma AddIfAbsent(prefix: seq<(string, string)>, kv: (string, string), stored: map<string, string>)
    ensures var m := OptionMap(prefix) + stored;
      OptionMap(prefix + [kv]) + stored == if kv.0 in m then m else m[kv.0 := kv.1]
  {
    var all := prefix + [kv];
    assert all[..|all| - 1] == prefix;
  }

  /** A name that no default section has gets no default keys. */
  lemma {:induction false} NoSectionNoDefaults(defaults: seq<DefaultSection>, s: string)
    requires s !in SectionNames(defaults)
    ensures SectionDefaults(defaults, s) == map[]
    decreases |defaults|
  {
    if defaults != [] {
      NoSectionNoDefaults(defaults[..|defaults| - 1], s);
    }
  }

  /** Appending a section adds its keys beneath those of the earlier sections. */
  lemma SectionDefaultsSnoc(done: seq<DefaultSection>, section: DefaultSection, s: string)
    ensures SectionDefaults(done + [section], s)
      == if section.name == s then OptionMap(section.options) + SectionDefaults(done, s) else SectionDefaults(done, s)
  {
    var all := done + [section];
    assert all[..|all| - 1] == done;
    if section.name != s {
      assert map[] + SectionDefaults(done, s) == SectionDefaults(done, s);
    }
  }

  lemma UnionAssoc(a: map<string, string>, b: map<string, string>, c: map<string, string>)
    ensures (a + b) + c == a + (b + c)
  {
  }

  /** One outer iteration turns the merge with a prefix of the defaults into the merge with one more section. */
  lemma MergeStep(config: Settings, done: seq<DefaultSection>, section: DefaultSection)
    ensures var m := Merged(config, done);
      Merged(config, done + [section]) == m[section.name := OptionMap(section.options) + Existing(m, section.name)]
  {
    var m := Merged(config, done);
    var all := done + [section];
    var name := section.name;
    var next := m[name := OptionMap(section.options) + Existing(m, name)];
    assert all[..|all| - 1] == done;
    var merged := Merged(config, all);
    assert merged.Keys == next.Keys by {
      assert merged.Keys == config.Keys + SectionNames(all);
      assert m.Keys == config.Keys + SectionNames(done);
    }
    forall s | s in merged ensures merged[s] == next[s] {
      if s == name {
        MergeStepSame(config, done, section);
      } else {
        MergeStepOther(config, done, section, s);
      }
    }
  }

  /** The section being merged gets its keys beneath what it holds so far. */
  lemma MergeStepSame(config: Settings, done: seq<DefaultSection>, section: DefaultSection)
    ensures var m := Merged(config, done);
      section.name in Merged(config, done + [section]) &&
      Merged(config, done + [section])[section.name] == OptionMap(section.options) + Existing(m, section.name)
  {
    var m := Merged(config, done);
    var all := done + [section];
    var s := section.name;
    assert all[..|all| - 1] == done;
    assert s in SectionNames(all);
    if s !in m {
      NoSectionNoDefaults(done, s);
      assert Existing(m, s) == map[] + Existing(config, s);
    } else {
      assert Existing(m, s) == SectionDefaults(done, s) + Existing(config, s);
    }
    SectionDefaultsSnoc(done, section, s);
    UnionAssoc(OptionMap(section.options), SectionDefaults(done, s), Existing(config, s));
  }

  /** Every other section is left as it was. */
  lemma MergeStepOther(config: Settings, done: seq<DefaultSection>, section: DefaultSection, s: string)
    requires s != section.name && s in Merged(config, done + [section])
    ensures s in Merged(config, done) && Merged(config, done + [section])[s] == Merged(config, done)[s]
  {
    var all := done + [section];
    assert all[..|all| - 1] == done;
    SectionDefaultsSnoc(done, section, s);
  }

  /** Every value the stored configuration holds survives the merge unchanged. */
  lemma MergedKeepsStored(config: Settings, defaults: seq<DefaultSection>)
    ensures var m := Merged(config, defaults);
      forall s, k | s in config && k in config[s] :: s in m && k in m[s] && m[s][k] == config[s][k]
  {
  }

  lemma {:induction false} NameInSectionNames(defaults: seq<DefaultSection>, i: nat)
    requires i < |defaults|
    ensures defaults[i].name in SectionNames(defaults)
    decreases |defaults|
  {
    if i < |defaults| - 1 {
      NameInSectionNames(defaults[..|defaults| - 1], i);
    }
  }

  lemma {:induction false} KeyInOptionMap(options: seq<(string, string)>, j: nat)
    requires j < |options|
    ensures options[j].0 in OptionMap(options)
    decreases |options|
  {
    if j < |options| - 1 {
      KeyInOptionMap(options[..|options| - 1], j);
    }
  }

  lemma {:induction false} KeyInSectionDefaults(defaults: seq<DefaultSection>, i: nat, j: nat)
    requires i < |defaults| && j < |defaults[i].options|
    ensures defaults[i].options[j].0 in SectionDefaults(defaults, defaults[i].name)
    decreases |defaults|
  {
    if i < |defaults| - 1 {
      KeyInSectionDefaults(defaults[..|defaults| - 1], i, j);
    } else {
      KeyInOptionMap(defaults[i].options, j);
    }
  }

  /** After the merge, the section and key of every default entry are present. */
  lemma MergedComplete(config: Settings, defaults: seq<DefaultSection>, i: nat, j: nat)
    requires i < |defaults| && j < |defaults[i].options|
    ensures defaults[i].name in Merged(config, defaults)
    ensures defaults[i].options[j].0 in Merged(config, defaults)[defaults[i].name]
  {
    var name := defaults[i].name;
    NameInSectionNames(defaults, i);
    KeyInSectionDefaults(defaults, i, j);
    assert Merged(config, defaults)[name] == SectionDefaults(defaults, name) + Existing(config, name);
  }

  /** Section names are distinct, and so are the keys within each section (as in a Python dict). */
  predicate DistinctDefaults(defaults: seq<DefaultSection>) {
    && (forall a, b :: 0 <= a < b < |defaults| ==> defaults[a].name != defaults[b].name)
    && (forall a :: 0 <= a < |defaults| ==> DistinctKeys(defaults[a].options))
  }

  predicate DistinctKeys(options: seq<(string, string)>) {
    forall x, y :: 0 <= x < y < |options| ==> options[x].0 != options[y].0
  }

  lemma {:induction false} OptionMapKeys(options: seq<(string, string)>, key: string)
    requires forall x :: 0 <= x < |options| ==> options[x].0 != key
    ensures key !in OptionMap(options)
    decreases |options|
  {
    if options != [] {
      OptionMapKeys(options[..|options| - 1], key);
    }
  }

  lemma {:induction false} OptionMapValue(options: seq<(string, string)>, j: nat)
    requires j < |options| && DistinctKeys(options)
    ensures options[j].0 in OptionMap(options) && OptionMap(options)[options[j].0] == options[j].1
    decreases |options|
  {
    var init := options[..|options| - 1];
    if j < |options| - 1 {
      OptionMapValue(init, j);
    } else {
      OptionMapKeys(init, options[j].0);
    }
  }

  lemma {:induction false} SectionDefaultsOfDistinct(defaults: seq<DefaultSection>, i: nat)
    requires i < |defaults| && DistinctDefaults(defaults)
    ensures SectionDefaults(defaults, defaults[i].name) == OptionMap(defaults[i].options)
    decreases |defaults|
  {
    var init := defaults[..|defaults| - 1];
    var name := defaults[i].name;
    if i < |defaults| - 1 {
      SectionDefaultsOfDistinct(init, i);
      assert defaults[|defaults| - 1].name != name;
      assert map[] + OptionMap(defaults[i].options) == OptionMap(defaults[i].options);
    } else {
      forall a | 0 <= a < |init| ensures init[a].name != name {
        assert defaults[a].name != defaults[i].name;
      }
      NameMissing(init, name);
      NoSectionNoDefaults(init, name);
      assert OptionMap(defaults[i].options) + map[] == OptionMap(defaults[i].options);
    }
  }

  lemma {:induction false} NameMissing(defaults: seq<DefaultSection>, name: string)
    requires forall a :: 0 <= a < |defaults| ==> defaults[a].name != name
    ensures name !in SectionNames(defaults)
    decreases |defaults|
  {
    if defaults != [] {
      NameMissing(defaults[..|defaults| - 1], name);
    }
  }

  /** A default key the stored section lacks gets exactly its default value. */
  lemma MergedDefaultValue(config: Settings, defaults: seq<DefaultSection>, i: nat, j: nat)
    requires DistinctDefaults(defaults)
    requires i < |defaults| && j < |defaults[i].options|
    requires defaults[i].options[j].0 !in Existing(config, defaults[i].name)
    ensures defaults[i].name in Merged(config, defaults)
    ensures defaults[i].options[j].0 in Merged(config, defaults)[defaults[i].name]
    ensures Merged(config, defaults)[defaults[i].name][defaults[i].options[j].0] == defaults[i].options[j].1
  {
    var name := defaults[i].name;
    NameInSectionNames(defaults, i);
    SectionDefaultsOfDistinct(defaults, i);
    OptionMapValue(defaults[i].options, j);
    assert Merged(config, defaults)[name] == SectionDefaults(defaults, name) + Existing(config, name);
  }

  /** The merge adds nothing but default sections and default keys. */
  lemma MergedAddsOnlyDefaults(config: Settings, defaults: seq<DefaultSection>)
    ensures var m := Merged(config, defaults);
      && (forall s | s in m :: s in config || s in SectionNames(defaults))
      && (forall s, k | s in m && k in m[s] :: k in Existing(config, s) || k in SectionDefaults(defaults, s))
  {
  }

  /** Merging the defaults into an already merged configuration changes nothing. */
  lemma MergedIdempotent(config: Settings, defaults: seq<DefaultSection>)
    ensures Merged(Merged(config, defaults), defaults) == Merged(config, defaults)
  {
    var m := Merged(config, defaults);
    var mm := Merged(m, defaults);
    assert mm.Keys == m.Keys;
    forall s | s in mm ensures mm[s] == m[s] {
      var d := SectionDefaults(defaults, s);
      assert Existing(m, s) == d + Existing(config, s);
      assert d + (d + Existing(config, s)) == d + Existing(config, s);
    }
  }

  /**
   * The default configuration of the graphical front-end; `home` is the user's
   * home directory, and `~/Downloads` is joined to it as `os.path.join` would,
   * so a trailing `/` on `home` is not doubled.
   */
  function GuiDefaults(home: string): seq<DefaultSection> {
    [ DefaultSection("Spotify", [("client_id", ""), ("client_secret", "")]),
      DefaultSection("Settings", [("output_path", PathJoin(home, "Downloads")), ("theme", "dark"),
                                  ("color_theme", "blue"), ("download_type", "music")]) ]
  }

  /** The default configuration of the text front-end: `Path.home() / "downloads"` joins like `os.path.join`. */
  function TermuxDefaults(home: string): seq<DefaultSection> {
    [ DefaultSection("Spotify", [("client_id", ""), ("client_secret", "")]),
      DefaultSection("Settings", [("output_path", PathJoin(home, "downloads"))]) ]
  }

  /** After loading, the text front-end always has credentials and an output path to read. */
  lemma TermuxLoadedHasKeys(config: Settings, home: string)
    ensures var m := Merged(config, TermuxDefaults(home));
      && "Spotify" in m && "client_id" in m["Spotify"] && "client_secret" in m["Spotify"]
      && "Settings" in m && "output_path" in m["Settings"]
  {
    var d := TermuxDefaults(home);
    MergedComplete(config, d, 0, 0);
    MergedComplete(config, d, 0, 1);
    MergedComplete(config, d, 1, 0);
    assert d[0].options[0].0 == "client_id" && d[0].options[1].0 == "client_secret";
    assert d[1].options[0].0 == "output_path";
  }

  /**
   * Without a configuration file the console front-end writes its defaults as
   * they are; that is exactly the merge of the defaults into an empty configuration.
   */
  lemma FreshTermuxConfig(home: string)
    ensures Merged(map[], TermuxDefaults(home)) ==
      map["Spotify" := map["client_id" := "", "client_secret" := ""],
          "Settings" := map["output_path" := PathJoin(home, "downloads")]]
  {
    var d := TermuxDefaults(home);
    var m := Merged(map[], d);
    var expected := map["Spotify" := map["client_id" := "", "client_secret" := ""],
                        "Settings" := map["output_path" := PathJoin(home, "downloads")]];
    TermuxSectionNames(home);
    assert m.Keys == expected.Keys;
    DefaultsDistinct(home);
    forall s | s in m ensures m[s] == expected[s] {
      assert m[s] == SectionDefaults(d, s) + map[];
      if s == "Spotify" {
        SectionDefaultsOfDistinct(d, 0);
        TwoOptions("client_id", "", "client_secret", "");
      } else {
        SectionDefaultsOfDistinct(d, 1);
        assert d[1].options[..0] == [];
      }
    }
  }

  lemma TermuxSectionNames(home: string)
    ensures SectionNames(TermuxDefaults(home)) == {"Spotify", "Settings"}
  {
    var d := TermuxDefaults(home);
    assert d[..1][..0] == [] && d[..|d| - 1] == d[..1];
    assert SectionNames(d[..1]) == SectionNames([]) + {"Spotify"};
    assert SectionNames(d) == SectionNames(d[..1]) + {"Settings"};
  }

  lemma TwoOptions(k1: string, v1: string, k2: string, v2: string)
    requires k1 != k2
    ensures OptionMap([(k1, v1), (k2, v2)]) == map[k1 := v1, k2 := v2]
  {
    assert [(k1, v1), (k2, v2)][..1] == [(k1, v1)];
    assert [(k1, v1)][..0] == [];
    assert OptionMap([(k1, v1)]) == map[k1 := v1] + map[];
    assert OptionMap([(k1, v1), (k2, v2)]) == map[k2 := v2] + map[k1 := v1];
  }

  lemma DefaultsDistinct(home: string)
    ensures DistinctDefaults(GuiDefaults(home)) && DistinctDefaults(TermuxDefaults(home))
  {
  }
}
