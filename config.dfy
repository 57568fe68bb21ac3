/** The `yt_napari` section of yt's configuration: the settings the plugin
    reads, filled in from their defaults where the user set nothing. */
module Config {

  /** A configuration value. */
  datatype Setting = Flag(on: bool) | Text(text: string)

  const SectionName: string := "yt_napari"

  /** `_defaults`: the settings of the section and their default values. */
  const Defaults: map<string, Setting> := map["in_memory_cache" := Flag(true)]

  /** A section with every missing setting taken from `defaults`. */
  function Merged(section: map<string, Setting>, defaults: map<string, Setting>): (r: map<string, Setting>)
    ensures r.Keys == section.Keys + defaults.Keys
  {
    map k | k in section.Keys + defaults.Keys :: if k in section then section[k] else defaults[k]
  }

  /** Settings already present are kept; every missing one gets its default. */
  lemma MergedKeepsAndFills(section: map<string, Setting>, defaults: map<string, Setting>)
    ensures forall k :: k in section ==> Merged(section, defaults)[k] == section[k]
    ensures forall k :: k in defaults && k !in section ==> Merged(section, defaults)[k] == defaults[k]
  {
  }

  /** Filling in an empty section gives exactly the defaults. */
  lemma MergedEmpty(defaults: map<string, Setting>)
    ensures Merged(map[], defaults) == defaults
  {
  }

  /** Filling in twice changes nothing more. */
  lemma MergedIdempotent(section: map<string, Setting>, defaults: map<string, Setting>)
    ensures Merged(Merged(section, defaults), defaults) == Merged(section, defaults)
  {
  }

  /** The defaults of the settings in `keys` only. */
  function Restrict(defaults: map<string, Setting>, keys: set<string>): (r: map<string, Setting>)
    requires keys <= defaults.Keys
    ensures r.Keys == keys && forall k :: k in keys ==> r[k] == defaults[k]
  {
    map k | k in keys :: defaults[k]
  }

  /** Filling in one more default setting, when it is missing, extends the
      merge by that setting. */
  lemma MergedStep(base: map<string, Setting>, defaults: map<string, Setting>, done: set<string>,
                   setting: string)
    requires done <= defaults.Keys && setting in defaults
    ensures var section := Merged(base, Restrict(defaults, done));
      (if setting !in section then section[setting := defaults[setting]] else section)
        == Merged(base, Restrict(defaults, done + {setting}))
  {
  }

  /** The configuration: named sections of named settings. */
  class YtConfig {
    var sections: map<string, map<string, Setting>>

    constructor(sections0: map<string, map<string, Setting>>)
      ensures sections == sections0
    {
      sections := sections0;
    }

    /** `_get_updated_config`: an existing section gets each missing default
        setting, one at a time; a missing section is added holding the
        defaults. The same configuration object is returned and no other
        section changes. */
    method GetUpdatedConfig() returns (cfg: YtConfig)
      modifies this
      ensures cfg == this
      ensures SectionName in sections
      ensures SectionName in old(sections) ==> sections[SectionName] == Merged(old(sections)[SectionName], Defaults)
      ensures SectionName !in old(sections) ==> sections[SectionName] == Defaults
      ensures forall s :: s != SectionName ==> (s in sections <==> s in old(sections))
      ensures forall s :: s != SectionName && s in sections ==> sections[s] == old(sections)[s]
    {
      if SectionName in sections {
        var section := sections[SectionName];
        var todo := Defaults.Keys;
        while todo != {}
          invariant todo <= Defaults.Keys
          invariant SectionName in sections && sections == old(sections)[SectionName := section]
          invariant section == Merged(old(sections)[SectionName], Restrict(Defaults, Defaults.Keys - todo))
          decreases todo
        {
          var setting :| setting in todo;
          MergedStep(old(sections)[SectionName], Defaults, Defaults.Keys - todo, setting);
          assert Defaults.Keys - (todo - {setting}) == (Defaults.Keys - todo) + {setting};
          if setting !in section {
            section := section[setting := Defaults[setting]];
          }
          sections := sections[SectionName := section];
          todo := todo - {setting};
        }
        assert Restrict(Defaults, Defaults.Keys) == Defaults;
      } else {
        sections := sections[SectionName := map[]];
        sections := sections[SectionName := Defaults];
      }
      return this;
    }
  }
}
