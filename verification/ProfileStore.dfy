/** The migrations as they run, changing a loaded profile in place (clients/desktop/config_manager.py). */
module ProfileStore {
  import opened Wrappers
  import opened OptionPaths
  import opened ProfileMigration
  import opened MigrationTheorems

  /** The profile of a fresh installation. */
  function DefaultProfiles(): Entries {
    map[
      DEFAULTS := Dict(map[
        "audio" := Dict(map["music_volume" := Num(20), "ambience_volume" := Num(20)]),
        SOCIAL := Dict(map[
          "mute_global_chat" := Bool(false),
          "mute_table_chat" := Bool(false),
          "include_language_filters_for_table_chat" := Bool(false),
          CHAT_LANGUAGE := Str("English"),
          SUBSCRIPTIONS := EMPTY]),
        "interface" := Dict(map["invert_multiline_enter_behavior" := Bool(false), "play_typing_sounds" := Bool(true)]),
        LOCAL_TABLE := Dict(map[
          "start_as_visible" := Str("always"),
          "start_with_password" := Str("never"),
          "default_password_text" := Str(""),
          NOTIFICATIONS := EMPTY])]),
      SERVER_OPTIONS := EMPTY]
  }

  /** The profile to use for what was read: the migrated one, or the default one after any error. */
  function Loaded(raw: Entries): Entries {
    match Migrate(raw)
    case None => DefaultProfiles()
    case Some(r) => r.profile
  }

  lemma DefaultsAreSettled()
    ensures Settled(DefaultProfiles())
  {
    var tree := DefaultProfiles()[DEFAULTS];
    var social := tree.entries[SOCIAL];
    assert FixedSocial(social).entries == social.entries;
    assert Fixed(tree).entries == tree.entries;
  }

  /** Whatever was read, what the client starts with needs no further migration. */
  lemma LoadedIsSettled(raw: Entries, m: Migration)
    ensures Apply(m, Loaded(raw)) == Some(Report(Loaded(raw), false))
  {
    if Migrate(raw).Some? {
      MigrateIsIdempotent(raw, m);
    } else {
      DefaultsAreSettled();
      SettledStays(DefaultProfiles(), m);
    }
  }

  /** A tree of server options with some servers' trees replaced. */
  ghost function Partly(trees: Entries, done: set<string>, f: Node --> Node): Entries
    requires forall sid :: sid in trees && sid in done ==> f.requires(trees[sid])
  {
    map sid | sid in trees :: if sid in done then f(trees[sid]) else trees[sid]
  }

  lemma PartlyStep(trees: Entries, done: set<string>, f: Node --> Node, sid: string)
    requires sid in trees && sid !in done && forall x :: x in trees && (x in done || x == sid) ==> f.requires(trees[x])
    ensures Partly(trees, done, f)[sid] == trees[sid]
    ensures Partly(trees, done + {sid}, f) == Partly(trees, done, f)[sid := f(trees[sid])]
    ensures Partly(trees, done + {sid}, f) != trees <==> Partly(trees, done, f) != trees || f(trees[sid]) != trees[sid]
  {
    var a, b := Partly(trees, done + {sid}, f), Partly(trees, done, f);
    if b != trees {
      var x :| x in trees && b[x] != trees[x];
      assert a[x] != trees[x];
    } else if f(trees[sid]) != trees[sid] {
      assert a[sid] != trees[sid];
    } else {
      assert a == trees;
    }
  }

  lemma PartlyKeeps(trees: Entries, done: set<string>, sid: string)
    requires sid in trees && sid !in done && forall x :: x in trees && x in done ==> Movable(trees[x])
    ensures sid in Partly(trees, done, Moved) && Partly(trees, done, Moved)[sid] == trees[sid]
  {
  }

  lemma PartlyEnds(trees: Entries, f: Node --> Node)
    ensures Partly(trees, {}, f) == trees
    ensures (forall sid :: sid in trees ==> f.requires(trees[sid])) ==> Partly(trees, trees.Keys, f) == Each(trees, f)
  {
  }

  /** The languages of one social section, with a report of whether anything was corrected. */
  method FixLanguageSubs(social: Entries) returns (result: Entries, changed: bool)
    ensures Dict(result) == FixedSocial(Dict(social))
    ensures changed <==> result != social
  {
    result, changed := social, false;
    if SUBSCRIPTIONS in social && social[SUBSCRIPTIONS].Dict? && "Check" in social[SUBSCRIPTIONS].entries {
      var subs := social[SUBSCRIPTIONS].entries;
      result := result[SUBSCRIPTIONS := Dict((subs - {"Check"})["Czech" := subs["Check"]])];
      changed := true;
      assert "Check" in social[SUBSCRIPTIONS].entries && "Check" !in result[SUBSCRIPTIONS].entries;
    }
    assert result == Mapped(social, SUBSCRIPTIONS, FixedSubscriptions);
    if CHAT_LANGUAGE in result && result[CHAT_LANGUAGE] == Str("Check") {
      result := result[CHAT_LANGUAGE := Str("Czech")];
      changed := true;
      assert social[CHAT_LANGUAGE] == Str("Check");
    }
  }

  /** The languages of one tree of options. */
  method FixLanguages(options: Node) returns (result: Node, changed: bool)
    ensures result == Fixed(options)
    ensures changed <==> result != options
  {
    if !options.Dict? || SOCIAL !in options.entries || !options.entries[SOCIAL].Dict? {
      return options, false;
    }
    var social, fixing := FixLanguageSubs(options.entries[SOCIAL].entries);
    assert options.entries[SOCIAL] == Dict(options.entries[SOCIAL].entries);
    result, changed := Dict(options.entries[SOCIAL := Dict(social)]), fixing;
    assert result.entries[SOCIAL] == Dict(social);
  }

  /** The four settings every migrated local table has. */
  function FourSettings(table: Entries, creations: Node): Entries {
    map[
      "start_as_visible" := if "start_as_visible" in table then table["start_as_visible"] else Str("always"),
      "start_with_password" := if "start_with_password" in table then table["start_with_password"] else Str("never"),
      "default_password_text" := if "default_password_text" in table then table["default_password_text"] else Str(""),
      NOTIFICATIONS := creations]
  }

  lemma FourSettingsFill(table: Entries, creations: Node)
    ensures table + FourSettings(table, creations) == LocalTable(table, creations)
  {
    var a, b := table + FourSettings(table, creations), LocalTable(table, creations);
    forall k ensures k in a <==> k in b {
    }
    forall k | k in a ensures a[k] == b[k] {
    }
  }

  ghost function Restricted(e: Entries, keys: set<string>): Entries {
    map k | k in e && k in keys :: e[k]
  }

  lemma RestrictedStep(e: Entries, keys: set<string>, first: Entries, key: string)
    requires key in e && key !in keys
    ensures Restricted(e, keys + {key}) + first
            == if key in Restricted(e, keys) + first then Restricted(e, keys) + first
               else (Restricted(e, keys) + first)[key := e[key]]
  {
  }

  lemma RestrictedEnds(e: Entries, first: Entries)
    ensures Restricted(e, {}) + first == first && Restricted(e, e.Keys) + first == e + first
  {
    assert Restricted(e, e.Keys) == e;
  }

  method BuildLocalTable(table: Entries, creations: Node) returns (built: Entries)
    ensures built == LocalTable(table, creations)
  {
    hide FourSettings, LocalTable, Restricted;
    var first := FourSettings(table, creations);
    built := first;
    var rest := table.Keys;
    RestrictedEnds(table, first);
    assert table.Keys - rest == {};
    while rest != {}
      invariant rest <= table.Keys
      invariant built == Restricted(table, table.Keys - rest) + first
      decreases |rest|
    {
      var key :| key in rest;
      RestrictedStep(table, table.Keys - rest, first, key);
      assert table.Keys - rest + {key} == table.Keys - (rest - {key});
      rest := rest - {key};
      if key !in built {
        built := built[key := table[key]];
      }
    }
    assert table.Keys - {} == table.Keys;
    FourSettingsFill(table, creations);
  }

  /** The table notifications of one tree of options moved; nothing if an error is raised. */
  method MoveTables(options: Node) returns (moved: Option<(Node, bool)>)
    ensures moved == if Movable(options) then Some((Moved(options), Moved(options) != options)) else None
  {
    if !options.Dict? || TABLE_CREATIONS !in options.entries {
      return Some((options, false));
    }
    var creations := options.entries[TABLE_CREATIONS];
    var rest := options.entries - {TABLE_CREATIONS};
    var table := if LOCAL_TABLE in rest then rest[LOCAL_TABLE] else EMPTY;
    if !table.Dict? {
      return None;
    }
    var built := BuildLocalTable(table.entries, creations);
    var result := Dict(rest[LOCAL_TABLE := Dict(built)]);
    assert TABLE_CREATIONS in options.entries && TABLE_CREATIONS !in result.entries;
    return Some((result, true));
  }

  /** The overrides carried over from all servers but the ones still to come. */
  ghost function CarriedSoFar(servers: Entries, rest: set<string>): Entries {
    map sid | sid in servers && sid !in rest && Carries(servers[sid]) :: servers[sid].entries[OVERRIDES]
  }

  lemma CarriedStep(servers: Entries, rest: set<string>, sid: string)
    requires sid in servers && sid in rest
    ensures CarriedSoFar(servers, rest - {sid})
            == if Carries(servers[sid]) then CarriedSoFar(servers, rest)[sid := servers[sid].entries[OVERRIDES]]
               else CarriedSoFar(servers, rest)
  {
  }

  /** A profile with other trees of server options. */
  function WithServers(p: Entries, trees: Entries): Entries {
    p[SERVER_OPTIONS := Dict(trees)]
  }

  lemma WithServersIs(p: Entries, a: Entries, b: Entries)
    ensures var q := WithServers(p, a);
            && SERVER_OPTIONS in q && q[SERVER_OPTIONS] == Dict(a) && WithServers(q, b) == WithServers(p, b)
    ensures SERVER_OPTIONS in p && p[SERVER_OPTIONS] == Dict(a) ==> WithServers(p, a) == p
    ensures WithServers(p, a) == p[SERVER_OPTIONS := Dict(a)]
  {
  }

  class Migrator {
    var profiles: Entries

    constructor (raw: Entries)
      ensures profiles == raw
    {
      profiles := raw;
    }

    method MigrateServerOptions() returns (changed: Option<bool>)
      modifies this
      ensures match MigrateServers(old(profiles))
              case None => changed == None
              case Some(r) => changed == Some(r.changed) && profiles == r.profile
    {
      if SERVERS !in profiles || SERVER_OPTIONS in profiles {
        return Some(false);
      }
      profiles := profiles[SERVER_OPTIONS := EMPTY];
      if !profiles[SERVERS].Dict? {
        return None;
      }
      var servers := profiles[SERVERS].entries;
      var rest := servers.Keys;
      assert CarriedSoFar(servers, rest) == map[];
      while rest != {}
        invariant rest <= servers.Keys
        invariant profiles == old(profiles)[SERVER_OPTIONS := Dict(CarriedSoFar(servers, rest))]
        invariant forall sid :: sid in servers && sid !in rest ==> !Raises(servers[sid])
        decreases |rest|
      {
        var sid :| sid in rest;
        CarriedStep(servers, rest, sid);
        rest := rest - {sid};
        var info := servers[sid];
        match info {
          case Dict(entries) =>
            if OVERRIDES in entries && Truthy(entries[OVERRIDES]) {
              profiles := profiles[SERVER_OPTIONS := Dict(profiles[SERVER_OPTIONS].entries[sid := entries[OVERRIDES]])];
            }
          case Str(text) =>
            if Contains(text, OVERRIDES) {
              return None;
            }
          case List(items) =>
            if Str(OVERRIDES) in items {
              return None;
            }
          case _ =>
            return None;
        }
      }
      profiles := profiles - {SERVERS};
      assert CarriedSoFar(servers, {}) == CarriedOver(servers);
      return Some(true);
    }

    method EnsureServerOptions() returns (changed: bool)
      modifies this
      ensures Some(Report(profiles, changed)) == EnsureServers(old(profiles))
    {
      if SERVER_OPTIONS in profiles {
        return false;
      }
      profiles := profiles[SERVER_OPTIONS := EMPTY];
      return true;
    }

    method FixDefaultLanguages() returns (changed: bool)
      modifies this
      ensures Some(Report(profiles, changed)) == FixDefaults(old(profiles))
    {
      if DEFAULTS !in profiles {
        return false;
      }
      var tree;
      tree, changed := FixLanguages(profiles[DEFAULTS]);
      profiles := profiles[DEFAULTS := tree];
      assert !changed ==> profiles == old(profiles);
    }

    method FixServerLanguages() returns (changed: Option<bool>)
      modifies this
      ensures match FixServers(old(profiles))
              case None => changed == None
              case Some(r) => changed == Some(r.changed) && profiles == r.profile
    {
      hide Partly, Each, Fixed, Moved, Movable;
      if SERVER_OPTIONS !in profiles {
        return Some(false);
      }
      if !profiles[SERVER_OPTIONS].Dict? {
        return None;
      }
      var any := false;
      var trees := profiles[SERVER_OPTIONS].entries;
      var rest := trees.Keys;
      PartlyEnds(trees, Fixed);
      assert trees.Keys - rest == {};
      while rest != {}
        invariant rest <= trees.Keys
        invariant profiles == old(profiles)[SERVER_OPTIONS := Dict(Partly(trees, trees.Keys - rest, Fixed))]
        invariant any <==> Partly(trees, trees.Keys - rest, Fixed) != trees
        decreases |rest|
      {
        var sid :| sid in rest;
        PartlyStep(trees, trees.Keys - rest, Fixed, sid);
        assert trees.Keys - rest + {sid} == trees.Keys - (rest - {sid});
        rest := rest - {sid};
        var tree, fixing := FixLanguages(trees[sid]);
        profiles := profiles[SERVER_OPTIONS := Dict(profiles[SERVER_OPTIONS].entries[sid := tree])];
        any := any || fixing;
      }
      assert trees.Keys - {} == trees.Keys;
      SameServersSameProfile(old(profiles), profiles[SERVER_OPTIONS].entries);
      return Some(any);
    }

    method MoveDefaultTables() returns (changed: Option<bool>)
      modifies this
      ensures match MoveDefaults(old(profiles))
              case None => changed == None
              case Some(r) => changed == Some(r.changed) && profiles == r.profile
    {
      if DEFAULTS !in profiles {
        return Some(false);
      }
      var moved := MoveTables(profiles[DEFAULTS]);
      if moved.None? {
        return None;
      }
      profiles := profiles[DEFAULTS := moved.value.0];
      assert !moved.value.1 ==> profiles == old(profiles);
      return Some(moved.value.1);
    }

    /** One server's table notifications moved in place. */
    method MoveServer(sid: string) returns (moved: Option<bool>)
      requires SERVER_OPTIONS in profiles && profiles[SERVER_OPTIONS].Dict? && sid in profiles[SERVER_OPTIONS].entries
      modifies this
      ensures var trees := old(profiles)[SERVER_OPTIONS].entries;
              if Movable(trees[sid])
              then && moved == Some(Moved(trees[sid]) != trees[sid])
                   && profiles == WithServers(old(profiles), trees[sid := Moved(trees[sid])])
              else moved == None && profiles == old(profiles)
    {
      var trees := profiles[SERVER_OPTIONS].entries;
      var result := MoveTables(trees[sid]);
      if result.None? {
        return None;
      }
      profiles := profiles[SERVER_OPTIONS := Dict(trees[sid := result.value.0])];
      return Some(result.value.1);
    }

    method MoveServerTables() returns (changed: Option<bool>)
      modifies this
      ensures match MoveServers(old(profiles))
              case None => changed == None
              case Some(r) => changed == Some(r.changed) && profiles == r.profile
    {
      hide Partly, Each, Fixed, Moved, Movable, MoveServers, WithServers;
      NoServersToMove(profiles);
      if SERVER_OPTIONS !in profiles {
        return Some(false);
      }
      if !profiles[SERVER_OPTIONS].Dict? {
        return None;
      }
      var any := false;
      var trees := profiles[SERVER_OPTIONS].entries;
      var rest := trees.Keys;
      PartlyEnds(trees, Moved);
      assert trees.Keys - rest == {};
      WithServersIs(profiles, trees, trees);
      while rest != {}
        invariant rest <= trees.Keys
        invariant forall sid :: sid in trees && sid !in rest ==> Movable(trees[sid])
        invariant profiles == WithServers(old(profiles), Partly(trees, trees.Keys - rest, Moved))
        invariant any <==> Partly(trees, trees.Keys - rest, Moved) != trees
        decreases |rest|
      {
        var sid :| sid in rest;
        ghost var before := Partly(trees, trees.Keys - rest, Moved);
        PartlyKeeps(trees, trees.Keys - rest, sid);
        WithServersIs(old(profiles), before, before);
        var moved := MoveServer(sid);
        if moved.None? {
          OneUnmovable(old(profiles), sid);
          return None;
        }
        WithServersIs(old(profiles), before, before[sid := Moved(trees[sid])]);
        PartlyStep(trees, trees.Keys - rest, Moved, sid);
        assert trees.Keys - rest + {sid} == trees.Keys - (rest - {sid});
        rest := rest - {sid};
        any := any || moved.value;
      }
      assert trees.Keys - {} == trees.Keys;
      WithServersIs(old(profiles), Partly(trees, trees.Keys, Moved), trees);
      SameServersSameProfile(old(profiles), profiles[SERVER_OPTIONS].entries);
      AllMovableMoved(old(profiles));
      return Some(any);
    }

    /** All six, in order; any error ends the attempt. */
    method MigrateProfiles() returns (needsSave: Option<bool>)
      modifies this
      ensures match Migrate(old(profiles))
              case None => needsSave == None
              case Some(r) => needsSave == Some(r.changed) && profiles == r.profile
    {
      hide ApplyAll, Apply, MigrateServers, EnsureServers, FixDefaults, FixServers, MoveDefaults, MoveServers;
      ghost var t5 := [TablesOfServers] + [];
      ghost var t4 := [TablesOfDefaults] + t5;
      ghost var t3 := [LanguageOfServers] + t4;
      ghost var t2 := [LanguageOfDefaults] + t3;
      ghost var t1 := [Ensure] + t2;
      assert ALL == [Servers] + t1;
      StepIs(Servers, t1, profiles);
      var servers := MigrateServerOptions();
      if servers.None? {
        return None;
      }
      StepIs(Ensure, t2, profiles);
      var ensured := EnsureServerOptions();
      StepIs(LanguageOfDefaults, t3, profiles);
      var defaultLanguages := FixDefaultLanguages();
      StepIs(LanguageOfServers, t4, profiles);
      var serverLanguages := FixServerLanguages();
      if serverLanguages.None? {
        return None;
      }
      StepIs(TablesOfDefaults, t5, profiles);
      var defaultTables := MoveDefaultTables();
      if defaultTables.None? {
        return None;
      }
      StepIs(TablesOfServers, [], profiles);
      var serverTables := MoveServerTables();
      if serverTables.None? {
        return None;
      }
      NothingToApply(profiles);
      return Some(servers.value || ensured || defaultLanguages || serverLanguages.value || defaultTables.value
          || serverTables.value);
    }

    /** What a client starts with after reading a profile. */
    method LoadProfiles()
      modifies this
      ensures profiles == Loaded(old(profiles))
    {
      var needsSave := MigrateProfiles();
      if needsSave.None? {
        profiles := DefaultProfiles();
      }
    }
  }

  lemma StepIs(m: Migration, rest: seq<Migration>, p: Entries)
    ensures var step := (match m
                         case Servers => MigrateServers(p)
                         case Ensure => EnsureServers(p)
                         case LanguageOfDefaults => FixDefaults(p)
                         case LanguageOfServers => FixServers(p)
                         case TablesOfDefaults => MoveDefaults(p)
                         case TablesOfServers => MoveServers(p));
            ApplyAll([m] + rest, p) == match step
                                       case None => None
                                       case Some(r) =>
                                         (match ApplyAll(rest, r.profile)
                                          case None => None
                                          case Some(s) => Some(Report(s.profile, r.changed || s.changed)))
  {
    Unfold(m, rest, p);
  }

  lemma OneUnmovable(p: Entries, sid: string)
    requires SERVER_OPTIONS in p && p[SERVER_OPTIONS].Dict?
    requires sid in p[SERVER_OPTIONS].entries && !Movable(p[SERVER_OPTIONS].entries[sid])
    ensures MoveServers(p) == None
  {
    hide Movable;
  }

  lemma AllMovableMoved(p: Entries)
    requires SERVER_OPTIONS in p && p[SERVER_OPTIONS].Dict?
    requires forall sid :: sid in p[SERVER_OPTIONS].entries ==> Movable(p[SERVER_OPTIONS].entries[sid])
    ensures var p' := p[SERVER_OPTIONS := Dict(Each(p[SERVER_OPTIONS].entries, Moved))];
            MoveServers(p) == Some(Report(p', p' != p))
  {
    hide Movable, Moved, Each;
  }

  /** What the table migration of the servers says when there is nothing to look at. */
  lemma NoServersToMove(p: Entries)
    ensures SERVER_OPTIONS !in p ==> MoveServers(p) == Some(Report(p, false))
    ensures SERVER_OPTIONS in p && !p[SERVER_OPTIONS].Dict? ==> MoveServers(p) == None
  {
  }

  lemma SameServersSameProfile(p: Entries, servers: Entries)
    requires SERVER_OPTIONS in p && p[SERVER_OPTIONS].Dict?
    ensures p[SERVER_OPTIONS := Dict(servers)] != p <==> servers != p[SERVER_OPTIONS].entries
  {
    assert p[SERVER_OPTIONS := Dict(servers)][SERVER_OPTIONS] == Dict(servers);
  }
}
